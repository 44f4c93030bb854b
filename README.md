# Rental apartment manager: a Dafny model

The system is a small web application for a list of rental apartments:
- An Express server keeps two MySQL tables:
  - `appartement`, whose key is `numApp` and which holds a designation and a monthly rent (`loyer`, in Ariary);
  - `users`, registered accounts with bcrypt hashes and JWT bearer tokens.
- A React client has a dashboard (`Home`), a charts component, and five form pages: edit, two add pages, registration and profile.

This project models:
- **The server's routes.** Each route is a function from a table value to a new table and a reply. Next to that, a class holding the table in map fields has one method per route, and each method is proved to agree with that route's function. The invariants are proved to survive every route: the key is unique and never blank, username and email are unique.
- **The dashboard and chart analytics.** The rent labels, the summary cards, the chart statistics and bands, and the CSV layout are pure functions.
- **Each client page.** Each page is a class over its React state. Its handlers are methods that take the settled HTTP call as a parameter and return the request they send. The checks that decide the request are functions, and lemmas connect them to the server's own checks.

The files:
- `js.dfy` models the JavaScript semantics the code relies on:
  - truthiness and `||`;
  - `String.prototype.trim`;
  - `Number()` on strings;
  - JSON (NaN written as null);
  - `split` and `join`.
- `rents.dfy` has sums and extremes of rents.
- `apartments.dfy` and `users.dfy` are the server.
- `client.dfy` is what the pages see of an axios call.
- `home.dfy`, `charts.dfy`, `update.dfy`, `ajouter.dfy`, `add.dfy`, `register.dfy` and `profile.dfy` are the pages.

Where the design description and the code differ, the model follows the code:
- **Apartment routes are unauthenticated.** `authenticateToken` is mounted on `/appartement`, `/update` and `/delete` only after the route handlers (server/server.js:560-562). The handlers answer without calling `next`, so those routes are modelled without authentication.
- **Status codes.** A duplicate key is answered 400, not a conflict status. A token that fails verification is answered 403.
- **Update-profile with no change.** The route refuses with 400 "Aucune modification à effectuer" instead of applying nothing.
- **Rent checks.** Create and update accept any rent that `Number()` reads as positive. Nothing checks that it is finite.

## Model

| member | source | states |
|---|---|---|
| Apartments.CheckCreate | server/server.js:180-198 | Every outcome of create's field checks, as an if-and-only-if, in their order: a falsy field, then a non-string key, then a key blank after trimming, then a NaN or non-positive rent. The accepted row carries the trimmed key. |
| Apartments.CheckUpdate | server/server.js:291-313 | The same checks for update, with update's missing-field text. The accepted row keeps the key untrimmed. |
| Apartments.ChecksAgree | server/server.js:183-198 | Create and update accept the same bodies. Their missing-field refusals coincide, and their other refusals are equal. Create's row is update's row with the key trimmed. |
| Apartments.GetSpec | server/server.js:155-177 | 400 exactly for a whitespace-only key, 404 exactly for an absent key, otherwise exactly the stored row. |
| Apartments.ListsEveryRowOnce | server/server.js:141-153 | GET / lists every stored row exactly once: as many rows as keys, each listed row stored under its own key, each stored row listed, and no row twice. |
| Apartments.InsertKeepsConsistent | server/server.js:211-243 | Inserting under an absent non-blank key keeps the invariant and appends the row to the listing. |
| Apartments.CreateCorrect | server/server.js:179-247 | Create keeps the invariant. It either leaves the table unchanged with a failure, or adds exactly the acknowledged row under a key that was absent and lists it last, with message "Création réussie". |
| Apartments.CreateDuplicateRefused | server/server.js:201-209 | A valid body whose trimmed key exists is refused 400 with the duplicate text, and the table is not changed. |
| Apartments.CreateThenGet | server/server.js:155-247 | After a successful create, GET of the stored key returns exactly that row: trimmed key, the design value as sent, rent as a number. |
| Apartments.ReplaceKeepsConsistent | server/server.js:339-356 | Replacing a present key's row by a row under the same or an absent non-blank key keeps the invariant. |
| Apartments.ReplaceRowsKeyed | server/server.js:339-356 | After the replacement, every row stays under its own key and no key is blank. |
| Apartments.RenameWithinRows | server/server.js:339-356 | After the replacement, every key of the renamed listing order is a row. |
| Apartments.RowsWithinRename | server/server.js:339-356 | After the replacement, every row is in the renamed listing order. |
| Apartments.RenameNoDuplicates | server/server.js:339-356 | The renamed listing order repeats no key. |
| Apartments.ReplaceRowEffect | server/server.js:339-356 | The replacement holds the new row, keeps every other row, adds no other key and keeps the count. |
| Apartments.UpdateCorrect | server/server.js:289-361 | Update keeps the invariant. It either leaves the table unchanged with a failure, or replaces only the old key's row by the acknowledged row, with message "Modification réussie". |
| Apartments.UpdateFailures | server/server.js:316-352 | For valid fields: 400 duplicate when the new key differs and exists, else 404 when the old key is absent, else success. An unchanged key skips the duplicate test. |
| Apartments.GetAfterMove | server/server.js:339-356 | After a row moves to a new key, GET of the new key finds it and GET of the old key is 404. |
| Apartments.RenameThenGet | server/server.js:289-361 | The move round trip for a successful renaming update. |
| Apartments.RemoveKeepsConsistent | server/server.js:271-283 | Removing a key from the rows and the listing keeps the invariant. |
| Apartments.DeleteCorrect | server/server.js:250-286 | Delete keeps the invariant. It either fails with the table unchanged, or removes exactly the named key, answers with that id, and a later GET of it is 404. |
| Apartments.ZeroRentMissing | server/server.js:183-186 | A rent of 0 sent as a number is caught by the missing-field check. |
| Apartments.ZeroTextRentRefused | server/server.js:195-198 | The rent "0" sent as a string passes that check and is refused as not positive. |
| Apartments.ApartmentTable.List | server/server.js:141-153 | The method answers what ListSpec gives for the current state. |
| Apartments.ApartmentTable.Get | server/server.js:155-177 | The method answers what GetSpec gives for the current state. |
| Apartments.ApartmentTable.Create | server/server.js:179-247 | The new state and the reply are those of CreateSpec on the old state. The invariant is kept. |
| Apartments.ApartmentTable.Update | server/server.js:289-361 | The new state and the reply are those of UpdateSpec on the old state. The invariant is kept. |
| Apartments.ApartmentTable.Delete | server/server.js:250-286 | The new state and the reply are those of DeleteSpec on the old state. The invariant is kept. |
| Users.BearerToken | server/server.js:124-125 | No header gives no token. A token taken from the header holds no space. |
| Users.Authenticate | server/server.js:123-138 | 401 exactly when the header yields no token or an empty one. 403 exactly when verification rejects the token. Otherwise the token's own claims. |
| Users.BearerRoundTrip | server/server.js:124-125 | The header "Bearer t", for a non-empty token without spaces, yields exactly t. |
| Users.Named | server/server.js:418-429 | The row the login query finds carries the requested name. |
| Users.NamedIsUnique | server/server.js:418-429 | With unique names, the row found is the row that holds the name. |
| Users.RegisterCorrect | server/server.js:364-408 | Register keeps the invariant. 400 missing exactly for an empty field; 400 taken exactly for a clash on username or email. A refusal changes nothing; success adds exactly one row under the next id with the hash of the password. |
| Users.RegisterThenLogin | server/server.js:364-456 | After a successful register, login with the same name and password answers the token and the profile of the new account. |
| Users.LoginRefusalsAlike | server/server.js:423-434 | An unknown name and a wrong password get the same 401 reply, and every non-400 refusal is that reply. |
| Users.LoginTokenAuthenticates | server/server.js:431-449 | The token login returns passes authenticateToken with the id and name of the user who logged in. |
| Users.MissingTokenRefused | server/server.js:124-129 | A request without a header, or with a header holding no space, is answered 401 and changes nothing. |
| Users.ProfileWrite | server/server.js:513-535 | The row updateProfile writes keeps id and email, takes the new name, and changes the password only when a new one is given (to its hash). |
| Users.StatementPlaceholders | server/server.js:534-537 | The UPDATE statement has one placeholder per clause plus one for the id. |
| Users.PlaceholdersJoin | server/server.js:534 | Comma-joined clauses with one placeholder each hold one placeholder per clause. |
| Users.ProfileStatementCorrect | server/server.js:511-535 | The statement is empty exactly when nothing changes. It holds the username clause exactly when the name changed and the password clause exactly when a new password is given. It binds one value per clause plus the id, and running it writes exactly ProfileWrite, never the email. |
| Users.BuildProfileUpdate | server/server.js:513-535 | The `push` loop builds exactly the columns, values and statement above. |
| Users.RewriteKeepsConsistent | server/server.js:536-541 | Rewriting one row keeps the invariant when its id and email stay and its name stays or is free. |
| Users.UpdateProfileCorrect | server/server.js:459-557 | Update-profile keeps the invariant, the set of ids and every email. A failure changes nothing. Success rewrites only the token's account, with ProfileWrite, and replies with the new name and the stored email. |
| Users.UpdateProfileOrder | server/server.js:465-532 | For an authenticated request the refusals come in order: unknown id 404, then wrong current password 401, then a name held by another id 400, then nothing to change 400. |
| Users.UserTable.Register | server/server.js:364-408 | The new state and the reply are those of RegisterSpec. The invariant is kept. |
| Users.UserTable.Login | server/server.js:411-456 | The reply is that of LoginSpec for the current state. |
| Users.UserTable.UpdateProfile | server/server.js:459-557 | The new state and the reply are those of UpdateProfileSpec. The invariant is kept. |
| Client.ServerErrorOr | front/src/Register.jsx:47-48 | `err.response?.data?.error \|\| d`: the server's non-empty error text when there is one, the default otherwise. |
| Client.ApartmentAnswer | server/server.js:179-361 | A route's reply reaches the page as a rejected call exactly when it is a failure, with the error text in its data. An acknowledgement resolves with its message. |
| Client.UserAnswer | server/server.js:364-557 | The same for the user routes. |
| Home.Observe | front/src/Home.jsx:50-54 | Low exactly below 1000, moderate exactly from 1000 to 5000 inclusive, high exactly above 5000, so every rent gets one label. |
| Home.BoundariesAreModerate | front/src/Home.jsx:51-52 | 1000 and 5000 are both moderate. |
| Home.ObserveMonotone | front/src/Home.jsx:50-54 | The labels are monotone in the rent. |
| Home.Minimum | front/src/Home.jsx:78 | 0 for no records; otherwise a rent of some record, at most every rent. |
| Home.Maximum | front/src/Home.jsx:79 | 0 for no records; otherwise a rent of some record, at least every rent. |
| Home.Average | front/src/Home.jsx:420 | 0 for no records; otherwise the number that, times the count, gives the total. |
| Home.EmptyCards | front/src/Home.jsx:77-79 | With no records, all four cards show 0. |
| Home.CardsOrdered | front/src/Home.jsx:77-79 | On a non-empty list, minimum ≤ average ≤ maximum. |
| Home.Latest | front/src/Home.jsx:488 | The panel shows the first min(5, n) records in list order. |
| Home.CsvLayout | front/src/Home.jsx:291-317 | The export fails exactly on an empty list. Otherwise, in order: the header, one line per record, an empty line, then the Total, Minimum and Maximum lines, |data| + 5 lines in all. |
| Home.CsvRowCells | front/src/Home.jsx:292-312 | A record line without commas or newlines in its cells splits back into its four cells, the last being the rent's label. |
| Home.JoinWithout | front/src/Home.jsx:310-317 | Joining pieces that lack a character gives a text that lacks it. |
| Home.CsvLinesPlain | front/src/Home.jsx:308-317 | Under the same condition no line of the export holds a newline. |
| Home.CsvRoundTrip | front/src/Home.jsx:308-317 | Under that condition the file splits back at its newlines into exactly its lines. |
| Home.WithField | front/src/Home.jsx:186-192 | The add form's change handler sets the named field and keeps the others. |
| Home.Opened | front/src/Home.jsx:194-200 | Opening the modal keeps the row's fields and records its key as the old key. |
| Home.Edited | front/src/Home.jsx:1083-1152 | A modal edit changes one field to the typed text and never the old key. |
| Home.UpdateRequest | front/src/Home.jsx:202-210 | The PUT carries the old key, which the page writes unescaped after `/update/`, with `Number(loyer)` as the rent, and is sent exactly when a row is selected. |
| Home.UneditedSaveKeepsTable | front/src/Home.jsx:194-215 | For a URL-safe key: opening the modal on a stored row and saving without edits targets that row's key, is acknowledged, and leaves the table as it was. |
| Home.UneditedBodyAccepted | front/src/Home.jsx:202-210 | The body of an unedited save passes update's checks as the row itself. |
| Home.SameKeyRewrite | server/server.js:339-356 | Writing a row back under its own key changes neither rows nor order. |
| Home.HomePage.HandleInputChange | front/src/Home.jsx:186-192 | Only the add form changes, by WithField. |
| Home.HomePage.OpenUpdateModal | front/src/Home.jsx:194-200 | The selection becomes Opened(row) and the modal opens, nothing else changes. |
| Home.HomePage.EditSelected | front/src/Home.jsx:1083-1152 | The selection is edited, if there is one. |
| Home.HomePage.UpdateSubmit | front/src/Home.jsx:202-221 | Sends UpdateRequest of the selection. The exact acknowledgement closes the modal with the success notice. A rejection, or no selection, shows the error notice. Any other answer changes nothing. |
| Charts.NotNaNAppend | front/src/components/Charts.jsx:43 | The NaN filter keeps order: it distributes over concatenation. |
| Charts.NotNaNOne | front/src/components/Charts.jsx:43 | A number is kept, NaN is dropped. |
| Charts.NotNaNComplete | front/src/components/Charts.jsx:43-45 | Every kept rent is one of the numbers, and nothing is kept exactly when all are NaN. |
| Charts.LoyersFromFields | front/src/components/Charts.jsx:43-51 | Every rent the charts use is Number() of some record's field, and none is left exactly when every field is NaN. |
| Charts.CategoriesPartition | front/src/components/Charts.jsx:75-79 | The three half-open bands are pairwise disjoint and together hold exactly the non-negative rents. |
| Charts.CountIn | front/src/components/Charts.jsx:81-83 | A band's count is at most the number of rents. |
| Charts.CountsSum | front/src/components/Charts.jsx:75-83 | The three counts add up to the number of non-negative rents, so a negative rent is counted nowhere. |
| Charts.FiveThousandDisagrees | front/src/components/Charts.jsx:77-82 | 5000 falls in the high band of the pie chart while getObservation (front/src/Home.jsx:52) labels it moderate. |
| Charts.BandsMatchLabels | front/src/components/Charts.jsx:75-79 | Apart from 5000, a non-negative rent's band is the one its label names. |
| Charts.StatisticsCorrect | front/src/components/Charts.jsx:53-56 | The statistics hold the sum, the extremes (both among the rents and bounding every rent) and the mean. The bars are [min, mean, max], in ascending order. The counts add up to the non-negative rents. |
| Charts.RenderCases | front/src/components/Charts.jsx:34-51 | "No data" exactly for a missing or empty list, the warning exactly when every rent is NaN, the charts of the parsed rents otherwise. |
| Rents.Min | front/src/components/Charts.jsx:54 | `Math.min`: one of the rents, at most every rent. |
| Rents.Max | front/src/components/Charts.jsx:55 | `Math.max`: one of the rents, at least every rent. |
| Rents.SumBounds | front/src/components/Charts.jsx:53-55 | n·min ≤ total ≤ n·max. |
| Rents.MeanTimesCount | front/src/components/Charts.jsx:56 | The mean times the count is the total. |
| Rents.MeanBetween | front/src/components/Charts.jsx:53-56 | min ≤ mean ≤ max. |
| Rents.SumAppend | front/src/components/Charts.jsx:53 | The total distributes over concatenation. |
| UpdateForm.WithField | front/src/Update.jsx:99-105 | Only the field named by the input's id changes, to the typed text. |
| UpdateForm.Filled | front/src/Update.jsx:32-38 | Each field is the row's value, or '' when that value is falsy. |
| UpdateForm.Loaded | front/src/Update.jsx:23-54 | A non-empty result fills the form from its first row and leaves no error. An empty array gives 'Appartement non trouvé'. A rejection gives the server's error, else the error's message, else the default. |
| UpdateForm.LoadFound | front/src/Update.jsx:23-41 | For a URL-safe key: loading a key the table holds fills the form from its row. |
| UpdateForm.LoadMissing | front/src/Update.jsx:23-46 | For a URL-safe key: loading a key the table lacks shows the server's 404 text. |
| UpdateForm.CheckCases | front/src/Update.jsx:56-81 | As if-and-only-ifs: a key or design that is blank after trimming is blocked with 'Tous les champs sont obligatoires'. Only after that, a NaN or non-positive rent is blocked with the positivity text; trimming a non-string throws. Only a form passing all of these is sent, both texts trimmed and the rent positive. |
| UpdateForm.SentBodyAccepted | front/src/Update.jsx:77-81 | Every body the page sends passes update's checks on the server, which stores the trimmed fields. |
| UpdateForm.BodyAccepted | server/server.js:299-313 | A trimmed non-blank key with a design and a positive rent is accepted as is. |
| UpdateForm.Settled | front/src/Update.jsx:85-92 | Success only for the exact message "Modification réussie"; another resolved answer gives 'La modification n'a pas été effectuée'; a rejection gives the server's error, else the error's message, else the default. |
| UpdateForm.SuccessIffApplied | front/src/Update.jsx:77-90 | For a URL-safe key, against the server, the page is acknowledged exactly when the old key exists and the new key is the same or free, which is exactly when the server applied the update. |
| UpdateForm.AcceptedUpdateAnswer | front/src/Update.jsx:85-90 | The same for any body that passes the field checks. |
| UpdateForm.UpdatePage.Fetch | front/src/Update.jsx:23-54 | The form and the error become those of Loaded, and both loading flags end false. |
| UpdateForm.UpdatePage.HandleInputChange | front/src/Update.jsx:99-105 | The form changes by WithField only. |
| UpdateForm.UpdatePage.HandleUpdate | front/src/Update.jsx:56-97 | A request carrying the page's own key, written unescaped after `/update/`, is sent exactly when the checks pass. The page goes home exactly on the acknowledgement. A blocked form gets its notice and sends nothing. The error after sending is Settled and loading ends false. |
| AjouterForm.CheckCases | front/src/Ajouter.jsx:16-35 | A blank key, an empty design or an empty rent is blocked with 'Tous les champs sont obligatoires!', whatever the rent. Otherwise a NaN or non-positive rent is blocked with the positivity text. Otherwise the form is sent with only the key trimmed. |
| AjouterForm.SentBodyAccepted | front/src/Ajouter.jsx:37-42 | The server accepts every body the page sends and stores the trimmed key, the untrimmed design and the rent. |
| AjouterForm.CreateAccepts | server/server.js:180-198 | The server accepts a trimmed non-blank key with a design and a positive rent text as they are. |
| AjouterForm.Failure | front/src/Ajouter.jsx:50-61 | ERR_NETWORK gives the unreachable text. Otherwise a server answer gives its error or the default. Otherwise the unexpected text. |
| AjouterForm.OutcomeAgainstServer | front/src/Ajouter.jsx:37-61 | Against the server, a sent form goes home exactly when its trimmed key was free. Otherwise the page shows the server's duplicate text. |
| AjouterForm.CreateAnswer | server/server.js:201-243 | For a valid body, the answer resolves exactly when the key was free, and a refusal's text is the duplicate text. |
| AjouterForm.DuplicateAnswer | server/server.js:206-209 | The duplicate refusal reaches the page as a 4xx carrying its text. |
| AjouterForm.AjouterPage.SetNumApp | front/src/Ajouter.jsx:88 | Only the key changes. |
| AjouterForm.AjouterPage.SetDesign | front/src/Ajouter.jsx:102 | Only the design changes. |
| AjouterForm.AjouterPage.SetLoyer | front/src/Ajouter.jsx:116 | Only the rent changes. |
| AjouterForm.AjouterPage.HandleSubmit | front/src/Ajouter.jsx:16-65 | The body is sent exactly when the checks pass. The page goes home exactly on a resolved call. A blocked form gets its notice, and a rejection gets Failure. Loading is false on every exit. |
| AddForm.AdmissibleIffNonNegative | front/src/Add.jsx:198-203 | The keystroke filter lets a text through exactly when Number() reads it as a non-negative number (the empty text being 0). |
| AddForm.BodyRent | front/src/Add.jsx:26-30 | For a rent the filter let through, the body's rent is that non-negative number; the empty rent is sent as 0. |
| AddForm.NeverBadRent | front/src/Add.jsx:198-203 | With such a rent the server never answers its positivity error; a zero rent is refused as missing. |
| AddForm.EmptyRentMissing | front/src/Add.jsx:26-30 | An empty rent reaches the server as 0 and is refused as a missing field. |
| AddForm.Settled | front/src/Add.jsx:32-39 | Success only for the exact message "Création réussie". Another resolved answer gives its error or 'Erreur lors de l'ajout'. A rejection gives the server's error or the default. |
| AddForm.OutcomeAgainstServer | front/src/Add.jsx:26-39 | Against the server, the page is acknowledged exactly when the row was created. A refusal shows the server's text, a crash the default. |
| AddForm.AddPage.LoyerChange | front/src/Add.jsx:198-203 | An admissible text replaces the rent, any other keystroke leaves it unchanged. The rent stays admissible. |
| AddForm.AddPage.SetNumApp | front/src/Add.jsx:138 | Only the key changes. |
| AddForm.AddPage.SetDesign | front/src/Add.jsx:170 | Only the design changes. |
| AddForm.AddPage.HandleSubmit | front/src/Add.jsx:20-43 | Sends the fields as typed, with the rent as a non-negative number. The page goes home exactly on the acknowledgement. The error becomes Settled and loading is off afterwards. |
| RegisterForm.WithField | front/src/Register.jsx:16-21 | Only the named field changes. |
| RegisterForm.OutcomeAgainstServer | front/src/Register.jsx:23-52 | Against the server, a confirmed form moves on to login exactly when the account was created, and that account then logs in with the password typed twice. A refusal shows the server's text. |
| RegisterForm.RegisterPage.HandleChange | front/src/Register.jsx:16-21 | The form changes by WithField only. |
| RegisterForm.RegisterPage.HandleSubmit | front/src/Register.jsx:23-52 | A request is sent exactly when the two passwords are equal. The body is username, password and email only. A mismatch shows 'Les mots de passe ne correspondent pas'. A rejection shows the server's error or the default. Loading is false on every exit. |
| ProfileForm.WithField | front/src/Profile.jsx:30-36 | Only the named field changes. |
| ProfileForm.StoredText | front/src/Profile.jsx:19-27 | A stored string field is read as itself. |
| ProfileForm.Merged | front/src/Profile.jsx:69-73 | The stored user keeps every other field, takes the typed username and email, and holds no other new key. |
| ProfileForm.StoredTokenAuthenticates | front/src/Profile.jsx:51-63 | The header built from a token that login signed authenticates as its account. |
| ProfileForm.NoTokenIsInvalid | front/src/Profile.jsx:51-63 | With no stored token the header is "Bearer null", which the server refuses 403 as invalid, not 401 as missing. |
| ProfileForm.EmailNeverSaved | front/src/Profile.jsx:54-73 | A saved profile never changes the account's email, so a typed new email is kept only in the browser's storage. |
| ProfileForm.ProfilePage.Load | front/src/Profile.jsx:19-28 | A stored user fills the name and email; without one the form is unchanged. |
| ProfileForm.ProfilePage.HandleChange | front/src/Profile.jsx:30-36 | The form changes by WithField only. |
| ProfileForm.ProfilePage.HandleSubmit | front/src/Profile.jsx:38-86 | Error and success are cleared first, and a request is sent exactly when the new password and its confirmation are equal. On success: the message, the stored user merged, the three password fields emptied. On failure: the server's error or the default, the rest kept. Loading ends false. |
| ProfileForm.ProfilePage.HandleLogout | front/src/Profile.jsx:87-89 | Only the confirmation dialog opens. |
| ProfileForm.ProfilePage.ConfirmLogout | front/src/Profile.jsx:91-95 | The token and the stored user are removed. |
| Js.ToNumber | server/server.js:195-196 | `Number()` on JSON values; a blank string is 0, and a string is read as a decimal numeral. |
| Js.TrimIdempotent | server/server.js:189 | Trimming twice is trimming once. |
| Js.BlankIffAllSpace | server/server.js:159 | `s.trim() === ''` exactly when every character is whitespace. |
| Js.SplitJoin | front/src/Home.jsx:308-317 | Splitting a join of pieces that lack the separator gives back the pieces. |

## Left out

- MySQL I/O is not modelled. The connection, its retry loop, the CREATE TABLE statements, CORS and logging, and every 500 "Erreur serveur"-style reply of a failing query (server/server.js:35-120 and the `err` branches) are outside the model. A route's only 500 in the model is a non-string key that makes `trim` throw.
- Keys are compared exactly. MySQL's case- and accent-insensitive collation and DECIMAL rounding of the stored rent are not modelled.
- GET / lists rows in insertion order, with a renamed key keeping its place. The order MySQL returns is not modelled.
- Concurrency is not modelled. Each request is one atomic step; the check-then-act races between callbacks and requests are out of scope.
- bcrypt and jwt are the parameter `Users.Crypto`; its salt is a parameter. Token expiry is not modelled.
- Js.ToNumber reads signed decimal numerals only. Exponents, hexadecimal and Infinity are read as NaN, and floating-point rounding is not modelled: a numeral is its exact real.
- Every user-route body field is a string. For register and login a missing field and "" are both falsy and get the same refusal, so nothing is lost there. Update-profile has no such check, and its missing fields are not modelled:
- Users.UpdateProfileCorrect: a missing `username` is not modelled. In the code `undefined !== user.username` holds, so the route writes `username = NULL` into a NOT NULL column and answers 500 (server/server.js:518-521). The model has no missing name; UpdateProfileSpec only receives strings, and "" renames the user to "".
- Users.UpdateProfileOrder: a missing `currentPassword` is not modelled. In the code `bcrypt.compare(undefined, hash)` rejects inside the query callback, outside the `try`, and no reply is ever sent (server/server.js:478). The model only receives strings, and a wrong current password gets 401.
- The apartment routes' authentication is not modelled. It comes after the handlers and never runs.
- Locale formatting is left out. `formatMontant` and `formatAriary` are a `format` parameter of the CSV functions. Their fr-FR decimal comma can put a comma in a cell, which is why Home.CsvRoundTrip assumes plain cells.
- Apartments.CreateThenGet: the row keeps the design as the JSON value sent. The real column is VARCHAR(255) (server/server.js:215), so for a non-string design GET returns its text: `true` comes back as "1". The model returns the value itself. This is also why UpdateForm.Filled can copy a non-string design into the form, and UpdateForm.Check then models trimming it as a throw; the real page would hold the text. For the same reason the CSV export writes a non-string design as empty text, a case the real table cannot produce.
- Home.UneditedSaveKeepsTable, UpdateForm.LoadFound, UpdateForm.LoadMissing and UpdateForm.SuccessIffApplied hold for URL-safe keys only (Client.UrlSafe). The pages write the key unescaped into the URL (front/src/Home.jsx:156 and 206, front/src/Update.jsx:29 and 77). Create accepts keys with '?', '#', '/' or '%', and these reach the server as another key or no route. For example, with "A" and "A?x" stored, saving "A?x" unedited sends `PUT /update/A` and is refused as a duplicate. What the server receives for such keys is not modelled.
- The Excel and PDF exports, the chart tooltip percentage, the JSX rendering, styles, notification timers and the animations are not modelled.
- Navigation and the refresh GET (`fetchData`) after a change are results of the methods (a flag or a request), not modelled further.
- Home's `handleAddSubmit`, `handleDeleteClick` and `handleConfirmDelete` are not part of this model.
- front/src/Login.jsx and front/src/App.jsx are not part of this model. Neither is front/src/utils/formatters.js.
- On the profile page, a missing or non-string field of the stored user is read as the empty text. The code puts `undefined` into the input.
- Charts.StatisticsCorrect states the mean as Rents.Mean; its meaning (mean times count is the total) is Rents.MeanTimesCount.
