// The `appartement` table behind the routes GET /, GET /appartement/:numApp,
// POST /appartement, PUT /update/:numApp and DELETE /delete/:numApp.
//
// Each request is one atomic step: the field checks, the existence query and
// the write.  `Table` is the value of the table; the functions `CreateSpec`,
// `UpdateSpec`, `DeleteSpec`, `GetSpec` and `ListSpec` say what each route does
// to it and answers, and class `ApartmentTable` performs the same steps on
// fields that it updates in place.

module Apartments {
  import opened Js

  /** A row of the table; `design` is kept as the JSON value the client sent. */
  datatype Apartment = Apartment(numApp: string, design: Value, loyer: real)

  /** The three fields of a POST /appartement or PUT /update body. */
  datatype ApartmentBody = ApartmentBody(numApp: Value, design: Value, loyer: Value)

  /** What a route answers.  `Crash` is an exception thrown in the handler
      (calling trim on a value that is not a string), which Express answers
      with its own 500 page. */
  datatype Reply =
    | Fail(status: nat, error: Message)
    | Crash
    | Rows(rows: seq<Apartment>)
    | Created(message: Message, apartment: Apartment)
    | Deleted(message: Message, id: string)
    | Modified(message: Message, data: Apartment)

  /** The error texts of the apartment routes. */
  datatype Message =
    | CreateMissing | UpdateMissing | EmptyKey | BadRent | Duplicate | NotFound
    | GetBlank | DeleteBlank | CreatedMessage | DeletedMessage | ModifiedMessage

  /** The French text each message is sent as. */
  function Text(m: Message): string
  {
    match m
    case CreateMissing => "Numéro d'appartement, design et loyer sont requis"
    case UpdateMissing => "Tous les champs sont obligatoires"
    case EmptyKey => "Le numéro d'appartement ne peut pas être vide"
    case BadRent => "Le loyer doit être un nombre positif"
    case Duplicate => "Ce numéro d'appartement existe déjà"
    case NotFound => "Appartement non trouvé"
    case GetBlank => "Numéro d'appartement manquant"
    case DeleteBlank => "Numéro d'appartement invalide"
    case CreatedMessage => "Création réussie"
    case DeletedMessage => "Suppression réussie"
    case ModifiedMessage => "Modification réussie"
  }

  /** For a string body field, the handlers' `trim() === ''` test. */
  lemma BlankValue(v: Value)
    ensures v.Str? ==> (Trim(v.s) == "" <==> AllSpace(v.s))
  {
    if v.Str? { BlankIffAllSpace(v.s); }
  }

  /** Outcome of the field checks: the row to write, or the reply. */
  datatype Checked = Accept(apt: Apartment) | Reject(reply: Reply)

  /** `isNaN(Number(v)) || Number(v) <= 0` */
  predicate NotPositive(v: Value)
  {
    ToNumber(v).None? || ToNumber(v).value <= 0.0
  }

  /** The checks of POST /appartement, in their order: a falsy field, then a
      key that is blank after trimming, then a rent that is NaN or not
      positive.  The accepted row carries the trimmed key, the design as sent
      and the rent as a number. */
  function CheckCreate(b: ApartmentBody): (r: Checked)
    ensures r == Reject(Fail(400, CreateMissing))
            <==> !Truthy(b.numApp) || !Truthy(b.design) || !Truthy(b.loyer)
    ensures r == Reject(Crash)
            <==> Truthy(b.numApp) && Truthy(b.design) && Truthy(b.loyer) && !b.numApp.Str?
    ensures r == Reject(Fail(400, EmptyKey))
            <==> Truthy(b.design) && Truthy(b.loyer) && b.numApp.Str? && b.numApp.s != ""
                 && Trim(b.numApp.s) == ""
    ensures r == Reject(Fail(400, BadRent))
            <==> Truthy(b.numApp) && Truthy(b.design) && Truthy(b.loyer) && b.numApp.Str?
                 && Trim(b.numApp.s) != "" && NotPositive(b.loyer)
    ensures r.Accept? <==> Truthy(b.numApp) && Truthy(b.design) && Truthy(b.loyer) && b.numApp.Str?
                           && Trim(b.numApp.s) != "" && !NotPositive(b.loyer)
    ensures r.Accept? ==> r.apt == Apartment(Trim(b.numApp.s), b.design, ToNumber(b.loyer).value)
                          && r.apt.numApp != "" && r.apt.loyer > 0.0
  {
    if !Truthy(b.numApp) || !Truthy(b.design) || !Truthy(b.loyer) then Reject(Fail(400, CreateMissing))
    else if !b.numApp.Str? then Reject(Crash)
    else if Trim(b.numApp.s) == "" then Reject(Fail(400, EmptyKey))
    else if NotPositive(b.loyer) then Reject(Fail(400, BadRent))
    else Accept(Apartment(Trim(b.numApp.s), b.design, ToNumber(b.loyer).value))
  }

  /** The checks of PUT /update/:numApp, in the same order as those of
      create but with their own missing-field message.  The accepted row keeps
      the key exactly as sent, untrimmed. */
  function CheckUpdate(b: ApartmentBody): (r: Checked)
    ensures r == Reject(Fail(400, UpdateMissing))
            <==> !Truthy(b.numApp) || !Truthy(b.design) || !Truthy(b.loyer)
    ensures r == Reject(Crash)
            <==> Truthy(b.numApp) && Truthy(b.design) && Truthy(b.loyer) && !b.numApp.Str?
    ensures r == Reject(Fail(400, EmptyKey))
            <==> Truthy(b.design) && Truthy(b.loyer) && b.numApp.Str? && b.numApp.s != ""
                 && Trim(b.numApp.s) == ""
    ensures r == Reject(Fail(400, BadRent))
            <==> Truthy(b.numApp) && Truthy(b.design) && Truthy(b.loyer) && b.numApp.Str?
                 && Trim(b.numApp.s) != "" && NotPositive(b.loyer)
    ensures r.Accept? <==> Truthy(b.numApp) && Truthy(b.design) && Truthy(b.loyer) && b.numApp.Str?
                           && Trim(b.numApp.s) != "" && !NotPositive(b.loyer)
    ensures r.Accept? ==> r.apt == Apartment(b.numApp.s, b.design, ToNumber(b.loyer).value)
                          && Trim(r.apt.numApp) != "" && r.apt.loyer > 0.0
  {
    if !Truthy(b.numApp) || !Truthy(b.design) || !Truthy(b.loyer) then Reject(Fail(400, UpdateMissing))
    else if !b.numApp.Str? then Reject(Crash)
    else if Trim(b.numApp.s) == "" then Reject(Fail(400, EmptyKey))
    else if NotPositive(b.loyer) then Reject(Fail(400, BadRent))
    else Accept(Apartment(b.numApp.s, b.design, ToNumber(b.loyer).value))
  }

  /** Create and update accept the same bodies and refuse the others alike,
      except for the text of the missing-field error; an accepted create row
      carries the trimmed key where update keeps the key as sent. */
  lemma {:induction false} ChecksAgree(b: ApartmentBody)
    ensures CheckUpdate(b).Accept? <==> CheckCreate(b).Accept?
    ensures CheckUpdate(b).Accept?
            ==> CheckCreate(b).apt == CheckUpdate(b).apt.(numApp := Trim(CheckUpdate(b).apt.numApp))
    ensures CheckCreate(b) == Reject(Fail(400, CreateMissing))
            <==> CheckUpdate(b) == Reject(Fail(400, UpdateMissing))
    ensures CheckCreate(b).Reject? && CheckCreate(b) != Reject(Fail(400, CreateMissing))
            ==> CheckUpdate(b) == CheckCreate(b)
  {
  }

  // ---------------------------------------------------------------------------
  // The table as a value

  /** Rows by key, and the keys in the order in which `SELECT *` lists them. */
  datatype Table = Table(rows: map<string, Apartment>, order: seq<string>)

  predicate NoDuplicates(s: seq<string>)
  {
    forall i, j :: 0 <= i < j < |s| ==> s[i] != s[j]
  }

  /** The table invariant: every row is stored under its own numApp, which is
      therefore unique; no key is blank; the listing order names every key
      exactly once. */
  predicate Consistent(t: Table)
  {
    && (forall k :: k in t.rows ==> t.rows[k].numApp == k && !AllSpace(k))
    && NoDuplicates(t.order)
    && (forall k :: k in t.rows ==> k in t.order)
    && (forall i :: 0 <= i < |t.order| ==> t.order[i] in t.rows)
  }

  const EmptyTable := Table(map[], [])

  /** The rows listed in table order. */
  function Records(t: Table): (r: seq<Apartment>)
    requires Consistent(t)
    ensures |r| == |t.order|
    ensures forall i :: 0 <= i < |r| ==> r[i] == t.rows[t.order[i]]
  {
    seq(|t.order|, i requires 0 <= i < |t.order| => t.rows[t.order[i]])
  }

  /** GET / : every row in table order. */
  function ListSpec(t: Table): Reply
    requires Consistent(t)
  {
    Rows(Records(t))
  }

  /** A listing order without duplicates has as many keys as it has
      positions. */
  lemma {:induction false} DistinctKeys(s: seq<string>)
    requires NoDuplicates(s)
    ensures |set k | k in s| == |s|
  {
    if s != [] {
      assert NoDuplicates(s[1..]);
      DistinctKeys(s[1..]);
      assert (set k | k in s) == {s[0]} + (set k | k in s[1..]);
      assert s[0] !in (set k | k in s[1..]);
    }
  }

  /** GET / lists every stored row exactly once: as many rows as keys, each
      listed row stored under its own key, each stored row listed, and no
      row twice. */
  lemma ListsEveryRowOnce(t: Table)
    requires Consistent(t)
    ensures var r := Records(t);
            && |r| == |t.rows|
            && (forall k :: k in t.rows ==> t.rows[k] in r)
            && (forall i :: 0 <= i < |r| ==> r[i].numApp in t.rows && t.rows[r[i].numApp] == r[i])
            && (forall i, j :: 0 <= i < j < |r| ==> r[i] != r[j])
  {
    var r := Records(t);
    DistinctKeys(t.order);
    assert (set k | k in t.order) == t.rows.Keys;
    forall k | k in t.rows ensures t.rows[k] in r {
      var i :| 0 <= i < |t.order| && t.order[i] == k;
      assert r[i] == t.rows[k];
    }
    forall i, j | 0 <= i < j < |r| ensures r[i] != r[j] {
      assert r[i].numApp == t.order[i] && r[j].numApp == t.order[j];
    }
  }

  /** GET /appartement/:numApp : 400 for a blank key, 404 for an absent one,
      otherwise the one-row result. */
  function GetSpec(t: Table, key: string): (r: Reply)
    ensures r == Fail(400, GetBlank) <==> AllSpace(key)
    ensures r == Fail(404, NotFound) <==> !AllSpace(key) && key !in t.rows
    ensures r.Rows? <==> !AllSpace(key) && key in t.rows
    ensures r.Rows? ==> r.rows == [t.rows[key]]
  {
    BlankIffAllSpace(key);
    if Trim(key) == "" then Fail(400, GetBlank)
    else if key !in t.rows then Fail(404, NotFound)
    else Rows([t.rows[key]])
  }

  /** POST /appartement. */
  function CreateSpec(t: Table, b: ApartmentBody): (Table, Reply)
  {
    match CheckCreate(b)
    case Reject(reply) => (t, reply)
    case Accept(a) =>
      if a.numApp in t.rows then (t, Fail(400, Duplicate))
      else (Table(t.rows[a.numApp := a], t.order + [a.numApp]), Created(CreatedMessage, a))
  }

  /** `order` with `from` replaced, in place, by `to`. */
  function Rename(order: seq<string>, from: string, to: string): (r: seq<string>)
    ensures |r| == |order|
    ensures forall i :: 0 <= i < |order| ==> r[i] == if order[i] == from then to else order[i]
  {
    seq(|order|, i requires 0 <= i < |order| => if order[i] == from then to else order[i])
  }

  /** PUT /update/:numApp : the field checks, then the duplicate check for a
      changed key, then the UPDATE, which finds no row for an absent old key. */
  function UpdateSpec(t: Table, oldKey: string, b: ApartmentBody): (Table, Reply)
  {
    match CheckUpdate(b)
    case Reject(reply) => (t, reply)
    case Accept(a) =>
      if a.numApp != oldKey && a.numApp in t.rows then (t, Fail(400, Duplicate))
      else if oldKey !in t.rows then (t, Fail(404, NotFound))
      else
        (Table((t.rows - {oldKey})[a.numApp := a], Rename(t.order, oldKey, a.numApp)),
         Modified(ModifiedMessage, a))
  }

  /** `order` without `key`. */
  function Without(order: seq<string>, key: string): (r: seq<string>)
    ensures forall k :: k in r <==> k in order && k != key
    ensures NoDuplicates(order) ==> NoDuplicates(r)
  {
    if order == [] then []
    else if order[0] == key then Without(order[1..], key)
    else
      var rest := Without(order[1..], key);
      var r := [order[0]] + rest;
      assert NoDuplicates(order) ==> NoDuplicates(r) by {
        if NoDuplicates(order) {
          assert NoDuplicates(order[1..]);
          assert order[0] !in order[1..];
          forall i, j | 0 <= i < j < |r| ensures r[i] != r[j] {
            if i == 0 {
              assert r[j] in rest;
            } else {
              assert r[i] == rest[i - 1] && r[j] == rest[j - 1];
            }
          }
        }
      }
      r
  }

  /** DELETE /delete/:numApp. */
  function DeleteSpec(t: Table, key: string): (Table, Reply)
  {
    if Trim(key) == "" then (t, Fail(400, DeleteBlank))
    else if key !in t.rows then (t, Fail(404, NotFound))
    else (Table(t.rows - {key}, Without(t.order, key)), Deleted(DeletedMessage, key))
  }

  /** A request that the server refuses or cannot handle changes nothing. */
  predicate IsFailure(r: Reply) { r.Fail? || r.Crash? }

  // ---------------------------------------------------------------------------
  // Properties of the routes

  /** Appending a row under an absent, non-blank key keeps the table
      invariant and lists the new row last. */
  lemma InsertKeepsConsistent(t: Table, a: Apartment)
    requires Consistent(t)
    requires a.numApp !in t.rows && !AllSpace(a.numApp)
    ensures var t' := Table(t.rows[a.numApp := a], t.order + [a.numApp]);
            Consistent(t') && Records(t') == Records(t) + [a]
  {
    var t' := Table(t.rows[a.numApp := a], t.order + [a.numApp]);
    assert a.numApp !in t.order;
    assert Consistent(t');
    assert Records(t') == Records(t) + [a];
  }

  /** Create keeps the table invariant, and either inserts exactly the
      acknowledged row under a key that was absent, or changes nothing. */
  lemma CreateCorrect(t: Table, b: ApartmentBody)
    requires Consistent(t)
    ensures Consistent(CreateSpec(t, b).0)
    ensures var (t', r) := CreateSpec(t, b);
            (IsFailure(r) && t' == t)
            || (r.Created? && r.message == CreatedMessage && r.apartment.numApp !in t.rows
                && t'.rows == t.rows[r.apartment.numApp := r.apartment]
                && Records(t') == Records(t) + [r.apartment])
  {
    var c := CheckCreate(b);
    if c.Accept? && c.apt.numApp !in t.rows {
      InsertKeepsConsistent(t, c.apt);
    }
  }

  /** A duplicate key is refused whatever the other fields are, and the
      table is left as it was. */
  lemma CreateDuplicateRefused(t: Table, b: ApartmentBody)
    requires CheckCreate(b).Accept? && CheckCreate(b).apt.numApp in t.rows
    ensures CreateSpec(t, b) == (t, Fail(400, Duplicate))
  {
  }

  /** Round trip: after a successful create, GET of the stored key returns
      the row with the same fields. */
  lemma CreateThenGet(t: Table, b: ApartmentBody)
    requires Consistent(t)
    requires CreateSpec(t, b).1.Created?
    ensures var a := CreateSpec(t, b).1.apartment;
            GetSpec(CreateSpec(t, b).0, a.numApp) == Rows([a])
            && a == Apartment(Trim(b.numApp.s), b.design, ToNumber(b.loyer).value)
  {
    var a := CreateSpec(t, b).1.apartment;
    BlankIffAllSpace(a.numApp);
  }

  // Replacing the row of a present key by a row whose key is that key or an
  // absent one keeps each part of the table invariant.

  lemma ReplaceRowsKeyed(t: Table, oldKey: string, a: Apartment)
    requires Consistent(t) && oldKey in t.rows
    requires a.numApp == oldKey || a.numApp !in t.rows
    requires !AllSpace(a.numApp)
    ensures var rows := (t.rows - {oldKey})[a.numApp := a];
      forall k :: k in rows ==> rows[k].numApp == k && !AllSpace(k)
  {
  }

  lemma RenameWithinRows(t: Table, oldKey: string, a: Apartment)
    requires Consistent(t) && oldKey in t.rows
    requires a.numApp == oldKey || a.numApp !in t.rows
    ensures var rows := (t.rows - {oldKey})[a.numApp := a];
    var o := Rename(t.order, oldKey, a.numApp);
     forall i :: 0 <= i < |o| ==> o[i] in rows
  {
    var rows := (t.rows - {oldKey})[a.numApp := a];
    var o := Rename(t.order, oldKey, a.numApp);
    forall i | 0 <= i < |o| ensures o[i] in rows {
      assert t.order[i] in t.rows;
    }
  }

  lemma RowsWithinRename(t: Table, oldKey: string, a: Apartment)
    requires Consistent(t) && oldKey in t.rows
    requires a.numApp == oldKey || a.numApp !in t.rows
    ensures var rows := (t.rows - {oldKey})[a.numApp := a];
    var o := Rename(t.order, oldKey, a.numApp);
     forall k :: k in rows ==> k in o
  {
    var rows := (t.rows - {oldKey})[a.numApp := a];
    var o := Rename(t.order, oldKey, a.numApp);
    forall k | k in rows ensures k in o {
      if k == a.numApp {
        assert oldKey in t.order;
        var i :| 0 <= i < |t.order| && t.order[i] == oldKey;
        assert o[i] == k;
      } else {
        assert k in t.order;
        var i :| 0 <= i < |t.order| && t.order[i] == k;
        assert o[i] == k;
      }
    }
  }

  lemma RenameNoDuplicates(t: Table, oldKey: string, a: Apartment)
    requires Consistent(t) && oldKey in t.rows
    requires a.numApp == oldKey || a.numApp !in t.rows
    ensures NoDuplicates(Rename(t.order, oldKey, a.numApp))
  {
    var o := Rename(t.order, oldKey, a.numApp);
    forall i, j | 0 <= i < j < |o| ensures o[i] != o[j] {
      if t.order[i] != oldKey && t.order[j] != oldKey {
        assert o[i] == t.order[i] && o[j] == t.order[j];
      } else if t.order[i] == oldKey {
        assert t.order[j] in t.rows;
      } else {
        assert t.order[i] in t.rows;
      }
    }
  }

  lemma ReplaceKeepsConsistent(t: Table, oldKey: string, a: Apartment)
    requires Consistent(t) && oldKey in t.rows
    requires a.numApp == oldKey || a.numApp !in t.rows
    requires !AllSpace(a.numApp)
    ensures Consistent(Table((t.rows - {oldKey})[a.numApp := a], Rename(t.order, oldKey, a.numApp)))
  {
    ReplaceRowsKeyed(t, oldKey, a);
    RenameWithinRows(t, oldKey, a);
    RowsWithinRename(t, oldKey, a);
    RenameNoDuplicates(t, oldKey, a);
  }

  /** Replacing one row of a map: the new row is present, every other row
      is untouched, no key appears from nowhere and the count is kept. */
  lemma ReplaceRowEffect(rows: map<string, Apartment>, oldKey: string, a: Apartment)
    requires oldKey in rows
    requires a.numApp == oldKey || a.numApp !in rows
    ensures var r := (rows - {oldKey})[a.numApp := a];
            a.numApp in r && r[a.numApp] == a
            && (forall k :: k in rows && k != oldKey ==> k in r && r[k] == rows[k])
            && (forall k :: k in r ==> k == a.numApp || k in rows)
            && |r| == |rows|
  {
    var r := (rows - {oldKey})[a.numApp := a];
    if a.numApp == oldKey {
      assert r.Keys == rows.Keys;
    } else {
      assert r.Keys == rows.Keys - {oldKey} + {a.numApp};
      assert |rows.Keys - {oldKey}| == |rows.Keys| - 1;
    }
  }

  /** Update keeps the table invariant; on success only the old key's row is
      replaced, by the new row, and every other row is untouched. */
  lemma UpdateCorrect(t: Table, oldKey: string, b: ApartmentBody)
    requires Consistent(t)
    ensures Consistent(UpdateSpec(t, oldKey, b).0)
    ensures var (t', r) := UpdateSpec(t, oldKey, b);
            (IsFailure(r) && t' == t)
            || (r.Modified? && r.message == ModifiedMessage && oldKey in t.rows
                && r.data.numApp in t'.rows && t'.rows[r.data.numApp] == r.data
                && (forall k :: k in t.rows && k != oldKey ==> k in t'.rows && t'.rows[k] == t.rows[k])
                && (forall k :: k in t'.rows ==> k == r.data.numApp || k in t.rows)
                && |t'.rows| == |t.rows|)
  {
    var c := CheckUpdate(b);
    if c.Accept? && (c.apt.numApp == oldKey || c.apt.numApp !in t.rows) && oldKey in t.rows {
      ReplaceKeepsConsistent(t, oldKey, c.apt);
      ReplaceRowEffect(t.rows, oldKey, c.apt);
    }
  }

  /** After a row moves to a new key, the new key finds it and the old key
      finds nothing. */
  lemma GetAfterMove(t: Table, oldKey: string, a: Apartment)
    requires Consistent(t) && oldKey in t.rows
    requires a.numApp != oldKey && !AllSpace(a.numApp)
    ensures var t' := Table((t.rows - {oldKey})[a.numApp := a], Rename(t.order, oldKey, a.numApp));
            GetSpec(t', a.numApp) == Rows([a]) && GetSpec(t', oldKey) == Fail(404, NotFound)
  {
  }

  /** Round trip for a rename: the new key finds the updated row and the old
      key is gone. */
  lemma RenameThenGet(t: Table, oldKey: string, b: ApartmentBody)
    requires Consistent(t)
    requires UpdateSpec(t, oldKey, b).1.Modified?
    requires b.numApp != Str(oldKey)
    ensures var (t', r) := UpdateSpec(t, oldKey, b);
            GetSpec(t', r.data.numApp) == Rows([r.data])
            && GetSpec(t', oldKey) == Fail(404, NotFound)
  {
    GetAfterMove(t, oldKey, CheckUpdate(b).apt);
  }

  /** The three ways an update with valid fields fails, in the order the
      handler tests them. */
  lemma UpdateFailures(t: Table, oldKey: string, b: ApartmentBody)
    requires CheckUpdate(b).Accept?
    ensures var a := CheckUpdate(b).apt;
            UpdateSpec(t, oldKey, b).1 ==
              if a.numApp != oldKey && a.numApp in t.rows then Fail(400, Duplicate)
              else if oldKey !in t.rows then Fail(404, NotFound)
              else Modified(ModifiedMessage, a)
  {
  }

  /** Removing a key from the rows and from the listing order keeps the
      table invariant. */
  lemma RemoveKeepsConsistent(t: Table, key: string)
    requires Consistent(t)
    ensures Consistent(Table(t.rows - {key}, Without(t.order, key)))
  {
    var rows := t.rows - {key};
    var o := Without(t.order, key);
    forall i | 0 <= i < |o| ensures o[i] in rows {
      assert o[i] in o;
      assert o[i] in t.order;
    }
    forall k | k in rows ensures k in o {
      assert k in t.order;
    }
  }

  /** Delete keeps the table invariant and removes exactly the named key. */
  lemma DeleteCorrect(t: Table, key: string)
    requires Consistent(t)
    ensures Consistent(DeleteSpec(t, key).0)
    ensures var (t', r) := DeleteSpec(t, key);
            (IsFailure(r) && t' == t)
            || (r == Deleted(DeletedMessage, key) && key in t.rows
                && t'.rows == t.rows - {key}
                && GetSpec(t', key) == Fail(404, NotFound))
  {
    if Trim(key) != "" && key in t.rows {
      RemoveKeepsConsistent(t, key);
      var t' := DeleteSpec(t, key).0;
      BlankIffAllSpace(key);
      assert key !in t'.rows;
    }
  }

  /** A rent of 0 sent as a number is falsy and is caught by the
      missing-field check. */
  lemma ZeroRentMissing(numApp: string, design: Value)
    requires !AllSpace(numApp) && Truthy(design)
    ensures CheckCreate(ApartmentBody(Str(numApp), design, Num(0.0))) == Reject(Fail(400, CreateMissing))
  {
  }

  /** Sent as the string "0", the same rent passes the missing-field check
      and is caught by the positivity check instead. */
  lemma ZeroTextRentRefused(numApp: string, design: Value)
    requires !AllSpace(numApp) && Truthy(design)
    ensures CheckCreate(ApartmentBody(Str(numApp), design, Str("0"))) == Reject(Fail(400, BadRent))
  {
    NumberOfZeroText();
    BlankIffAllSpace(numApp);
  }

  // ---------------------------------------------------------------------------
  // The table as a class

  class ApartmentTable {
    var rows: map<string, Apartment>
    var order: seq<string>

    function State(): Table
      reads this
    {
      Table(rows, order)
    }

    predicate Valid()
      reads this
    {
      Consistent(State())
    }

    constructor ()
      ensures Valid() && State() == EmptyTable
    {
      rows, order := map[], [];
    }

    /** GET / */
    method List() returns (reply: Reply)
      requires Valid()
      ensures reply == ListSpec(State())
    {
      reply := Rows(Records(State()));
    }

    /** GET /appartement/:numApp */
    method Get(key: string) returns (reply: Reply)
      ensures reply == GetSpec(State(), key)
    {
      if Trim(key) == "" {
        return Fail(400, GetBlank);
      }
      if key !in rows {
        return Fail(404, NotFound);
      }
      reply := Rows([rows[key]]);
    }

    /** POST /appartement: validate, look the key up, then insert. */
    method Create(body: ApartmentBody) returns (reply: Reply)
      requires Valid()
      modifies this
      ensures Valid()
      ensures (State(), reply) == CreateSpec(old(State()), body)
    {
      var checked := CheckCreate(body);
      if checked.Reject? {
        return checked.reply;
      }
      var a := checked.apt;
      if a.numApp in rows {
        return Fail(400, Duplicate);
      }
      InsertKeepsConsistent(State(), a);
      rows := rows[a.numApp := a];
      order := order + [a.numApp];
      reply := Created(CreatedMessage, a);
    }

    /** PUT /update/:numApp: validate, check a changed key for a clash, then
        rewrite the old key's row. */
    method Update(oldKey: string, body: ApartmentBody) returns (reply: Reply)
      requires Valid()
      modifies this
      ensures Valid()
      ensures (State(), reply) == UpdateSpec(old(State()), oldKey, body)
    {
      var checked := CheckUpdate(body);
      if checked.Reject? {
        return checked.reply;
      }
      var a := checked.apt;
      if a.numApp != oldKey && a.numApp in rows {
        return Fail(400, Duplicate);
      }
      if oldKey !in rows {
        return Fail(404, NotFound);
      }
      ReplaceKeepsConsistent(State(), oldKey, a);
      rows := (rows - {oldKey})[a.numApp := a];
      order := Rename(order, oldKey, a.numApp);
      reply := Modified(ModifiedMessage, a);
    }

    /** DELETE /delete/:numApp: refuse a blank key, look it up, then remove it. */
    method Delete(key: string) returns (reply: Reply)
      requires Valid()
      modifies this
      ensures Valid()
      ensures (State(), reply) == DeleteSpec(old(State()), key)
    {
      if Trim(key) == "" {
        return Fail(400, DeleteBlank);
      }
      if key !in rows {
        return Fail(404, NotFound);
      }
      RemoveKeepsConsistent(State(), key);
      rows := rows - {key};
      order := Without(order, key);
      reply := Deleted(DeletedMessage, key);
    }
  }
}
