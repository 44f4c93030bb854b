// The dashboard page: the rent label of each row, the four summary cards, the
// "Derniers Appartements" panel, the CSV export layout, and the page state
// that the add form and the edit modal update.

module Home {
  import opened Js
  import Rents
  import Apartments
  import Client

  // ---------------------------------------------------------------------------
  // Rent labels

  datatype Observation = Bas | Moyen | Eleve

  function ObservationText(o: Observation): string
  {
    match o
    case Bas => "Bas"
    case Moyen => "Moyen"
    case Eleve => "Élevé"
  }

  /** `getObservation`: below 1000 is low, up to and including 5000 is
      moderate, above is high. */
  function Observe(loyer: real): (o: Observation)
    ensures o == Bas <==> loyer < 1000.0
    ensures o == Moyen <==> 1000.0 <= loyer <= 5000.0
    ensures o == Eleve <==> 5000.0 < loyer
  {
    if loyer < 1000.0 then Bas
    else if loyer <= 5000.0 then Moyen
    else Eleve
  }

  /** Both boundary values are labelled moderate. */
  lemma BoundariesAreModerate()
    ensures Observe(1000.0) == Moyen && Observe(5000.0) == Moyen
  {
  }

  /** Labels are monotone in the rent. */
  lemma ObserveMonotone(x: real, y: real)
    requires x <= y
    ensures Observe(x) == Eleve ==> Observe(y) == Eleve
    ensures Observe(y) == Bas ==> Observe(x) == Bas
  {
  }

  // ---------------------------------------------------------------------------
  // Summary cards

  /** `data.map(hotel => hotel.loyer)` */
  function Loyers(data: seq<Apartments.Apartment>): (xs: seq<real>)
    ensures |xs| == |data| && forall i :: 0 <= i < |data| ==> xs[i] == data[i].loyer
  {
    seq(|data|, i requires 0 <= i < |data| => data[i].loyer)
  }

  /** `data.reduce((acc, hotel) => acc + hotel.loyer, 0)` */
  function Total(data: seq<Apartments.Apartment>): real
  {
    Rents.Sum(Loyers(data))
  }

  /** `data.length ? Math.min(...) : 0` */
  function Minimum(data: seq<Apartments.Apartment>): (m: real)
    ensures data == [] ==> m == 0.0
    ensures data != [] ==> exists i :: 0 <= i < |data| && m == data[i].loyer
    ensures forall i :: 0 <= i < |data| ==> m <= data[i].loyer
  {
    if data == [] then 0.0 else Rents.Min(Loyers(data))
  }

  /** `data.length ? Math.max(...) : 0` */
  function Maximum(data: seq<Apartments.Apartment>): (m: real)
    ensures data == [] ==> m == 0.0
    ensures data != [] ==> exists i :: 0 <= i < |data| && m == data[i].loyer
    ensures forall i :: 0 <= i < |data| ==> data[i].loyer <= m
  {
    if data == [] then 0.0 else Rents.Max(Loyers(data))
  }

  /** The "Loyer Moyen" card: `data.length ? total / data.length : 0`. */
  function Average(data: seq<Apartments.Apartment>): (a: real)
    ensures data == [] ==> a == 0.0
    ensures data != [] ==> a * (|data| as real) == Total(data)
  {
    if data == [] then 0.0 else Total(data) / (|data| as real)
  }

  /** An empty list shows 0 on all four cards. */
  lemma EmptyCards()
    ensures Total([]) == 0.0 && Minimum([]) == 0.0 && Maximum([]) == 0.0 && Average([]) == 0.0
  {
  }

  /** On a non-empty list the cards are ordered minimum, average, maximum. */
  lemma CardsOrdered(data: seq<Apartments.Apartment>)
    requires data != []
    ensures Minimum(data) <= Average(data) <= Maximum(data)
  {
    var xs := Loyers(data);
    assert Minimum(data) == Rents.Min(xs) && Maximum(data) == Rents.Max(xs);
    assert Average(data) == Rents.Mean(xs);
    Rents.MeanBetween(xs);
  }

  /** The "Derniers Appartements" panel: `data.slice(0, 5)`. */
  function Latest(data: seq<Apartments.Apartment>): (r: seq<Apartments.Apartment>)
    ensures |r| == if |data| < 5 then |data| else 5
    ensures forall i :: 0 <= i < |r| ==> r[i] == data[i]
  {
    if |data| < 5 then data else data[..5]
  }

  // ---------------------------------------------------------------------------
  // CSV export

  const CsvHeader := "N° App,Désignation,Loyer,Observation"

  /** The text of a design cell; the database column holds text. */
  function DesignText(v: Value): string
  {
    if v.Str? then v.s else ""
  }

  /** One record line: `Object.values(item).join(',')` of the four cells. */
  function CsvRow(a: Apartments.Apartment, format: real -> string): string
  {
    Join([a.numApp, DesignText(a.design), format(a.loyer), ObservationText(Observe(a.loyer))], ',')
  }

  /** One statistics line. */
  function StatLine(name: string, amount: real, format: real -> string): string
  {
    Join([name, format(amount)], ',')
  }

  /** The lines of the export, with `format` standing for `formatMontant`.
      An empty list has no first record to take the header from, and the
      export throws (None). */
  function CsvLines(data: seq<Apartments.Apartment>, format: real -> string): Option<seq<string>>
  {
    if data == [] then None
    else Some([CsvHeader] + RecordLines(data, format) + [""] + StatLines(data, format))
  }

  function RecordLines(data: seq<Apartments.Apartment>, format: real -> string): (r: seq<string>)
    ensures |r| == |data| && forall i :: 0 <= i < |data| ==> r[i] == CsvRow(data[i], format)
  {
    seq(|data|, i requires 0 <= i < |data| => CsvRow(data[i], format))
  }

  function StatLines(data: seq<Apartments.Apartment>, format: real -> string): seq<string>
  {
    [StatLine("Total", Total(data), format),
     StatLine("Minimum", Minimum(data), format),
     StatLine("Maximum", Maximum(data), format)]
  }

  /** The file content: the lines joined by newlines. */
  function Csv(data: seq<Apartments.Apartment>, format: real -> string): Option<string>
  {
    match CsvLines(data, format)
    case None => None
    case Some(lines) => Some(Join(lines, '\n'))
  }

  /** The layout: a header, one line per record in list order, an empty
      line, then Total, Minimum and Maximum. */
  lemma CsvLayout(data: seq<Apartments.Apartment>, format: real -> string)
    ensures CsvLines(data, format).None? <==> data == []
    ensures data != [] ==>
              var lines := CsvLines(data, format).value;
              && |lines| == |data| + 5
              && lines[0] == CsvHeader
              && (forall i :: 0 <= i < |data| ==> lines[i + 1] == CsvRow(data[i], format))
              && lines[|data| + 1] == ""
              && lines[|data| + 2] == StatLine("Total", Total(data), format)
              && lines[|data| + 3] == StatLine("Minimum", Minimum(data), format)
              && lines[|data| + 4] == StatLine("Maximum", Maximum(data), format)
  {
    if data != [] {
      var records := RecordLines(data, format);
      var head := [CsvHeader] + records + [""];
      var lines := head + StatLines(data, format);
      assert CsvLines(data, format).value == lines;
      forall i | 0 <= i < |data| ensures lines[i + 1] == CsvRow(data[i], format) {
        assert lines[i + 1] == head[i + 1] == records[i];
      }
      assert lines[|data| + 1] == head[|data| + 1] == "";
      assert lines[|data| + 2] == StatLines(data, format)[0];
      assert lines[|data| + 3] == StatLines(data, format)[1];
      assert lines[|data| + 4] == StatLines(data, format)[2];
    }
  }

  /** No cell of a record holds a comma or a newline. */
  predicate PlainCells(a: Apartments.Apartment, format: real -> string)
  {
    && ',' !in a.numApp && '\n' !in a.numApp
    && ',' !in DesignText(a.design) && '\n' !in DesignText(a.design)
    && ',' !in format(a.loyer) && '\n' !in format(a.loyer)
  }

  /** When no cell holds a comma or a newline, a record line splits back at
      its commas into its four cells, the last of them the rent label. */
  lemma CsvRowCells(a: Apartments.Apartment, format: real -> string)
    requires PlainCells(a, format)
    ensures Split(CsvRow(a, format), ',')
            == [a.numApp, DesignText(a.design), format(a.loyer), ObservationText(Observe(a.loyer))]
    ensures '\n' !in CsvRow(a, format)
  {
    var cells := [a.numApp, DesignText(a.design), format(a.loyer), ObservationText(Observe(a.loyer))];
    var o := ObservationText(Observe(a.loyer));
    assert ',' !in o && '\n' !in o;
    assert forall i :: 0 <= i < |cells| ==> ',' !in cells[i];
    SplitJoin(cells, ',');
    JoinWithout(cells, ',', '\n');
  }

  /** Joining pieces that lack a character, with a separator other than it,
      gives a string that lacks it. */
  lemma {:induction false} JoinWithout(pieces: seq<string>, sep: char, c: char)
    requires c != sep && forall i :: 0 <= i < |pieces| ==> c !in pieces[i]
    ensures c !in Join(pieces, sep)
    decreases |pieces|
  {
    if |pieces| > 1 {
      JoinWithout(pieces[1..], sep, c);
    }
  }

  /** When no cell holds a comma or a newline and the formatted amounts hold
      no newline, the file splits back at its newlines into its lines. */
  lemma CsvRoundTrip(data: seq<Apartments.Apartment>, format: real -> string)
    requires data != []
    requires forall i :: 0 <= i < |data| ==> PlainCells(data[i], format)
    requires '\n' !in format(Total(data)) && '\n' !in format(Minimum(data))
             && '\n' !in format(Maximum(data))
    ensures Split(Csv(data, format).value, '\n') == CsvLines(data, format).value
  {
    CsvLinesPlain(data, format);
    SplitJoin(CsvLines(data, format).value, '\n');
  }

  lemma CsvLinesPlain(data: seq<Apartments.Apartment>, format: real -> string)
    requires data != []
    requires forall i :: 0 <= i < |data| ==> PlainCells(data[i], format)
    requires '\n' !in format(Total(data)) && '\n' !in format(Minimum(data))
             && '\n' !in format(Maximum(data))
    ensures NoNewline(CsvLines(data, format).value)
  {
    var records := RecordLines(data, format);
    forall i | 0 <= i < |records| ensures '\n' !in records[i] {
      CsvRowCells(data[i], format);
    }
    StatLineWithout("Total", Total(data), format);
    StatLineWithout("Minimum", Minimum(data), format);
    StatLineWithout("Maximum", Maximum(data), format);
    assert NoNewline(StatLines(data, format));
    assert NoNewline([CsvHeader]) && NoNewline([""]) by {
      assert '\n' !in CsvHeader;
    }
    NoNewlineAppend([CsvHeader], records);
    NoNewlineAppend([CsvHeader] + records, [""]);
    NoNewlineAppend([CsvHeader] + records + [""], StatLines(data, format));
  }

  predicate NoNewline(lines: seq<string>)
  {
    forall i :: 0 <= i < |lines| ==> '\n' !in lines[i]
  }

  lemma NoNewlineAppend(a: seq<string>, b: seq<string>)
    requires NoNewline(a) && NoNewline(b)
    ensures NoNewline(a + b)
  {
    forall i | 0 <= i < |a + b| ensures '\n' !in (a + b)[i] {
      if i >= |a| {
        assert (a + b)[i] == b[i - |a|];
      }
    }
  }

  lemma StatLineWithout(name: string, amount: real, format: real -> string)
    requires '\n' !in name && '\n' !in format(amount)
    ensures '\n' !in StatLine(name, amount, format)
  {
    JoinWithout([name, format(amount)], ',', '\n');
  }

  // ---------------------------------------------------------------------------
  // Page state

  /** The add form's fields, named by the inputs' `name` attributes. */
  datatype NewApartment = NewApartment(numApp: string, design: string, loyer: string)
  datatype Input = NumAppInput | DesignInput | LoyerInput

  function Field(f: NewApartment, name: Input): string
  {
    match name
    case NumAppInput => f.numApp
    case DesignInput => f.design
    case LoyerInput => f.loyer
  }

  /** `{ ...prev, [name]: value }` */
  function WithField(f: NewApartment, name: Input, value: string): (r: NewApartment)
    ensures forall n :: Field(r, n) == if n == name then value else Field(f, n)
  {
    match name
    case NumAppInput => f.(numApp := value)
    case DesignInput => f.(design := value)
    case LoyerInput => f.(loyer := value)
  }

  /** The record the edit modal works on: the row's fields as edited, and the
      key the row had when the modal was opened. */
  datatype Selection = Selection(numApp: Value, design: Value, loyer: Value, oldNumApp: string)

  /** `{ ...appartement, oldNumApp: appartement.numApp }` */
  function Opened(a: Apartments.Apartment): (s: Selection)
    ensures s.oldNumApp == a.numApp && s.numApp == Str(a.numApp) && s.design == a.design && s.loyer == Num(a.loyer)
  {
    Selection(Str(a.numApp), a.design, Num(a.loyer), a.numApp)
  }

  /** The modal inputs' change handlers: one field becomes the typed text. */
  function Edited(s: Selection, name: Input, value: string): (r: Selection)
    ensures r.oldNumApp == s.oldNumApp
    ensures r.numApp == if name == NumAppInput then Str(value) else s.numApp
    ensures r.design == if name == DesignInput then Str(value) else s.design
    ensures r.loyer == if name == LoyerInput then Str(value) else s.loyer
  {
    match name
    case NumAppInput => s.(numApp := Str(value))
    case DesignInput => s.(design := Str(value))
    case LoyerInput => s.(loyer := Str(value))
  }

  /** The PUT of `handleUpdateSubmit`: the key the modal was opened on, which
      the page writes unescaped after `/update/` in the URL, and the edited
      key and design and `Number(loyer)`, as the server reads them back from
      JSON.  With no selection the handler throws inside its `try` and sends
      nothing. */
  function UpdateRequest(s: Option<Selection>): (r: Option<(string, Apartments.ApartmentBody)>)
    ensures r.Some? <==> s.Some?
    ensures r.Some? ==> r.value.0 == s.value.oldNumApp
    ensures r.Some? ==> r.value.1.loyer == Wire(NumberValue(s.value.loyer))
  {
    match s
    case None => None
    case Some(sel) =>
      Some((sel.oldNumApp,
            Apartments.ApartmentBody(Wire(sel.numApp), Wire(sel.design), Wire(NumberValue(sel.loyer)))))
  }

  /** A row as the server stores it after an accepted create or update. */
  predicate Stored(a: Apartments.Apartment)
  {
    !AllSpace(a.numApp) && Truthy(a.design) && a.loyer > 0.0
  }

  /** Opening the modal on a stored row and saving it unedited targets that
      row's key, leaves the table as it was, and is acknowledged.  The server
      receives the key the page wrote when the key is URL-safe. */
  lemma UneditedSaveKeepsTable(t: Apartments.Table, a: Apartments.Apartment)
    requires Apartments.Consistent(t) && a.numApp in t.rows && t.rows[a.numApp] == a && Stored(a)
    requires Client.UrlSafe(a.numApp)
    ensures var (key, body) := UpdateRequest(Some(Opened(a))).value;
            && key == a.numApp
            && Apartments.UpdateSpec(t, key, body) == (t, Apartments.Modified(Apartments.ModifiedMessage, a))
  {
    var (key, body) := UpdateRequest(Some(Opened(a))).value;
    UneditedBodyAccepted(a);
    SameKeyRewrite(t, a);
  }

  /** The body of an unedited save passes the server's field checks as the
      row itself. */
  lemma UneditedBodyAccepted(a: Apartments.Apartment)
    requires Stored(a)
    ensures Apartments.CheckUpdate(UpdateRequest(Some(Opened(a))).value.1) == Apartments.Accept(a)
  {
    var body := UpdateRequest(Some(Opened(a))).value.1;
    assert body == Apartments.ApartmentBody(Str(a.numApp), a.design, Num(a.loyer));
    BlankIffAllSpace(a.numApp);
  }

  /** Writing a row back under its own key changes nothing. */
  lemma SameKeyRewrite(t: Apartments.Table, a: Apartments.Apartment)
    requires a.numApp in t.rows && t.rows[a.numApp] == a
    ensures (t.rows - {a.numApp})[a.numApp := a] == t.rows
    ensures Apartments.Rename(t.order, a.numApp, a.numApp) == t.order
  {
  }

  datatype Notification = Notification(message: string, success: bool)

  class HomePage {
    var data: seq<Apartments.Apartment>
    var newApartment: NewApartment
    var selected: Option<Selection>
    var showUpdateModal: bool
    var notification: Option<Notification>

    constructor ()
      ensures data == [] && newApartment == NewApartment("", "", "")
      ensures selected == None && !showUpdateModal && notification == None
    {
      data := [];
      newApartment := NewApartment("", "", "");
      selected := None;
      showUpdateModal := false;
      notification := None;
    }

    /** `handleInputChange` of the add form. */
    method HandleInputChange(name: Input, value: string)
      modifies this
      ensures newApartment == WithField(old(newApartment), name, value)
      ensures data == old(data) && selected == old(selected)
      ensures showUpdateModal == old(showUpdateModal) && notification == old(notification)
    {
      newApartment := WithField(newApartment, name, value);
    }

    /** `handleOpenUpdateModal` */
    method OpenUpdateModal(a: Apartments.Apartment)
      modifies this
      ensures selected == Some(Opened(a)) && showUpdateModal
      ensures data == old(data) && newApartment == old(newApartment) && notification == old(notification)
    {
      selected := Some(Opened(a));
      showUpdateModal := true;
    }

    /** The modal inputs' `onChange`; with nothing selected the modal is not
        shown and nothing changes. */
    method EditSelected(name: Input, value: string)
      modifies this
      ensures selected == if old(selected).Some? then Some(Edited(old(selected).value, name, value)) else None
      ensures data == old(data) && newApartment == old(newApartment)
      ensures showUpdateModal == old(showUpdateModal) && notification == old(notification)
    {
      if selected.Some? {
        selected := Some(Edited(selected.value, name, value));
      }
    }

    /** `handleUpdateSubmit`: the request it sends, and what `answer`, the
        settled PUT, does to the page.  Only the exact acknowledgement closes
        the modal; a rejection notifies an error; any other answer changes
        nothing.  The refresh that follows a success is a separate GET. */
    method UpdateSubmit(answer: Client.Outcome<Client.Data>)
      returns (request: Option<(string, Apartments.ApartmentBody)>)
      modifies this
      ensures request == UpdateRequest(old(selected))
      ensures data == old(data) && newApartment == old(newApartment) && selected == old(selected)
      ensures request.None? || answer.Rejected? ==>
                showUpdateModal == old(showUpdateModal)
                && notification == Some(Notification(Client.Text(Client.UpdateErrorNotification), false))
      ensures request.Some? && Client.Acknowledges(answer, Apartments.ModifiedMessage) ==>
                !showUpdateModal
                && notification == Some(Notification(Client.Text(Client.UpdatedNotification), true))
      ensures request.Some? && answer.Resolved? && !Client.Acknowledges(answer, Apartments.ModifiedMessage) ==>
                showUpdateModal == old(showUpdateModal) && notification == old(notification)
    {
      request := UpdateRequest(selected);
      if request.None? || answer.Rejected? {
        notification := Some(Notification(Client.Text(Client.UpdateErrorNotification), false));
      } else if Client.Acknowledges(answer, Apartments.ModifiedMessage) {
        showUpdateModal := false;
        notification := Some(Notification(Client.Text(Client.UpdatedNotification), true));
      }
    }
  }
}
