/** The history screen: the filtered view of the replica, the void dialog,
    and the CSV export of the filtered view. The calendar projection of a
    timestamp to its Lima date (`YYYY-MM-DD`) and the display rendering of a
    timestamp are inputs (`project`, `render`). */
module History {
  import opened Wrappers
  import opened Ledger
  import Seqs
  import Text
  import PeruTime
  import DataStore

  /** The timestamp a record is shown by: `transaction_date`, else
      `created_at`, else the empty text. */
  function Stamp(t: Transaction): (r: string)
    ensures t.transactionDate.Some? && t.transactionDate.value != "" ==> r == t.transactionDate.value
    ensures (t.transactionDate.None? || t.transactionDate == Some("")) && t.createdAt.Some? ==> r == t.createdAt.value
    ensures (t.transactionDate.None? || t.transactionDate == Some("")) && t.createdAt.None? ==> r == ""
  {
    OrElse(t.transactionDate, OrElse(t.createdAt, ""))
  }

  /** The inclusive range test on date strings, by string order. */
  predicate DateMatch(d: string, dateStart: string, dateEnd: string)
  {
    Text.LexLe(dateStart, d) && Text.LexLe(d, dateEnd)
  }

  /** The type selector: TODO keeps everything, ANULADO keeps the voided
      records, any other value keeps the non-voided records of that type. */
  predicate TypeMatch(t: Transaction, typeFilter: string)
  {
    typeFilter == "TODO"
    || (if typeFilter == "ANULADO" then t.status == Some(Anulado)
        else TypeName(t.kind) == typeFilter && t.status != Some(Anulado))
  }

  predicate Keep(t: Transaction, dateStart: string, dateEnd: string, typeFilter: string,
                 project: string -> string)
  {
    DateMatch(project(Stamp(t)), dateStart, dateEnd) && TypeMatch(t, typeFilter)
  }

  /** `filteredData`. */
  function Filtered(ts: seq<Transaction>, dateStart: string, dateEnd: string, typeFilter: string,
                    project: string -> string): (r: seq<Transaction>)
    ensures forall i :: 0 <= i < |r| ==> r[i] in ts && Keep(r[i], dateStart, dateEnd, typeFilter, project)
    ensures forall i :: 0 <= i < |ts| && Keep(ts[i], dateStart, dateEnd, typeFilter, project) ==> ts[i] in r
    ensures Seqs.IsSubsequence(r, ts)
  {
    Seqs.FilterIsSubsequence(ts, t => Keep(t, dateStart, dateEnd, typeFilter, project));
    Seqs.Filter(ts, t => Keep(t, dateStart, dateEnd, typeFilter, project))
  }

  /** The view keeps every occurrence of a record that passes both tests
      and none of one that does not. */
  lemma FilteredCounts(ts: seq<Transaction>, dateStart: string, dateEnd: string, typeFilter: string,
                       project: string -> string)
    ensures forall t :: multiset(Filtered(ts, dateStart, dateEnd, typeFilter, project))[t]
                          == (if Keep(t, dateStart, dateEnd, typeFilter, project) then multiset(ts)[t] else 0)
  {
    Seqs.FilterCounts(ts, t => Keep(t, dateStart, dateEnd, typeFilter, project));
  }

  /** A start after the end matches no date at all. */
  lemma ReversedRangeMatchesNothing(d: string, dateStart: string, dateEnd: string)
    requires !Text.LexLe(dateStart, dateEnd)
    ensures !DateMatch(d, dateStart, dateEnd)
  {
    if DateMatch(d, dateStart, dateEnd) {
      Text.LexLeTrans(dateStart, d, dateEnd);
    }
  }

  /** So with a reversed range the view is empty. */
  lemma ReversedRangeIsEmpty(ts: seq<Transaction>, dateStart: string, dateEnd: string, typeFilter: string,
                             project: string -> string)
    requires !Text.LexLe(dateStart, dateEnd)
    ensures Filtered(ts, dateStart, dateEnd, typeFilter, project) == []
  {
    var r := Filtered(ts, dateStart, dateEnd, typeFilter, project);
    if |r| > 0 {
      ReversedRangeMatchesNothing(project(Stamp(r[0])), dateStart, dateEnd);
    }
  }

  /** A one-day range matches exactly that day. */
  lemma SingleDayRange(d: string, day: string)
    ensures DateMatch(d, day, day) <==> d == day
  {
    if DateMatch(d, day, day) {
      Text.LexLeAntisymmetric(d, day);
    }
    if d == day {
      Text.LexLeTotal(d, d);
    }
  }

  /** TODO keeps voided and active records alike; ANULADO keeps the voided
      ones whatever their type; another value keeps the active records of
      that type only. */
  lemma TypeMatchCases(t: Transaction, typeFilter: string)
    ensures typeFilter == "TODO" ==> TypeMatch(t, typeFilter)
    ensures typeFilter == "ANULADO" ==> (TypeMatch(t, typeFilter) <==> IsVoided(t))
    ensures typeFilter != "TODO" && typeFilter != "ANULADO" ==>
              (TypeMatch(t, typeFilter) <==> IsActive(t) && TypeName(t.kind) == typeFilter)
  {
  }

  // ----- CSV export -----

  const HeaderNames: seq<string> := ["Fecha", "Hora", "Usuario", "Tipo", "Categoria", "Metodo",
                                     "Monto Total", "Efectivo", "Yape", "Estado", "Motivo"]

  /** The cash column: the cash part of the split when it is present and
      not zero, the amount of a cash record otherwise, and 0 else. */
  function CsvEfectivo(t: Transaction): (r: int)
    ensures t.methodDetails.Some? && t.methodDetails.value.efectivo != 0 ==> r == t.methodDetails.value.efectivo
    ensures (t.methodDetails.None? || t.methodDetails.value.efectivo == 0) ==>
              r == (if t.payment == Efectivo then t.amount else 0)
  {
    if t.methodDetails.Some? && t.methodDetails.value.efectivo != 0 then t.methodDetails.value.efectivo
    else if t.payment == Efectivo then t.amount else 0
  }

  /** The wallet column, symmetric to the cash one. */
  function CsvYape(t: Transaction): (r: int)
    ensures t.methodDetails.Some? && t.methodDetails.value.yape != 0 ==> r == t.methodDetails.value.yape
    ensures (t.methodDetails.None? || t.methodDetails.value.yape == 0) ==>
              r == (if t.payment == Yape then t.amount else 0)
  {
    if t.methodDetails.Some? && t.methodDetails.value.yape != 0 then t.methodDetails.value.yape
    else if t.payment == Yape then t.amount else 0
  }

  /** For a record of one method without a split, the column of its
      method holds the amount and the other column 0. */
  lemma CsvColumnsOfPlainRecord(t: Transaction)
    requires t.methodDetails.None?
    ensures t.payment == Efectivo ==> CsvEfectivo(t) == t.amount && CsvYape(t) == 0
    ensures t.payment == Yape ==> CsvEfectivo(t) == 0 && CsvYape(t) == t.amount
    ensures t.payment == Mixto ==> CsvEfectivo(t) == 0 && CsvYape(t) == 0
  {
  }

  /** How `join` renders a missing member: as the empty text. */
  function JoinText(s: Option<string>): string
  {
    if s.Some? then s.value else ""
  }

  /** How a template literal renders a missing member: as "undefined". */
  function TemplateText(s: Option<string>): string
  {
    if s.Some? then s.value else "undefined"
  }

  function Quoted(s: string): string
  {
    "\"" + s + "\""
  }

  /** Date and time of the rendered timestamp: its first two
      space-separated pieces (`const [fecha, hora] = dtFull.split(' ')`);
      a rendering without a space has no time. */
  function DateAndTime(shown: string): (r: (string, string))
    ensures r.0 == Text.Split(shown, ' ')[0]
    ensures |Text.Split(shown, ' ')| > 1 ==> r.1 == Text.Split(shown, ' ')[1]
    ensures |Text.Split(shown, ' ')| == 1 ==> r.1 == ""
  {
    var parts := Text.Split(shown, ' ');
    (parts[0], if |parts| > 1 then parts[1] else "")
  }

  /** The eleven members of a record's row, in header order. */
  function CsvFields(t: Transaction, render: string -> string): (r: seq<string>)
    ensures |r| == 11
    ensures r[2] == JoinText(t.userName) && r[3] == TypeName(t.kind)
    ensures r[4] == Quoted(TemplateText(t.category)) && r[5] == MethodName(t.payment)
    ensures r[6] == Text.Money(t.amount) && r[7] == Text.Money(CsvEfectivo(t)) && r[8] == Text.Money(CsvYape(t))
    ensures var dt := DateAndTime(PeruTime.FormatPeruDate(Stamp(t), render)); r[0] == dt.0 && r[1] == dt.1
    ensures r[9] == JoinText(if t.status.Some? then Some(StatusName(t.status.value)) else None)
    ensures r[10] == Quoted(OrElse(t.justification, ""))
  {
    var dt := DateAndTime(PeruTime.FormatPeruDate(Stamp(t), render));
    var amounts := [Text.Money(t.amount), Text.Money(CsvEfectivo(t)), Text.Money(CsvYape(t))];
    var status := JoinText(if t.status.Some? then Some(StatusName(t.status.value)) else None);
    [dt.0, dt.1, JoinText(t.userName), TypeName(t.kind), Quoted(TemplateText(t.category)),
     MethodName(t.payment)] + amounts + [status, Quoted(OrElse(t.justification, ""))]
  }

  function CsvRow(t: Transaction, render: string -> string): string
  {
    Text.Join(CsvFields(t, render), ';')
  }

  /** A record without a stamp shows "-" and no time. */
  lemma UnstampedRow(t: Transaction, render: string -> string)
    requires Stamp(t) == ""
    ensures CsvFields(t, render)[0] == "-" && CsvFields(t, render)[1] == ""
  {
    Text.SplitNoSep("-", ' ');
  }

  /** Whenever no member contains the separator, the row splits back into
      exactly its eleven members, one under each header name. */
  lemma CsvRowRoundTrip(t: Transaction, render: string -> string)
    requires forall i :: 0 <= i < |CsvFields(t, render)| ==> ';' !in CsvFields(t, render)[i]
    ensures Text.Split(CsvRow(t, render), ';') == CsvFields(t, render)
    ensures |Text.Split(CsvRow(t, render), ';')| == |HeaderNames|
  {
    Text.JoinSplit(CsvFields(t, render), ';');
  }

  /** The header line also splits into its eleven names. */
  lemma HeaderRoundTrip()
    ensures Text.Split(Text.Join(HeaderNames, ';'), ';') == HeaderNames
  {
    assert forall i :: 0 <= i < |HeaderNames| ==> ';' !in HeaderNames[i];
    Text.JoinSplit(HeaderNames, ';');
  }

  function Rows(ts: seq<Transaction>, render: string -> string): (r: seq<string>)
    ensures |r| == |ts|
    ensures forall i :: 0 <= i < |ts| ==> r[i] == CsvRow(ts[i], render)
  {
    seq(|ts|, i requires 0 <= i < |ts| => CsvRow(ts[i], render))
  }

  /** `exportExcel`: refused for an empty view; otherwise the byte-order
      mark, the header line and one line per record of the view. */
  function Export(view: seq<Transaction>, render: string -> string): (r: Option<string>)
    ensures r.None? <==> |view| == 0
  {
    if |view| == 0 then None
    else Some(MarkedHeader() + "\n" + Text.Join(Rows(view, render), '\n'))
  }

  /** When no member of any row contains a line break, the exported text
      splits back into the marked header line followed by one line per
      record of the view, in order. */
  lemma ExportLines(view: seq<Transaction>, render: string -> string)
    requires |view| > 0
    requires forall i :: 0 <= i < |view| ==> '\n' !in CsvRow(view[i], render)
    ensures Export(view, render).Some?
    ensures Text.Split(Export(view, render).value, '\n') == [MarkedHeader()] + Rows(view, render)
  {
    var rows := Rows(view, render);
    Text.JoinSplit(rows, '\n');
    HeaderHasNoBreak();
    Text.SplitAppend(MarkedHeader(), '\n', Text.Join(rows, '\n'));
  }

  /** The first line of an export: the byte-order mark and the header names. */
  function MarkedHeader(): string
  {
    "\U{FEFF}" + Text.Join(HeaderNames, ';')
  }

  lemma HeaderHasNoBreak()
    ensures '\n' !in MarkedHeader()
  {
    NamesHaveNoBreak();
    MarkedJoinAvoidsBreak(HeaderNames);
  }

  /** No header name holds a line break. */
  lemma NamesHaveNoBreak()
    ensures forall i :: 0 <= i < |HeaderNames| ==> '\n' !in HeaderNames[i]
  {
  }

  /** A byte-order mark followed by names joined with ';' holds no line
      break when none of the names does. */
  lemma MarkedJoinAvoidsBreak(names: seq<string>)
    requires forall i :: 0 <= i < |names| ==> '\n' !in names[i]
    ensures '\n' !in "\U{FEFF}" + Text.Join(names, ';')
  {
    Text.JoinAvoids(names, ';', '\n');
  }


  // ----- The void dialog -----

  /** The dialog state of the screen over the data provider. */
  class HistoryScreen {
    var editingItem: Option<Transaction>
    var justification: string
    const store: DataStore.Store

    constructor (store: DataStore.Store)
      ensures this.store == store && editingItem == None && justification == ""
    {
      this.store := store;
      editingItem := None;
      justification := "";
    }

    /** The edit button, shown only on records that are not voided. */
    method Select(t: Transaction)
      modifies this`editingItem
      ensures editingItem == (if IsVoided(t) then old(editingItem) else Some(t))
    {
      if !IsVoided(t) {
        editingItem := Some(t);
      }
    }

    method SetJustification(text: string)
      modifies this`justification
      ensures justification == text
    {
      justification := text;
    }

    /** Cancel closes the dialog and keeps the text typed so far. */
    method Cancel()
      modifies this`editingItem
      ensures editingItem == None
    {
      editingItem := None;
    }

    /** `handleVoid`: without a selection or with an empty justification
        nothing is written and the dialog stays; otherwise the selected id
        is voided with that justification (whether or not the store accepts
        it), the dialog is cleared and the replica refreshed. The text is
        required to be non-empty only, so white space alone is accepted. */
    method HandleVoid(accepted: bool) returns (voided: bool)
      requires store.Valid()
      modifies this`editingItem, this`justification, store
      ensures store.Valid()
      ensures voided <==> old(editingItem).Some? && old(justification) != ""
      ensures !voided ==> editingItem == old(editingItem) && justification == old(justification)
                          && store.State() == old(store.State())
      ensures voided ==> editingItem == None && justification == ""
                         && store.State() == DataStore.VoidedIn(old(store.State()), old(editingItem).value.id,
                                                                old(justification), accepted)
    {
      if editingItem.None? || justification == "" {
        return false;
      }
      store.VoidById(editingItem.value.id, justification, accepted);
      editingItem := None;
      justification := "";
      store.Refresh();
      voided := true;
    }
  }
}
