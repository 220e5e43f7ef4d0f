/** The fixed-offset timestamps of the client: the business runs in the
    America/Lima zone, UTC-5 all year, and every timestamp it writes carries
    the literal offset `-05:00`. The calendar projection itself
    (`Intl.DateTimeFormat`) is outside the model: its output, the list of
    named parts, is the input here. */
module PeruTime {
  import opened Wrappers
  import Text

  /** One element of the list `formatToParts` returns, e.g. Part("year", "2026"). */
  datatype Part = Part(kind: string, value: string)

  /** `parts.find(p => p.type === kind)`: the first part of that kind. */
  function FindPart(parts: seq<Part>, kind: string): (r: Option<Part>)
    ensures r.None? <==> forall i :: 0 <= i < |parts| ==> parts[i].kind != kind
    ensures r.Some? ==> exists i :: 0 <= i < |parts| && parts[i] == r.value && r.value.kind == kind
                                  && forall j :: 0 <= j < i ==> parts[j].kind != kind
  {
    if |parts| == 0 then None
    else if parts[0].kind == kind then Some(parts[0])
    else
      var r := FindPart(parts[1..], kind);
      if r.Some? then
        ghost var i :| 0 <= i < |parts[1..]| && parts[1..][i] == r.value && r.value.kind == kind
                       && forall j :: 0 <= j < i ==> parts[1..][j].kind != kind;
        assert parts[i + 1] == r.value;
        r
      else r
  }

  /** `getPart`: the value of the first part of that kind, or "00" when the
      kind is missing or its value is empty. */
  function GetPart(parts: seq<Part>, kind: string): (r: string)
    ensures r != ""
    ensures (forall i :: 0 <= i < |parts| ==> parts[i].kind != kind) ==> r == "00"
    ensures r == "00" || exists i :: 0 <= i < |parts| && parts[i].kind == kind && parts[i].value == r
    ensures forall i :: 0 <= i < |parts| && parts[i].kind == kind && (forall j :: 0 <= j < i ==> parts[j].kind != kind) ==>
              r == (if parts[i].value == "" then "00" else parts[i].value)
  {
    var p := FindPart(parts, kind);
    if p.Some? then
      ghost var k :| 0 <= k < |parts| && parts[k] == p.value && p.value.kind == kind
                     && forall j :: 0 <= j < k ==> parts[j].kind != kind;
      assert forall i :: 0 <= i < |parts| && parts[i].kind == kind && (forall j :: 0 <= j < i ==> parts[j].kind != kind) ==> i == k;
      OrElse(Some(p.value.value), "00")
    else "00"
  }

  const Offset: string := "-05:00"

  /** The calendar date `year-month-day` of a set of parts. */
  function DatePart(parts: seq<Part>): string
  {
    GetPart(parts, "year") + "-" + GetPart(parts, "month") + "-" + GetPart(parts, "day")
  }

  /** The clock time `hour:minute:second.fraction` of a set of parts. */
  function TimePart(parts: seq<Part>): string
  {
    GetPart(parts, "hour") + ":" + GetPart(parts, "minute") + ":" + GetPart(parts, "second")
      + "." + GetPart(parts, "fractionalSecond")
  }

  /** `getPeruDate`: `<date>T<time>-05:00`, ending in the fixed offset. */
  function PeruDate(parts: seq<Part>): (r: string)
    ensures |r| > |Offset| && r[|r| - |Offset|..] == Offset
  {
    DatePart(parts) + "T" + TimePart(parts) + Offset
  }

  /** `getPeruDateString`: the text of the timestamp before its first 'T'. */
  function PeruDateString(parts: seq<Part>): (r: string)
    ensures 'T' !in r
  {
    Text.BeforeFirst(PeruDate(parts), 'T')
  }

  /** For parts whose year, month and day contain no 'T' (digits, as the
      formatter produces), the date string is exactly `year-month-day`. */
  lemma PeruDateStringIsDate(parts: seq<Part>)
    requires 'T' !in GetPart(parts, "year") && 'T' !in GetPart(parts, "month")
    requires 'T' !in GetPart(parts, "day")
    ensures PeruDateString(parts) == DatePart(parts)
  {
    var d := DatePart(parts);
    assert 'T' !in d;
    assert PeruDate(parts) == d + ['T'] + (TimePart(parts) + Offset);
    Text.BeforeFirstAppend(d, 'T', TimePart(parts) + Offset);
  }

  /** `formatPeruDate`: "-" for an empty (or missing) timestamp; the
      rendering of any other timestamp is the calendar library's, given as
      `render`. */
  function FormatPeruDate(iso: string, render: string -> string): (r: string)
    ensures iso == "" ==> r == "-"
    ensures iso != "" ==> r == render(iso)
  {
    if iso == "" then "-" else render(iso)
  }

  // ----- The calendar -----

  /** A day of the proleptic Gregorian calendar. */
  datatype Date = Date(year: int, month: int, day: int)

  predicate IsLeapYear(y: int)
  {
    y % 4 == 0 && (y % 100 != 0 || y % 400 == 0)
  }

  function DaysInMonth(y: int, m: int): (r: int)
    requires 1 <= m <= 12
    ensures 28 <= r <= 31
    ensures r == 29 <==> m == 2 && IsLeapYear(y)
  {
    if m == 2 then (if IsLeapYear(y) then 29 else 28)
    else if m == 4 || m == 6 || m == 9 || m == 11 then 30
    else 31
  }

  /** The month exists and has that day. */
  predicate IsDay(d: Date)
  {
    1 <= d.month <= 12 && 1 <= d.day <= DaysInMonth(d.year, d.month)
  }

  /** A day a date field can hold: four digits of year. */
  predicate ValidDate(d: Date)
  {
    IsDay(d) && 0 <= d.year <= 9999
  }

  type Day = d: Date | ValidDate(d) witness Date(2000, 1, 1)

  /** Calendar order. */
  predicate Before(a: Date, b: Date)
  {
    a.year < b.year || (a.year == b.year && (a.month < b.month || (a.month == b.month && a.day < b.day)))
  }

  function NextDay(d: Date): (r: Date)
    requires IsDay(d)
    ensures IsDay(r) && Before(d, r)
  {
    if d.day < DaysInMonth(d.year, d.month) then d.(day := d.day + 1)
    else if d.month < 12 then Date(d.year, d.month + 1, 1)
    else Date(d.year + 1, 1, 1)
  }

  /** The day before: the next day of the result is the given day. */
  function PreviousDay(d: Date): (r: Date)
    requires IsDay(d)
    ensures IsDay(r) && Before(r, d)
    ensures NextDay(r) == d
  {
    if d.day > 1 then d.(day := d.day - 1)
    else if d.month > 1 then Date(d.year, d.month - 1, DaysInMonth(d.year, d.month - 1))
    else Date(d.year - 1, 12, 31)
  }

  /** The two steps undo each other the other way round too. */
  lemma PreviousOfNext(d: Date)
    requires IsDay(d)
    ensures PreviousDay(NextDay(d)) == d
  {
    if d.day == DaysInMonth(d.year, d.month) && d.month < 12 {
      assert NextDay(d) == Date(d.year, d.month + 1, 1);
    }
  }

  /** `yyyy-mm-dd`, the text of a date field. */
  function DateText(d: Day): (r: string)
    ensures |r| == 10 && r[4] == '-' && r[7] == '-'
    ensures Text.IsDigits(r[..4]) && Text.IsDigits(r[5..7]) && Text.IsDigits(r[8..])
    ensures 'T' !in r
  {
    Text.Padded(d.year, 4) + "-" + Text.Padded(d.month, 2) + "-" + Text.Padded(d.day, 2)
  }

  /** The year, the month and the day read back from the text. */
  lemma DateTextReadBack(d: Day)
    ensures var r := DateText(d);
      && Text.DigitsValue(r[..4]) == d.year && Text.DigitsValue(r[5..7]) == d.month
      && Text.DigitsValue(r[8..]) == d.day
  {
    var r := DateText(d);
    assert r[..4] == Text.Padded(d.year, 4);
    assert r[5..7] == Text.Padded(d.month, 2);
    assert r[8..] == Text.Padded(d.day, 2);
    Text.PaddedRoundTrip(d.year, 4);
    Text.PaddedRoundTrip(d.month, 2);
    Text.PaddedRoundTrip(d.day, 2);
  }

  // ----- Instants -----

  /** An instant as a wall-clock reading: `second` seconds after midnight
      of `date`, at `offset` seconds east of UTC. */
  datatype Reading = Reading(date: Day, second: int, offset: int)

  const SecondsPerDay := 86400

  /** Lima's offset, UTC-5 without daylight saving. */
  const LimaOffset := -5 * 3600

  predicate ValidReading(r: Reading)
  {
    0 <= r.second < SecondsPerDay && -14 * 3600 <= r.offset <= 14 * 3600
  }

  /** The calendar day in Lima of an instant: its reading moved to Lima's
      offset, which is at most a day away. */
  function LimaDay(r: Reading): (d: Date)
    requires ValidReading(r)
    ensures IsDay(d)
    ensures r.offset == LimaOffset ==> d == r.date
    ensures r.second - r.offset + LimaOffset < 0 ==> d == PreviousDay(r.date)
    ensures r.second - r.offset + LimaOffset >= SecondsPerDay ==> d == NextDay(r.date)
    ensures 0 <= r.second - r.offset + LimaOffset < SecondsPerDay ==> d == r.date
  {
    var lima := r.second - r.offset + LimaOffset;
    if lima < 0 then PreviousDay(r.date)
    else if lima >= SecondsPerDay then NextDay(r.date)
    else r.date
  }

  /** The ISO text of a reading at UTC (`toISOString`, ending `.000Z`) or
      at Lima's offset (ending `-05:00`). */
  function StampText(r: Reading): (s: string)
    requires ValidReading(r) && (r.offset == 0 || r.offset == LimaOffset)
    ensures |s| == (if r.offset == 0 then 24 else 25)
    ensures r.offset == 0 ==> s[|s| - 5..] == ".000Z"
    ensures r.offset == LimaOffset ==> s[|s| - |Offset|..] == Offset
  {
    DateText(r.date) + "T" + Text.Padded(r.second / 3600, 2) + ":" + Text.Padded(r.second / 60 % 60, 2)
      + ":" + Text.Padded(r.second % 60, 2) + (if r.offset == 0 then ".000Z" else Offset)
  }

  /** The text before the first 'T' of a stamp is the day of its reading,
      whatever its offset. */
  lemma StampTextDay(r: Reading)
    requires ValidReading(r) && (r.offset == 0 || r.offset == LimaOffset)
    ensures Text.BeforeFirst(StampText(r), 'T') == DateText(r.date)
  {
    var rest := Text.Padded(r.second / 3600, 2) + ":" + Text.Padded(r.second / 60 % 60, 2)
      + ":" + Text.Padded(r.second % 60, 2) + (if r.offset == 0 then ".000Z" else Offset);
    assert StampText(r) == DateText(r.date) + ['T'] + rest;
    Text.BeforeFirstAppend(DateText(r.date), 'T', rest);
  }
}
