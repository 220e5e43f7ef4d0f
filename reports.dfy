/** The report screen, over the active (non-voided) records of the replica,
    newest first: the sales of the current shift (the records after the
    latest close), and the count of income records per category with the
    top category and the chart data. */
module Reports {
  import opened Wrappers
  import opened Ledger
  import Seqs

  predicate IsIncome(t: Transaction)
  {
    t.kind == Ingreso
  }

  predicate IsClose(t: Transaction)
  {
    t.kind == Cierre
  }

  // ----- Current shift -----

  /** `findIndex` of the first close marker. */
  function FirstClose(ts: seq<Transaction>): (r: Option<nat>)
    ensures r.None? <==> forall i :: 0 <= i < |ts| ==> !IsClose(ts[i])
    ensures r.Some? ==> r.value < |ts| && IsClose(ts[r.value])
                        && forall j :: 0 <= j < r.value ==> !IsClose(ts[j])
  {
    if |ts| == 0 then None
    else if IsClose(ts[0]) then Some(0)
    else
      var r := FirstClose(ts[1..]);
      if r.None? then None
      else
        assert forall j :: 1 <= j < r.value + 1 ==> ts[j] == ts[1..][j - 1];
        Some(r.value + 1)
  }

  /** The records of the current shift: all of them without a close
      marker, otherwise those before the first (the latest) one. The slice
      is a prefix and holds no close marker. */
  function CurrentShift(active: seq<Transaction>): (r: seq<Transaction>)
    ensures |r| <= |active| && r == active[..|r|]
    ensures forall i :: 0 <= i < |r| ==> !IsClose(r[i])
    ensures (forall i :: 0 <= i < |active| ==> !IsClose(active[i])) ==> r == active
    ensures (exists i :: 0 <= i < |active| && IsClose(active[i])) ==> |r| < |active| && IsClose(active[|r|])
  {
    var k := FirstClose(active);
    if k.None? then active else active[..k.value]
  }

  /** The sum of the amounts of a list. */
  function AmountSum(ts: seq<Transaction>): int
  {
    if |ts| == 0 then 0 else AmountSum(ts[..|ts| - 1]) + ts[|ts| - 1].amount
  }

  /** The sales of a list: the amounts of its income records, summed. */
  function Sales(ts: seq<Transaction>): int
  {
    AmountSum(Seqs.Filter(ts, IsIncome))
  }

  /** An independent statement of the same sum, record by record. */
  function IncomeSum(ts: seq<Transaction>): int
  {
    if |ts| == 0 then 0
    else IncomeSum(ts[..|ts| - 1]) + (if IsIncome(ts[|ts| - 1]) then ts[|ts| - 1].amount else 0)
  }

  lemma {:induction false} AmountSumAppend(a: seq<Transaction>, b: seq<Transaction>)
    ensures AmountSum(a + b) == AmountSum(a) + AmountSum(b)
    decreases |b|
  {
    if |b| == 0 {
      assert a + b == a;
    } else {
      assert (a + b)[..|a + b| - 1] == a + b[..|b| - 1];
      AmountSumAppend(a, b[..|b| - 1]);
    }
  }

  /** One more record adds its amount to the sales when it is an income. */
  lemma SalesSnoc(init: seq<Transaction>, last: Transaction)
    ensures Sales(init + [last]) == Sales(init) + (if IsIncome(last) then last.amount else 0)
  {
    var fi, fl := Seqs.Filter(init, IsIncome), Seqs.Filter([last], IsIncome);
    Seqs.FilterAppend(init, [last], IsIncome);
    AmountSumAppend(fi, fl);
    if IsIncome(last) {
      assert fl == [last];
      assert AmountSum([last]) == last.amount by {
        assert [last][..0] == [];
      }
    } else {
      assert fl == [];
    }
  }

  /** The sales of the shift are the amounts of its income records: the
      filter-then-sum and the record-by-record sum agree. */
  lemma {:induction false} SalesIsIncomeSum(ts: seq<Transaction>)
    ensures Sales(ts) == IncomeSum(ts)
    decreases |ts|
  {
    if |ts| > 0 {
      var init, last := ts[..|ts| - 1], ts[|ts| - 1];
      assert ts == init + [last];
      SalesIsIncomeSum(init);
      SalesSnoc(init, last);
    }
  }

  lemma {:induction false} AmountSumNonNegative(ts: seq<Transaction>)
    requires forall i :: 0 <= i < |ts| ==> ts[i].amount >= 0
    ensures AmountSum(ts) >= 0
    decreases |ts|
  {
    if |ts| > 0 {
      AmountSumNonNegative(ts[..|ts| - 1]);
    }
  }

  /** With amounts that are not negative, the shift never sells more than
      the whole active history. */
  lemma ShiftSalesWithinAll(active: seq<Transaction>)
    requires forall i :: 0 <= i < |active| ==> active[i].amount >= 0
    ensures Sales(CurrentShift(active)) <= Sales(active)
  {
    var s := CurrentShift(active);
    var rest := active[|s|..];
    assert active == s + rest;
    Seqs.FilterAppend(s, rest, IsIncome);
    AmountSumAppend(Seqs.Filter(s, IsIncome), Seqs.Filter(rest, IsIncome));
    var fr := Seqs.Filter(rest, IsIncome);
    assert forall i :: 0 <= i < |fr| ==> fr[i].amount >= 0 by {
      forall i | 0 <= i < |fr| ensures fr[i].amount >= 0 {
        assert fr[i] in rest;
      }
    }
    AmountSumNonNegative(fr);
  }

  /** The shift is cut from the active list, so a voided record never
      counts towards its sales. */
  lemma ShiftHasNoVoided(ts: seq<Transaction>)
    ensures forall i :: 0 <= i < |CurrentShift(Active(ts))| ==> IsActive(CurrentShift(Active(ts))[i])
  {
  }

  // ----- Counts per category -----

  /** The name an income record is counted under: its category, or
      'Varios' when it has none. */
  function CategoryName(t: Transaction): (r: string)
    ensures t.category.Some? && t.category.value != "" ==> r == t.category.value
    ensures t.category.None? || t.category == Some("") ==> r == "Varios"
  {
    OrElse(t.category, "Varios")
  }

  /** `productCount`: a dictionary with its keys in insertion order. */
  datatype Counts = Counts(order: seq<string>, count: map<string, nat>)

  predicate WellFormed(c: Counts)
  {
    && (forall i, j :: 0 <= i < j < |c.order| ==> c.order[i] != c.order[j])
    && (forall n :: n in c.count ==> n in c.order)
    && (forall i :: 0 <= i < |c.order| ==> c.order[i] in c.count)
  }

  /** One count more for `name`; a new name is added at the end. */
  function Bump(c: Counts, name: string): Counts
  {
    if name in c.count then Counts(c.order, c.count[name := c.count[name] + 1])
    else Counts(c.order + [name], c.count[name := 1])
  }

  /** The dictionary after counting `ts` in order. */
  function Tally(ts: seq<Transaction>): (r: Counts)
    ensures WellFormed(r)
    ensures |r.order| == 0 <==> |ts| == 0
  {
    if |ts| == 0 then Counts([], map[])
    else
      var c := Tally(ts[..|ts| - 1]);
      var name := CategoryName(ts[|ts| - 1]);
      assert name in c.count ==> name in c.order;
      Bump(c, name)
  }

  /** How many records of `ts` are counted under `name`. */
  function CountName(ts: seq<Transaction>, name: string): nat
  {
    if |ts| == 0 then 0
    else CountName(ts[..|ts| - 1], name) + (if CategoryName(ts[|ts| - 1]) == name then 1 else 0)
  }

  /** The income records of the active list. */
  function Incomes(active: seq<Transaction>): (r: seq<Transaction>)
    ensures forall i :: 0 <= i < |r| ==> IsIncome(r[i])
    ensures |r| == 0 <==> forall i :: 0 <= i < |active| ==> !IsIncome(active[i])
  {
    var r := Seqs.Filter(active, IsIncome);
    assert |r| > 0 ==> r[0] in active;
    r
  }

  /** Counting one more record bumps the name it is counted under. */
  lemma TallyStep(ts: seq<Transaction>, i: nat)
    requires i < |ts|
    ensures Tally(ts[..i + 1]) == Bump(Tally(ts[..i]), CategoryName(ts[i]))
  {
    assert ts[..i + 1][..i] == ts[..i];
  }

  /** The loop of `productCount`, one dictionary update per income
      record. */
  method CountCategories(active: seq<Transaction>) returns (c: Counts)
    ensures c == Tally(Incomes(active))
  {
    var incomes := Incomes(active);
    var order: seq<string> := [];
    var count: map<string, nat> := map[];
    for i := 0 to |incomes|
      invariant Counts(order, count) == Tally(incomes[..i])
    {
      var name := CategoryName(incomes[i]);
      ghost var before := Counts(order, count);
      if name !in count {
        order := order + [name];
        count := count[name := 1];
        assert Counts(order, count) == Bump(before, name);
      } else {
        count := count[name := count[name] + 1];
        assert Counts(order, count) == Bump(before, name);
      }
      TallyStep(incomes, i);
    }
    assert incomes[..|incomes|] == incomes;
    c := Counts(order, count);
  }

  /** Every count is the number of records under that name, and a name
      that is not a key counts no record. */
  lemma {:induction false} TallyCounts(ts: seq<Transaction>, name: string)
    ensures name in Tally(ts).count ==> Tally(ts).count[name] == CountName(ts, name)
    ensures name !in Tally(ts).count ==> CountName(ts, name) == 0
    decreases |ts|
  {
    if |ts| > 0 {
      TallyCounts(ts[..|ts| - 1], name);
    }
  }

  /** Sum of the counts, over the keys in order. */
  function SumCounts(order: seq<string>, count: map<string, nat>): nat
  {
    if |order| == 0 then 0
    else SumCounts(order[..|order| - 1], count)
         + (if order[|order| - 1] in count then count[order[|order| - 1]] else 0)
  }

  lemma {:induction false} SumCountsOther(order: seq<string>, count: map<string, nat>, name: string, v: nat)
    requires name !in order
    ensures SumCounts(order, count[name := v]) == SumCounts(order, count)
    decreases |order|
  {
    if |order| > 0 {
      assert order[|order| - 1] in order;
      var init := order[..|order| - 1];
      assert name !in init;
      SumCountsOther(init, count, name, v);
    }
  }

  lemma {:induction false} SumCountsBump(order: seq<string>, count: map<string, nat>, name: string)
    requires forall i, j :: 0 <= i < j < |order| ==> order[i] != order[j]
    requires name in order && name in count
    ensures SumCounts(order, count[name := count[name] + 1]) == SumCounts(order, count) + 1
    decreases |order|
  {
    var init := order[..|order| - 1];
    var last := order[|order| - 1];
    if last == name {
      assert name !in init;
      SumCountsOther(init, count, name, count[name] + 1);
    } else {
      assert name in init by {
        var k :| 0 <= k < |order| && order[k] == name;
        assert k < |order| - 1 && init[k] == name;
      }
      SumCountsBump(init, count, name);
    }
  }

  /** One more count adds one to the sum. */
  lemma BumpSum(c: Counts, name: string)
    requires WellFormed(c)
    ensures SumCounts(Bump(c, name).order, Bump(c, name).count) == SumCounts(c.order, c.count) + 1
  {
    if name in c.count {
      SumCountsBump(c.order, c.count, name);
    } else {
      var order := c.order + [name];
      assert order[..|order| - 1] == c.order;
      SumCountsOther(c.order, c.count, name, 1);
    }
  }

  /** The counts add up to the number of records counted: every active
      income record is counted exactly once. */
  lemma {:induction false} TallySum(ts: seq<Transaction>)
    ensures SumCounts(Tally(ts).order, Tally(ts).count) == |ts|
    decreases |ts|
  {
    if |ts| > 0 {
      var c := Tally(ts[..|ts| - 1]);
      TallySum(ts[..|ts| - 1]);
      BumpSum(c, CategoryName(ts[|ts| - 1]));
    }
  }

  /** `Object.entries`: (name, count) pairs in key order. */
  function Entries(c: Counts): (r: seq<(string, nat)>)
    ensures |r| == |c.order|
    ensures forall i :: 0 <= i < |r| ==> r[i].0 == c.order[i]
  {
    seq(|c.order|, i requires 0 <= i < |c.order| =>
      (c.order[i], if c.order[i] in c.count then c.count[c.order[i]] else 0))
  }

  /** The first entry after a stable sort by decreasing count: the first
      entry of maximal count, none for no entries. */
  function Top(entries: seq<(string, nat)>): (r: Option<(string, nat)>)
    ensures r.None? <==> |entries| == 0
    ensures r.Some? ==> forall j :: 0 <= j < |entries| ==> entries[j].1 <= r.value.1
    ensures r.Some? ==> exists k :: 0 <= k < |entries| && entries[k] == r.value
                                    && forall j :: 0 <= j < k ==> entries[j].1 < r.value.1
  {
    if |entries| == 0 then None
    else
      var rest := Top(entries[1..]);
      if rest.None? || entries[0].1 >= rest.value.1 then
        assert forall j :: 1 <= j < |entries| ==> entries[j] == entries[1..][j - 1];
        Some(entries[0])
      else
        var k :| 0 <= k < |entries[1..]| && entries[1..][k] == rest.value
                 && forall j :: 0 <= j < k ==> entries[1..][j].1 < rest.value.1;
        assert entries[k + 1] == rest.value;
        assert forall j :: 1 <= j < k + 1 ==> entries[j] == entries[1..][j - 1];
        rest
  }

  /** `topProduct` is undefined exactly when there is no active income
      record; otherwise its count is that of its name and no name counts
      more records. */
  lemma TopProduct(active: seq<Transaction>)
    ensures var top := Top(Entries(Tally(Incomes(active))));
      && (top.None? <==> forall i :: 0 <= i < |active| ==> !IsIncome(active[i]))
      && (top.Some? ==> top.value.1 == CountName(Incomes(active), top.value.0)
                        && forall n :: CountName(Incomes(active), n) <= top.value.1)
  {
    var ts := Incomes(active);
    var top := Top(Entries(Tally(ts)));
    if top.Some? {
      TopCountsMost(ts, top.value);
    }
  }

  /** The top entry's count is that of its name, and no name counts more. */
  lemma TopCountsMost(ts: seq<Transaction>, top: (string, nat))
    requires Top(Entries(Tally(ts))) == Some(top)
    ensures top.1 == CountName(ts, top.0)
    ensures forall n :: CountName(ts, n) <= top.1
  {
    var c := Tally(ts);
    var e := Entries(c);
    var k :| 0 <= k < |e| && e[k] == top;
    EntryAt(c, k);
    TallyCounts(ts, top.0);
    forall n ensures CountName(ts, n) <= top.1 {
      TallyCounts(ts, n);
      if n in c.count {
        var j :| 0 <= j < |c.order| && c.order[j] == n;
        EntryAt(c, j);
      }
    }
  }

  /** An entry carries the count of its key. */
  lemma EntryAt(c: Counts, j: nat)
    requires WellFormed(c) && j < |c.order|
    ensures c.order[j] in c.count && Entries(c)[j] == (c.order[j], c.count[c.order[j]])
  {
  }

  /** One slice of the chart. */
  datatype Slice = Slice(name: string, value: nat)

  /** `pieData`: one slice per counted name, in key order. */
  function PieData(c: Counts): (r: seq<Slice>)
    ensures |r| == |c.order|
    ensures forall i :: 0 <= i < |r| ==> r[i] == Slice(Entries(c)[i].0, Entries(c)[i].1)
  {
    var e := Entries(c);
    seq(|e|, i requires 0 <= i < |e| => Slice(e[i].0, e[i].1))
  }

  /** The chart has one slice per name under which an active income
      record is counted, no name twice, and each slice's value is the
      number of records under its name. */
  lemma PieDataCounts(active: seq<Transaction>)
    ensures var ts := Incomes(active);
      var r := PieData(Tally(ts));
      && (forall i, j :: 0 <= i < j < |r| ==> r[i].name != r[j].name)
      && (forall i :: 0 <= i < |r| ==> r[i].value == CountName(ts, r[i].name) && r[i].value > 0)
      && (forall n :: CountName(ts, n) > 0 ==> exists i :: 0 <= i < |r| && r[i].name == n)
  {
    var ts := Incomes(active);
    var c := Tally(ts);
    var r := PieData(c);
    forall i | 0 <= i < |r| ensures r[i].value == CountName(ts, r[i].name) && r[i].value > 0 {
      TallyCounts(ts, r[i].name);
      TallyPositive(ts, r[i].name);
    }
    forall n | CountName(ts, n) > 0 ensures exists i :: 0 <= i < |r| && r[i].name == n {
      TallyCounts(ts, n);
      var i :| 0 <= i < |c.order| && c.order[i] == n;
      assert r[i].name == n;
    }
  }

  /** A key is only ever added with a count of one and then grows. */
  lemma {:induction false} TallyPositive(ts: seq<Transaction>, name: string)
    ensures name in Tally(ts).count ==> Tally(ts).count[name] > 0
    decreases |ts|
  {
    if |ts| > 0 {
      TallyPositive(ts[..|ts| - 1], name);
    }
  }
}
