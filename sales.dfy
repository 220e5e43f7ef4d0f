/** The sales screen: per product, the cash and wallet takings typed in,
    their running total, and the save that turns every entry with takings
    into one income record. The store's inserts are made one after the
    other, in entry order. */
module Sales {
  import opened Wrappers
  import opened Ledger
  import Text
  import PeruTime
  import DataStore

  /** A product of the catalogue, as far as a sale needs it. */
  datatype Product = Product(id: string, name: string)

  /** The two inputs of a product row. */
  datatype Field = CashField | WalletField

  /** The typed takings of one product (None: never typed, read as 0). */
  datatype Entry = Entry(productId: string, efectivo: Option<int>, yape: Option<int>)

  /** `Number(v || 0)` for a typed value. */
  function Value(v: Option<int>): int
  {
    v.GetOr(0)
  }

  predicate DistinctKeys(ts: seq<Entry>)
  {
    forall i, j :: 0 <= i < j < |ts| ==> ts[i].productId != ts[j].productId
  }

  predicate NonNegative(ts: seq<Entry>)
  {
    forall i :: 0 <= i < |ts| ==> Value(ts[i].efectivo) >= 0 && Value(ts[i].yape) >= 0
  }

  /** The position of a product's entry. */
  function IndexOf(ts: seq<Entry>, productId: string): (r: Option<nat>)
    ensures r.None? <==> forall i :: 0 <= i < |ts| ==> ts[i].productId != productId
    ensures r.Some? ==> r.value < |ts| && ts[r.value].productId == productId
  {
    if |ts| == 0 then None
    else if ts[|ts| - 1].productId == productId then Some(|ts| - 1)
    else IndexOf(ts[..|ts| - 1], productId)
  }

  function WithField(e: Entry, f: Field, value: int): Entry
  {
    if f == CashField then e.(efectivo := Some(value)) else e.(yape := Some(value))
  }

  /** `handleInputChange`: a negative value is refused; otherwise only the
      chosen field of that product changes, and a product typed for the
      first time is added at the end. */
  function SetField(ts: seq<Entry>, productId: string, f: Field, value: int): (r: seq<Entry>)
    requires DistinctKeys(ts)
    ensures DistinctKeys(r)
    ensures value < 0 ==> r == ts
    ensures value >= 0 && IndexOf(ts, productId).Some? ==>
              var k := IndexOf(ts, productId).value;
              r == ts[k := WithField(ts[k], f, value)]
    ensures value >= 0 && IndexOf(ts, productId).None? ==>
              r == ts + [WithField(Entry(productId, None, None), f, value)]
    ensures NonNegative(ts) ==> NonNegative(r)
  {
    if value < 0 then ts
    else
      var k := IndexOf(ts, productId);
      if k.Some? then ts[k.value := WithField(ts[k.value], f, value)]
      else ts + [WithField(Entry(productId, None, None), f, value)]
  }

  /** The takings of a list of entries. */
  function TotalOf(ts: seq<Entry>): int
  {
    if |ts| == 0 then 0
    else TotalOf(ts[..|ts| - 1]) + Value(ts[|ts| - 1].efectivo) + Value(ts[|ts| - 1].yape)
  }

  lemma {:induction false} TotalOfUpdate(ts: seq<Entry>, k: nat, e: Entry)
    requires k < |ts|
    ensures TotalOf(ts[k := e]) == TotalOf(ts) - Value(ts[k].efectivo) - Value(ts[k].yape)
                                   + Value(e.efectivo) + Value(e.yape)
    decreases |ts|
  {
    var init := ts[..|ts| - 1];
    if k == |ts| - 1 {
      assert ts[k := e][..|ts| - 1] == init;
    } else {
      assert ts[k := e][..|ts| - 1] == init[k := e];
      TotalOfUpdate(init, k, e);
    }
  }

  /** Typing a value changes the running total by the difference with
      what the field held. */
  lemma SetFieldTotal(ts: seq<Entry>, productId: string, f: Field, value: int)
    requires DistinctKeys(ts) && value >= 0
    ensures var old_v := (match IndexOf(ts, productId)
                          case None => 0
                          case Some(k) => if f == CashField then Value(ts[k].efectivo) else Value(ts[k].yape));
      TotalOf(SetField(ts, productId, f, value)) == TotalOf(ts) - old_v + value
  {
    var k := IndexOf(ts, productId);
    if k.Some? {
      TotalOfUpdate(ts, k.value, WithField(ts[k.value], f, value));
    } else {
      var r := ts + [WithField(Entry(productId, None, None), f, value)];
      assert r[..|r| - 1] == ts;
    }
  }

  /** The method of a sale: mixed when both parts are positive, the
      wallet when only it is, cash otherwise. */
  function SaleMethod(efectivo: int, yape: int): (m: Method)
    ensures m == Mixto <==> efectivo > 0 && yape > 0
    ensures m == Yape <==> efectivo <= 0 && yape > 0
    ensures m == Efectivo <==> yape <= 0
  {
    if efectivo > 0 && yape > 0 then Mixto
    else if yape > 0 then Yape
    else Efectivo
  }

  /** `products.find(p => p.id === productId)`. */
  function FindProduct(products: seq<Product>, productId: string): (r: Option<Product>)
    ensures r.None? <==> forall i :: 0 <= i < |products| ==> products[i].id != productId
    ensures r.Some? ==> r.value in products && r.value.id == productId
    ensures r.Some? ==> exists i :: 0 <= i < |products| && products[i] == r.value
                                  && forall j :: 0 <= j < i ==> products[j].id != productId
  {
    if |products| == 0 then None
    else if products[0].id == productId then Some(products[0])
    else
      var r := FindProduct(products[1..], productId);
      if r.Some? then
        ghost var i :| 0 <= i < |products[1..]| && products[1..][i] == r.value
                       && forall j :: 0 <= j < i ==> products[1..][j].id != productId;
        assert products[i + 1] == r.value;
        r
      else r
  }

  /** The category of a sale: the product's name, 'Venta' for an unknown
      product or one without a name. */
  function SaleCategory(products: seq<Product>, productId: string): (r: string)
    ensures FindProduct(products, productId).None? ==> r == "Venta"
    ensures FindProduct(products, productId).Some? && FindProduct(products, productId).value.name != "" ==>
              r == FindProduct(products, productId).value.name
    ensures FindProduct(products, productId).Some? && FindProduct(products, productId).value.name == "" ==>
              r == "Venta"
  {
    var p := FindProduct(products, productId);
    OrElse(if p.Some? then Some(p.value.name) else None, "Venta")
  }

  /** The income record of one entry. */
  function SaleRecord(e: Entry, products: seq<Product>, stamp: string): (r: Transaction)
    ensures r.kind == Ingreso && r.amount == Value(e.efectivo) + Value(e.yape)
    ensures r.methodDetails == Some(MethodDetails(Value(e.efectivo), Value(e.yape)))
    ensures r.payment == SaleMethod(Value(e.efectivo), Value(e.yape))
    ensures r.userName == Some("ADMIN") && r.status == Some(Activo) && r.transactionDate == Some(stamp)
    ensures r.category == Some(SaleCategory(products, e.productId))
  {
    var ef, ya := Value(e.efectivo), Value(e.yape);
    Transaction(None, None, ef + ya, Ingreso, Some(SaleCategory(products, e.productId)), SaleMethod(ef, ya),
                Some(MethodDetails(ef, ya)), None, Some("ADMIN"), Some(stamp), Some(Activo), None)
  }

  /** With takings that are not negative, a sale raises each bucket by its
      own part, so the balances grow by exactly the record's amount. */
  lemma SaleRecordDelta(e: Entry, products: seq<Product>, stamp: string)
    requires Value(e.efectivo) >= 0 && Value(e.yape) >= 0
    ensures Delta(SaleRecord(e, products, stamp)) == Balances(Value(e.efectivo), Value(e.yape))
    ensures Delta(SaleRecord(e, products, stamp)).Total() == SaleRecord(e, products, stamp).amount
  {
  }

  // ----- The stamp of a sale -----

  /** The instant the source stamps a sale with, `new Date(day).toISOString()`:
      a date-only text is read as midnight UTC. */
  function SourceSaleReading(d: PeruTime.Day): (r: PeruTime.Reading)
    ensures PeruTime.ValidReading(r) && r.date == d && r.second == 0 && r.offset == 0
  {
    PeruTime.Reading(d, 0, 0)
  }

  /** The stamp as written names the chosen day in its text, but the
      instant falls on the day before in Lima, so the history screen, which
      reads days in Lima, lists the sale under the previous day. */
  lemma SourceSaleStampIsPreviousDay(d: PeruTime.Day)
    ensures Text.BeforeFirst(PeruTime.StampText(SourceSaleReading(d)), 'T') == PeruTime.DateText(d)
    ensures PeruTime.LimaDay(SourceSaleReading(d)) == PeruTime.PreviousDay(d)
    ensures PeruTime.LimaDay(SourceSaleReading(d)) != d
  {
    PeruTime.StampTextDay(SourceSaleReading(d));
  }

  /** The text the save stores, `new Date(date).toISOString()`. */
  function SourceSaleStamp(d: PeruTime.Day): (r: string)
    ensures |r| == 24 && r[|r| - 5..] == ".000Z"
    ensures Text.BeforeFirst(r, 'T') == PeruTime.DateText(d)
  {
    PeruTime.StampTextDay(SourceSaleReading(d));
    PeruTime.StampText(SourceSaleReading(d))
  }

  /** A sale entered for 2026-03-01 is stamped 2026-03-01T00:00:00.000Z,
      which is 2026-02-28 in Lima. */
  lemma SourceSaleStampExample()
    ensures PeruTime.LimaDay(SourceSaleReading(PeruTime.Date(2026, 3, 1))) == PeruTime.Date(2026, 2, 28)
  {
    assert !PeruTime.IsLeapYear(2026);
  }

  /** The stamp the model uses: noon of the chosen day at Lima's offset,
      as the cash screen stamps a day other than today; its text and its
      instant both fall on the chosen day. */
  function SaleReading(d: PeruTime.Day): (r: PeruTime.Reading)
    ensures PeruTime.ValidReading(r) && r.date == d && r.offset == PeruTime.LimaOffset
    ensures PeruTime.LimaDay(r) == d
  {
    PeruTime.Reading(d, 12 * 3600, PeruTime.LimaOffset)
  }

  function SaleStamp(d: PeruTime.Day): (r: string)
    ensures Text.BeforeFirst(r, 'T') == PeruTime.DateText(d)
  {
    var noon := "12:00:00" + PeruTime.Offset;
    Text.BeforeFirstAppend(PeruTime.DateText(d), 'T', noon);
    PeruTime.DateText(d) + ['T'] + noon
  }

  /** The text of the stamp is the ISO text of its instant. */
  lemma SaleStampText(d: PeruTime.Day)
    ensures SaleStamp(d) == PeruTime.StampText(SaleReading(d))
  {
  }

  /** What a save needs besides the entries: the catalogue, the chosen day
      (None when the field does not hold a valid date), the clock reading
      for defaulting, and the store's answer to the k-th insert attempt. */
  datatype SaveInputs = SaveInputs(products: seq<Product>, date: Option<PeruTime.Day>, now: string,
                                   accepts: nat -> bool)

  /** An entry with takings gives a record; others are skipped. */
  predicate HasTakings(e: Entry)
  {
    Value(e.efectivo) + Value(e.yape) > 0
  }

  /** The provider after the save of one entry, the k-th. */
  function SaveStep(s: DataStore.Snapshot, e: Entry, k: nat, cx: SaveInputs): (r: DataStore.Snapshot)
    requires DataStore.ValidSnapshot(s)
    ensures DataStore.ValidSnapshot(r)
  {
    if !HasTakings(e) || cx.date.None? then s
    else DataStore.Added(s, SaleRecord(e, cx.products, SourceSaleStamp(cx.date.value)), cx.now, cx.accepts(k)).0
  }

  /** A stored sale carries the stamp as written: its text names the chosen
      day, while its instant falls on the day before in Lima. */
  lemma SaveStepStamp(s: DataStore.Snapshot, e: Entry, k: nat, cx: SaveInputs)
    requires DataStore.ValidSnapshot(s) && HasTakings(e) && cx.date.Some? && cx.accepts(k)
    ensures var r := SaveStep(s, e, k, cx);
      && |r.rows| == |s.rows| + 1
      && r.rows[0].transactionDate == Some(SourceSaleStamp(cx.date.value))
      && Text.BeforeFirst(r.rows[0].transactionDate.value, 'T') == PeruTime.DateText(cx.date.value)
      && PeruTime.LimaDay(SourceSaleReading(cx.date.value)) == PeruTime.PreviousDay(cx.date.value)
  {
    var stamp := SourceSaleStamp(cx.date.value);
    var t := SaleRecord(e, cx.products, stamp);
    DataStore.FinalizeKeepsFields(t, cx.now);
    SourceSaleStampIsPreviousDay(cx.date.value);
  }

  /** The provider after the first n entries have been saved; with
      takings that are not negative, the balances grow by exactly the
      accepted takings. */
  function SaveUpTo(s: DataStore.Snapshot, ts: seq<Entry>, n: nat, cx: SaveInputs): (r: DataStore.Snapshot)
    requires DataStore.ValidSnapshot(s) && n <= |ts|
    ensures DataStore.ValidSnapshot(r)
    ensures NonNegative(ts) ==> Balance(r.rows) == AcceptedDelta(ts, n, cx).Plus(Balance(s.rows))
  {
    if n == 0 then
      ZeroPlus(Balance(s.rows));
      s
    else
      var prev := SaveUpTo(s, ts, n - 1, cx);
      SaveStepBalance(prev, ts, n, cx);
      SaveStep(prev, ts[n - 1], n - 1, cx)
  }

  /** What the save of one entry adds to the balances. */
  function StepDelta(e: Entry, k: nat, cx: SaveInputs): Balances
  {
    if HasTakings(e) && cx.date.Some? && cx.accepts(k)
    then Balances(Value(e.efectivo), Value(e.yape)) else Zero
  }

  /** What the first n entries add to the balances: the parts of every
      entry with takings whose insert was taken. */
  function AcceptedDelta(ts: seq<Entry>, n: nat, cx: SaveInputs): Balances
    requires n <= |ts|
  {
    if n == 0 then Zero else AcceptedDelta(ts, n - 1, cx).Plus(StepDelta(ts[n - 1], n - 1, cx))
  }

  /** The save of the n-th entry adds its step to the balances the first
      n - 1 entries left. */
  lemma SaveStepBalance(prev: DataStore.Snapshot, ts: seq<Entry>, n: nat, cx: SaveInputs)
    requires DataStore.ValidSnapshot(prev) && 0 < n <= |ts|
    ensures var e := ts[n - 1];
      Value(e.efectivo) >= 0 && Value(e.yape) >= 0 ==>
        Balance(SaveStep(prev, e, n - 1, cx).rows) == StepDelta(e, n - 1, cx).Plus(Balance(prev.rows))
  {
    var e := ts[n - 1];
    if Value(e.efectivo) >= 0 && Value(e.yape) >= 0 {
      if HasTakings(e) && cx.date.Some? {
        SaleRecordDelta(e, cx.products, SourceSaleStamp(cx.date.value));
        if !cx.accepts(n - 1) {
          ZeroPlus(Balance(prev.rows));
        }
      } else {
        ZeroPlus(Balance(prev.rows));
      }
    }
  }

  /** When every insert is taken and the day is valid, the balances grow
      by the total shown on the screen. */
  lemma {:induction false} AllAcceptedAddsInputTotal(ts: seq<Entry>, n: nat, cx: SaveInputs)
    requires n <= |ts| && NonNegative(ts) && cx.date.Some?
    requires forall k :: 0 <= k < |ts| ==> cx.accepts(k)
    ensures AcceptedDelta(ts, n, cx).Total() == TotalOf(ts[..n])
  {
    if n > 0 {
      AllAcceptedAddsInputTotal(ts, n - 1, cx);
      assert ts[..n][..n - 1] == ts[..n - 1];
    }
  }

  datatype SaveOutcome = NothingEntered | Saved | SaveFailed

  class SalesScreen {
    var totals: seq<Entry>
    var isSubmitting: bool
    const store: DataStore.Store

    ghost predicate Valid()
      reads this, store
    {
      store.Valid() && DistinctKeys(totals) && NonNegative(totals)
    }

    constructor (store: DataStore.Store)
      requires store.Valid()
      ensures Valid() && this.store == store && totals == [] && !isSubmitting
    {
      this.store := store;
      totals := [];
      isSubmitting := false;
    }

    method HandleInputChange(productId: string, f: Field, value: int)
      requires Valid()
      modifies this`totals
      ensures Valid()
      ensures totals == SetField(old(totals), productId, f, value)
    {
      totals := SetField(totals, productId, f, value);
    }

    /** `calculateInputTotal`: the loop summing both parts of every entry. */
    method InputTotal() returns (sum: int)
      ensures sum == TotalOf(totals)
    {
      sum := 0;
      var i := 0;
      while i < |totals|
        invariant 0 <= i <= |totals|
        invariant sum == TotalOf(totals[..i])
      {
        assert totals[..i + 1][..i] == totals[..i];
        sum := sum + Value(totals[i].efectivo) + Value(totals[i].yape);
        i := i + 1;
      }
      assert totals[..i] == totals;
    }

    /** The first half of `handleSave`: a call while a save is in flight
        is ignored; otherwise the flag is raised and the entries of the
        moment are the ones the save sends. */
    method HandleSave() returns (started: bool, entries: seq<Entry>)
      modifies this`isSubmitting
      ensures started == !old(isSubmitting) && isSubmitting
      ensures entries == totals
    {
      started := !isSubmitting;
      isSubmitting := true;
      entries := totals;
    }

    /** The second half of `handleSave`: every entry with takings is sent
        as an income record; an invalid day makes each such entry fail
        before it is sent. With no entries at all nothing happens;
        otherwise the entries are cleared unless a record failed that way.
        Entries without takings are skipped, so a save of zeros clears the
        screen and records nothing. The flag is lowered either way. */
    method FinishSave(entries: seq<Entry>, cx: SaveInputs) returns (outcome: SaveOutcome)
      requires Valid()
      modifies this`totals, this`isSubmitting, store
      ensures Valid() && !isSubmitting
      ensures store.State() == SaveUpTo(old(store.State()), entries, |entries|, cx)
      ensures |entries| == 0 ==> outcome == NothingEntered && totals == old(totals)
      ensures |entries| > 0 ==>
                var failed := cx.date.None? && exists i :: 0 <= i < |entries| && HasTakings(entries[i]);
                (outcome == Saved <==> !failed) && (outcome == SaveFailed <==> failed)
                && totals == (if failed then old(totals) else [])
      ensures NonNegative(entries) ==>
                Balance(store.rows) == AcceptedDelta(entries, |entries|, cx).Plus(Balance(old(store.rows)))
    {
      ghost var s0 := store.State();
      var failed := false;
      var i := 0;
      while i < |entries|
        invariant 0 <= i <= |entries|
        invariant store.Valid() && totals == old(totals)
        invariant store.State() == SaveUpTo(s0, entries, i, cx)
        invariant failed <==> cx.date.None? && exists j :: 0 <= j < i && HasTakings(entries[j])
      {
        var e := entries[i];
        if HasTakings(e) {
          if cx.date.None? {
            failed := true;
          } else {
            var rec := SaleRecord(e, cx.products, SourceSaleStamp(cx.date.value));
            var _ := store.AddTransaction(rec, cx.now, cx.accepts(i));
          }
        }
        i := i + 1;
      }
      if |entries| == 0 {
        outcome := NothingEntered;
      } else if failed {
        outcome := SaveFailed;
      } else {
        totals := [];
        outcome := Saved;
      }
      isSubmitting := false;
    }
  }
}
