/** The cash screen: one form for an expense, an income or a transfer
    between the two buckets, validated against the current balances before
    the record is built and handed to the data provider. */
module Cash {
  import opened Wrappers
  import opened Ledger
  import Text
  import PeruTime
  import DataStore
  import Auth

  /** The three modes of the form. */
  type Mode = k: TxType | k == Ingreso || k == Gasto || k == Transferencia witness Gasto

  /** The method selector, which for a transfer is the origin bucket. */
  type Origin = m: Method | m != Mixto witness Efectivo

  /** Why a save is refused, that it was sent, or how it ended. */
  datatype Outcome = Busy | InvalidAmount | InsufficientEfectivo | InsufficientYape | DetailRequired
                   | Sending | Registered | RegisterFailed

  /** The categories that need a written detail. */
  predicate NeedsDetail(category: string)
  {
    category == "OTROS" || category == "VENTA_EXTRA"
  }

  /** The bucket a mode takes money from, and how much it holds. */
  function Available(b: Balances, origin: Origin): int
  {
    if origin == Efectivo then b.efectivo else b.yape
  }

  /** The validation chain, in its order: a positive amount, enough money
      in the origin bucket for an expense or a transfer, and a detail for
      the categories that need one (outside transfers). None is "valid". */
  function Check(amount: Option<int>, mode: Mode, origin: Origin, category: string, desc: string,
                 b: Balances): (r: Option<Outcome>)
    ensures r.None? <==>
              && amount.Some? && amount.value > 0
              && (mode != Ingreso ==> amount.value <= Available(b, origin))
              && !(mode != Transferencia && NeedsDetail(category) && Text.IsBlank(desc))
    ensures r.Some? ==> r.value in {InvalidAmount, InsufficientEfectivo, InsufficientYape, DetailRequired}
    ensures r == Some(InvalidAmount) <==> amount.None? || amount.value <= 0
    ensures r == Some(InsufficientEfectivo) <==>
              amount.Some? && amount.value > 0 && mode != Ingreso && origin == Efectivo && amount.value > b.efectivo
    ensures r == Some(InsufficientYape) <==>
              amount.Some? && amount.value > 0 && mode != Ingreso && origin == Yape && amount.value > b.yape
    ensures r == Some(DetailRequired) <==>
              && amount.Some? && amount.value > 0 && (mode != Ingreso ==> amount.value <= Available(b, origin))
              && mode != Transferencia && NeedsDetail(category) && Text.IsBlank(desc)
  {
    if amount.None? || amount.value <= 0 then Some(InvalidAmount)
    else if mode != Ingreso && origin == Efectivo && amount.value > b.efectivo then Some(InsufficientEfectivo)
    else if mode != Ingreso && origin == Yape && amount.value > b.yape then Some(InsufficientYape)
    else if mode != Transferencia && NeedsDetail(category) && Text.Trim(desc) == "" then Some(DetailRequired)
    else None
  }

  /** The transaction date: now when the chosen day is today, else noon of
      the chosen day at the fixed offset. The clock is read twice, once
      (`today`) for the comparison and once (`clock`) for the stamp. */
  function RecordDate(date: string, today: seq<PeruTime.Part>, clock: seq<PeruTime.Part>): string
  {
    if date == PeruTime.PeruDateString(today) then PeruTime.PeruDate(clock)
    else date + "T12:00:00" + PeruTime.Offset
  }

  /** The calendar day of the record: the chosen day for another day; for
      today, the day of the second reading, which is the chosen day unless
      midnight passed between the two readings. */
  lemma RecordDateIsChosenDay(date: string, today: seq<PeruTime.Part>, clock: seq<PeruTime.Part>)
    requires 'T' !in date
    ensures date != PeruTime.PeruDateString(today) ==> Text.BeforeFirst(RecordDate(date, today, clock), 'T') == date
    ensures date == PeruTime.PeruDateString(today) ==>
              Text.BeforeFirst(RecordDate(date, today, clock), 'T') == PeruTime.PeruDateString(clock)
    ensures PeruTime.PeruDateString(today) == PeruTime.PeruDateString(clock) ==>
              Text.BeforeFirst(RecordDate(date, today, clock), 'T') == date
  {
    var noon := "12:00:00" + PeruTime.Offset;
    if date != PeruTime.PeruDateString(today) {
      assert RecordDate(date, today, clock) == date + ['T'] + noon;
      Text.BeforeFirstAppend(date, 'T', noon);
    } else {
      assert RecordDate(date, today, clock) == PeruTime.PeruDate(clock);
    }
  }

  /** The category the record carries: for a transfer the direction
      marker that the balance fold reads, else the selected category. */
  function RecordCategory(mode: Mode, origin: Origin, category: string): (r: string)
    ensures mode == Transferencia && origin == Efectivo ==> r == EfectivoAYape
    ensures mode == Transferencia && origin == Yape ==> r == YapeAEfectivo
    ensures mode != Transferencia ==> r == category
  {
    if mode == Transferencia then (if origin == Efectivo then EfectivoAYape else YapeAEfectivo)
    else category
  }

  /** The description: what was typed, else a stock text naming the
      direction of a transfer, else the category. */
  function RecordDescription(mode: Mode, origin: Origin, category: string, desc: string): (r: string)
    ensures desc != "" ==> r == desc
    ensures desc == "" && mode == Transferencia && origin == Efectivo ==> r == "Transferencia de Efectivo a Yape"
    ensures desc == "" && mode == Transferencia && origin == Yape ==> r == "Transferencia de Yape a Efectivo"
    ensures desc == "" && mode != Transferencia ==> r == category
  {
    if mode == Transferencia then
      OrElse(Some(desc), if origin == Efectivo then "Transferencia de Efectivo a Yape" else "Transferencia de Yape a Efectivo")
    else if desc == "" then category else desc
  }

  /** The name of the logged-in user, or 'Anon'. */
  function UserName(user: Option<Auth.User>): (r: string)
    ensures user.None? ==> r == "Anon"
    ensures user.Some? && user.value.name != "" ==> r == user.value.name
    ensures user.Some? && user.value.name == "" ==> r == "Anon"
  {
    if user.Some? then OrElse(Some(user.value.name), "Anon") else "Anon"
  }

  /** The record a valid save sends. */
  function Record(amount: int, mode: Mode, origin: Origin, category: string, desc: string, date: string,
                  today: seq<PeruTime.Part>, clock: seq<PeruTime.Part>, user: Option<Auth.User>): Transaction
  {
    Transaction(None, None, amount, mode, Some(RecordCategory(mode, origin, category)), origin, None,
                Some(RecordDescription(mode, origin, category, desc)), Some(UserName(user)),
                Some(RecordDate(date, today, clock)), Some(Activo), None)
  }

  /** What each kind of record does to the balances: an income adds to
      the chosen bucket, an expense takes from it, a transfer moves the
      amount from the origin bucket to the other. */
  lemma RecordDelta(amount: int, mode: Mode, origin: Origin, category: string, desc: string, date: string,
                    today: seq<PeruTime.Part>, clock: seq<PeruTime.Part>, user: Option<Auth.User>)
    ensures var d := Delta(Record(amount, mode, origin, category, desc, date, today, clock, user));
      && (mode == Ingreso && origin == Efectivo ==> d == Balances(amount, 0))
      && (mode == Ingreso && origin == Yape ==> d == Balances(0, amount))
      && (mode == Gasto && origin == Efectivo ==> d == Balances(-amount, 0))
      && (mode == Gasto && origin == Yape ==> d == Balances(0, -amount))
      && (mode == Transferencia && origin == Efectivo ==> d == Balances(-amount, amount))
      && (mode == Transferencia && origin == Yape ==> d == Balances(amount, -amount))
  {
    var t := Record(amount, mode, origin, category, desc, date, today, clock, user);
    FormDelta(t, mode, origin);
  }

  /** The delta of an active record of the form, by its kind, method and
      category alone. */
  lemma FormDelta(t: Transaction, mode: Mode, origin: Origin)
    requires !IsVoided(t) && t.kind == mode && t.payment == origin
    requires mode == Transferencia ==> t.category == Some(if origin == Efectivo then EfectivoAYape else YapeAEfectivo)
    ensures mode == Ingreso && origin == Efectivo ==> Delta(t) == Balances(t.amount, 0)
    ensures mode == Ingreso && origin == Yape ==> Delta(t) == Balances(0, t.amount)
    ensures mode == Gasto && origin == Efectivo ==> Delta(t) == Balances(-t.amount, 0)
    ensures mode == Gasto && origin == Yape ==> Delta(t) == Balances(0, -t.amount)
    ensures mode == Transferencia && origin == Efectivo ==> Delta(t) == Balances(-t.amount, t.amount)
    ensures mode == Transferencia && origin == Yape ==> Delta(t) == Balances(t.amount, -t.amount)
  {
    assert EfectivoAYape != YapeAEfectivo;
  }

  /** The promise of the balance check: after a valid expense or transfer
      the origin bucket is not below zero, and a transfer keeps the total. */
  lemma NoOverdraft(amount: Option<int>, mode: Mode, origin: Origin, category: string, desc: string,
                    date: string, today: seq<PeruTime.Part>, clock: seq<PeruTime.Part>,
                    user: Option<Auth.User>, b: Balances)
    requires Check(amount, mode, origin, category, desc, b).None?
    requires mode != Ingreso
    ensures var after := Delta(Record(amount.value, mode, origin, category, desc, date, today, clock, user)).Plus(b);
      && Available(after, origin) >= 0
      && (mode == Transferencia ==> after.Total() == b.Total())
  {
    RecordDelta(amount.value, mode, origin, category, desc, date, today, clock, user);
  }

  /** The form state of the screen over the data provider. */
  class CashScreen {
    var mode: Mode
    var category: string
    var origin: Origin
    /** The amount field, as the number it reads as (None: not a number;
        the cleared field reads as 0). */
    var amount: Option<int>
    var desc: string
    var date: string
    var isSubmitting: bool
    const store: DataStore.Store

    constructor (store: DataStore.Store, today: string)
      ensures this.store == store && mode == Gasto && category == "INSUMOS" && origin == Efectivo
      ensures amount == Some(0) && desc == "" && date == today && !isSubmitting
    {
      this.store := store;
      mode, category, origin := Gasto, "INSUMOS", Efectivo;
      amount, desc, date, isSubmitting := Some(0), "", today, false;
    }

    /** The first half of `handleSave`: a call while a save is in flight
        is refused; otherwise the form is checked against the balances of
        the replica and, when it passes, the flag is raised and the record
        to send is built. `today` and `clock` are the two clock readings. */
    method HandleSave(today: seq<PeruTime.Part>, clock: seq<PeruTime.Part>, user: Option<Auth.User>)
      returns (outcome: Outcome, rec: Option<Transaction>)
      modifies this`isSubmitting
      ensures old(isSubmitting) ==> outcome == Busy && rec.None? && isSubmitting
      ensures var c := Check(amount, mode, origin, category, desc, Balance(store.transactions));
        && (!old(isSubmitting) && c.Some? ==> outcome == c.value && rec.None? && !isSubmitting)
        && (!old(isSubmitting) && c.None? ==>
              && outcome == Sending && isSubmitting
              && rec == Some(Record(amount.value, mode, origin, category, desc, date, today, clock, user)))
      ensures outcome == Sending && mode != Ingreso ==>
                rec.Some? && Available(Delta(rec.value).Plus(Balance(store.transactions)), origin) >= 0
    {
      if isSubmitting {
        return Busy, None;
      }
      var balances := store.GetBalance();
      var rejection := Check(amount, mode, origin, category, desc, balances);
      if rejection.Some? {
        return rejection.value, None;
      }
      if mode != Ingreso {
        NoOverdraft(amount, mode, origin, category, desc, date, today, clock, user, balances);
      }
      isSubmitting := true;
      outcome := Sending;
      rec := Some(Record(amount.value, mode, origin, category, desc, date, today, clock, user));
    }

    /** The second half of `handleSave`: the record is handed to the
        provider; the amount and the detail are cleared when the store
        took it, and the flag is lowered either way (its `finally`).
        `clock` is the provider's own reading for a missing date. */
    method FinishSave(rec: Transaction, clock: seq<PeruTime.Part>, accepted: bool) returns (outcome: Outcome)
      requires store.Valid()
      modifies this`amount, this`desc, this`isSubmitting, store
      ensures store.Valid()
      ensures outcome in {Registered, RegisterFailed} && !isSubmitting
      ensures (store.State(), outcome == Registered) == DataStore.Added(old(store.State()), rec, PeruTime.PeruDate(clock), accepted)
      ensures outcome == Registered ==> amount == Some(0) && desc == ""
      ensures outcome == RegisterFailed ==> amount == old(amount) && desc == old(desc)
    {
      var ok := store.AddTransaction(rec, PeruTime.PeruDate(clock), accepted);
      if ok {
        amount, desc := Some(0), "";
        outcome := Registered;
      } else {
        outcome := RegisterFailed;
      }
      isSubmitting := false;
    }
  }
}
