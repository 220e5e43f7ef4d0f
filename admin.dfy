/** The administration screen's money operations: transfers between the
    two buckets, the shift markers (opening, close, day zero) and the
    configuration form, each run under the screen's single in-flight flag. */
module Admin {
  import opened Wrappers
  import opened Ledger
  import PeruTime
  import DataStore

  /** The two transfer buttons. */
  datatype Direction = EfectivoToYape | YapeToEfectivo

  /** The marker kinds of the three shift buttons. */
  type Marker = k: TxType | IsMarker(k) witness Apertura

  /** The record of a transfer: the direction marker the balance fold
      reads, the mixed method and no user name. */
  function TransferRecord(amount: int, d: Direction, now: string): (r: Transaction)
    ensures r.kind == Transferencia && r.payment == Mixto && r.status == Some(Activo) && r.amount == amount
    ensures r.category == Some(if d == EfectivoToYape then EfectivoAYape else YapeAEfectivo)
    ensures r.userName == None && r.transactionDate == Some(now)
  {
    Transaction(None, None, amount, Transferencia,
                Some(if d == EfectivoToYape then EfectivoAYape else YapeAEfectivo), Mixto, None,
                Some(if d == EfectivoToYape then "Efectivo a Yape" else "Yape a Efectivo"),
                None, Some(now), Some(Activo), None)
  }

  /** A transfer moves its amount out of the origin bucket into the other
      one and keeps the total. */
  lemma TransferRecordDelta(amount: int, d: Direction, now: string)
    ensures d == EfectivoToYape ==> Delta(TransferRecord(amount, d, now)) == Balances(-amount, amount)
    ensures d == YapeToEfectivo ==> Delta(TransferRecord(amount, d, now)) == Balances(amount, -amount)
    ensures Delta(TransferRecord(amount, d, now)).Total() == 0
  {
  }

  /** The record of a shift button: a zero amount in cash. */
  function MarkerRecord(kind: Marker, now: string): (r: Transaction)
    ensures r.kind == kind && r.amount == 0 && r.payment == Efectivo && r.status == Some(Activo)
    ensures r.description == Some("Manual: " + TypeName(kind)) && r.transactionDate == Some(now)
  {
    Transaction(None, None, 0, kind, None, Efectivo, None, Some("Manual: " + TypeName(kind)),
                None, Some(now), Some(Activo), None)
  }

  /** The bucket a direction takes from. */
  function From(b: Balances, d: Direction): int
  {
    if d == EfectivoToYape then b.efectivo else b.yape
  }

  datatype TransferOutcome = Ignored | InvalidAmount | Insufficient | Transferred(stored: bool)

  /** The guard of a transfer: a positive amount no larger than the origin
      bucket; None is "valid". */
  function TransferCheck(amount: Option<int>, d: Direction, b: Balances): (r: Option<TransferOutcome>)
    ensures r.None? <==> amount.Some? && 0 < amount.value <= From(b, d)
    ensures r.Some? ==> r.value == (if amount.None? || amount.value <= 0 then InvalidAmount else Insufficient)
  {
    if amount.None? || amount.value <= 0 then Some(InvalidAmount)
    else if amount.value > From(b, d) then Some(Insufficient)
    else None
  }

  /** After a valid transfer the origin bucket is not below zero and the
      total of the two buckets is what it was. */
  lemma TransferKeepsBalance(amount: Option<int>, d: Direction, now: string, b: Balances)
    requires TransferCheck(amount, d, b).None?
    ensures var after := Delta(TransferRecord(amount.value, d, now)).Plus(b);
      From(after, d) >= 0 && after.Total() == b.Total()
  {
    TransferRecordDelta(amount.value, d, now);
  }

  /** Storing a valid transfer keeps the total of the store's rows and,
      when the working list was current, leaves the origin bucket not
      below zero. */
  lemma TransferStored(s: DataStore.Snapshot, amount: Option<int>, d: Direction, now: string, accepted: bool)
    requires DataStore.ValidSnapshot(s)
    requires TransferCheck(amount, d, Balance(s.transactions)).None?
    ensures var r := DataStore.Added(s, TransferRecord(amount.value, d, now), now, accepted);
      && (r.1 ==> Balance(r.0.transactions).Total() == Balance(s.rows).Total())
      && (r.1 && s.transactions == s.rows ==> From(Balance(r.0.transactions), d) >= 0)
  {
    var rec := TransferRecord(amount.value, d, now);
    TransferKeepsBalance(amount, d, now, Balance(s.transactions));
    TransferRecordDelta(amount.value, d, now);
    PlusTotal(Delta(rec), Balance(s.rows));
  }

  /** The form of the configuration tab, filled from the loaded
      configuration with missing members shown as empty text. */
  datatype ConfigForm = ConfigForm(businessName: string, telegramToken: string, telegramChatId: string)

  function FormOf(c: DataStore.AppConfig): (r: ConfigForm)
    ensures r.businessName == c.businessName
    ensures r.telegramToken == OrElse(c.telegramToken, "") && r.telegramChatId == OrElse(c.telegramChatId, "")
  {
    ConfigForm(c.businessName, OrElse(c.telegramToken, ""), OrElse(c.telegramChatId, ""))
  }

  /** The configuration the form saves: every member present, under the
      given id. */
  function FormPayload(id: Option<nat>, f: ConfigForm): (c: DataStore.AppConfig)
    ensures c.id == id && c.businessName == f.businessName
    ensures c.telegramToken == Some(f.telegramToken) && c.telegramChatId == Some(f.telegramChatId)
  {
    DataStore.AppConfig(id, f.businessName, Some(f.telegramToken), Some(f.telegramChatId))
  }

  /** Saving the form and reloading gives back the form: with at most one
      configuration row, named by the loaded id (or no id), the
      configuration the form is next filled from is the one it saved. */
  lemma SaveThenLoadForm(s: DataStore.Snapshot, f: ConfigForm)
    requires DataStore.ValidSnapshot(s) && |s.configRows| <= 1
    requires s.config.id.Some? ==> |s.configRows| == 1 && s.configRows[0].id == s.config.id
    ensures FormOf(DataStore.ConfigSaved(s, FormPayload(s.config.id, f), true).0.config) == f
  {
    DataStore.SavedConfigReloads(s, FormPayload(s.config.id, f));
  }

  class AdminScreen {
    var isSubmitting: bool
    /** The transfer amount field, as the number it reads as (None: not a
        number; the cleared field reads as 0). */
    var transferAmount: Option<int>
    var form: ConfigForm
    const store: DataStore.Store

    constructor (store: DataStore.Store)
      ensures this.store == store && !isSubmitting && transferAmount == Some(0)
      ensures form == ConfigForm("", "", "")
    {
      this.store := store;
      isSubmitting := false;
      transferAmount := Some(0);
      form := ConfigForm("", "", "");
    }

    /** The first half of `runAction`: a call while another is in flight
        is ignored; otherwise the flag is raised. */
    method BeginAction() returns (started: bool)
      modifies this`isSubmitting
      ensures started == !old(isSubmitting)
      ensures isSubmitting
    {
      started := !isSubmitting;
      isSubmitting := true;
    }

    /** The second half of `runAction` (its `finally`): the flag is
        lowered whatever the action did. */
    method EndAction()
      modifies this`isSubmitting
      ensures !isSubmitting
    {
      isSubmitting := false;
    }

    /** `handleTransfer`. After the guard the record is sent and the field
        cleared, whether or not the store took it. */
    method HandleTransfer(d: Direction, parts: seq<PeruTime.Part>, accepted: bool) returns (outcome: TransferOutcome)
      requires store.Valid()
      modifies this`isSubmitting, this`transferAmount, store
      ensures store.Valid()
      ensures old(isSubmitting) ==> outcome == Ignored && isSubmitting
      ensures !old(isSubmitting) ==> !isSubmitting
      ensures var c := TransferCheck(old(transferAmount), d, Balance(old(store.transactions)));
        && (!old(isSubmitting) && c.Some? ==> outcome == c.value)
        && (outcome.Transferred? <==> !old(isSubmitting) && c.None?)
      ensures !outcome.Transferred? ==> transferAmount == old(transferAmount) && store.State() == old(store.State())
      ensures outcome.Transferred? ==>
                var now := PeruTime.PeruDate(parts);
                && transferAmount == Some(0)
                && (store.State(), outcome.stored)
                   == DataStore.Added(old(store.State()), TransferRecord(old(transferAmount).value, d, now), now, accepted)
      ensures outcome == Transferred(true) ==>
                Balance(store.transactions).Total() == Balance(old(store.rows)).Total()
      ensures outcome == Transferred(true) && old(store.transactions) == old(store.rows) ==>
                From(Balance(store.transactions), d) >= 0
    {
      var started := BeginAction();
      if !started {
        return Ignored;
      }
      var balances := store.GetBalance();
      var rejection := TransferCheck(transferAmount, d, balances);
      if rejection.Some? {
        EndAction();
        return rejection.value;
      }
      var now := PeruTime.PeruDate(parts);
      var rec := TransferRecord(transferAmount.value, d, now);
      TransferStored(store.State(), transferAmount, d, now, accepted);
      var stored := store.AddTransaction(rec, now, accepted);
      transferAmount := Some(0);
      outcome := Transferred(stored);
      EndAction();
    }

    /** `handleOp`: after the confirmation, a zero-amount marker of the
        chosen kind is sent; the balances stay as they were. */
    method HandleOp(kind: Marker, confirmed: bool, parts: seq<PeruTime.Part>, accepted: bool) returns (stored: bool)
      requires store.Valid()
      modifies this`isSubmitting, store
      ensures store.Valid()
      ensures old(isSubmitting) ==> isSubmitting && !stored
      ensures !old(isSubmitting) ==> !isSubmitting
      ensures old(isSubmitting) || !confirmed ==> store.State() == old(store.State())
      ensures !old(isSubmitting) && confirmed ==>
                var now := PeruTime.PeruDate(parts);
                (store.State(), stored) == DataStore.Added(old(store.State()), MarkerRecord(kind, now), now, accepted)
      ensures stored ==> Balance(store.transactions) == Balance(old(store.rows))
    {
      var started := BeginAction();
      if !started {
        return false;
      }
      if !confirmed {
        EndAction();
        return false;
      }
      var now := PeruTime.PeruDate(parts);
      var rec := MarkerRecord(kind, now);
      MarkersAddNothing(rec);
      ZeroPlus(Balance(store.rows));
      stored := store.AddTransaction(rec, now, accepted);
      EndAction();
    }

    /** Filling the form when the configuration is loaded. */
    method LoadForm()
      modifies this`form
      ensures form == FormOf(store.config)
    {
      form := FormOf(store.config);
    }

    /** `saveSystemConfig`: the form's three members, all present, for the
        loaded configuration's id. */
    method SaveSystemConfig(accepted: bool) returns (saved: bool)
      requires store.Valid()
      modifies this`isSubmitting, store
      ensures store.Valid()
      ensures old(isSubmitting) ==> isSubmitting && !saved && store.State() == old(store.State())
      ensures !old(isSubmitting) ==>
                && !isSubmitting
                && (store.State(), saved)
                   == DataStore.ConfigSaved(old(store.State()), FormPayload(old(store.config).id, form), accepted)
    {
      var started := BeginAction();
      if !started {
        return false;
      }
      saved := store.UpdateConfig(FormPayload(store.config.id, form), accepted);
      EndAction();
    }
  }
}
