/** The data provider of the client: a replica of the hosted `transactions`
    table, the balance computed over it, and the two writes it offers
    (`addTransaction`, `updateConfig`). The hosted store is modelled by its
    tables as sequences; whether it accepts a write is an input. Rows come
    back newest first (`order('created_at', descending)`), so an inserted
    row goes to the front. */
module DataStore {
  import opened Wrappers
  import opened Ledger

  // ----- Identifiers -----

  /** Every row carries an id below the next one the store will hand out. */
  predicate IdsBelow(rows: seq<Transaction>, nextId: nat)
  {
    forall i :: 0 <= i < |rows| ==> rows[i].id.Some? && rows[i].id.value < nextId
  }

  /** The id is the table's key: no two rows share one. */
  predicate IdsDistinct(rows: seq<Transaction>)
  {
    forall i, j :: 0 <= i < j < |rows| ==> rows[i].id != rows[j].id
  }

  predicate HasId(rows: seq<Transaction>, id: nat)
  {
    exists i :: 0 <= i < |rows| && rows[i].id == Some(id)
  }

  // ----- addTransaction -----

  /** The record `addTransaction` sends: the given one, with
      `transaction_date` set to now when it is missing or empty and
      `status` set to ACTIVO when it is missing. */
  function Finalize(t: Transaction, now: string): Transaction
  {
    t.(transactionDate := Some(OrElse(t.transactionDate, now)),
       status := Some(t.status.GetOr(Activo)))
  }

  /** Defaulting keeps every member the caller gave, fills in exactly the
      two defaults, and never changes what the record does to the
      balances. */
  lemma FinalizeKeepsFields(t: Transaction, now: string)
    ensures var r := Finalize(t, now);
      && r.id == t.id && r.createdAt == t.createdAt && r.amount == t.amount && r.kind == t.kind
      && r.category == t.category && r.payment == t.payment && r.methodDetails == t.methodDetails
      && r.description == t.description && r.userName == t.userName
      && r.justification == t.justification
      && (t.transactionDate.Some? && t.transactionDate.value != "" ==> r.transactionDate == t.transactionDate)
      && (t.transactionDate.None? || t.transactionDate == Some("") ==> r.transactionDate == Some(now))
      && (t.status.Some? ==> r.status == t.status)
      && (t.status.None? ==> r.status == Some(Activo))
      && Delta(r) == Delta(t)
  {
  }

  /** A table and the next id its store will assign. */
  datatype Table = Table(rows: seq<Transaction>, nextId: nat)

  predicate ValidTable(tb: Table)
  {
    IdsBelow(tb.rows, tb.nextId) && IdsDistinct(tb.rows)
  }

  datatype Inserted = Inserted(table: Table, ok: bool)

  /** The store's `insert`: refused when the store does not accept the
      write or when the record brings an id already in the table (a
      duplicate key); otherwise the row is added with its own id or a
      fresh one. */
  function Insert(tb: Table, row: Transaction, accepted: bool): (r: Inserted)
    requires ValidTable(tb)
    ensures ValidTable(r.table)
    ensures r.ok <==> accepted && !(row.id.Some? && HasId(tb.rows, row.id.value))
    ensures !r.ok ==> r.table == tb
    ensures r.table.nextId >= tb.nextId
    ensures r.ok ==> exists id: nat :: !HasId(tb.rows, id)
                       && (row.id.Some? ==> id == row.id.value)
                       && r.table.rows == [row.(id := Some(id))] + tb.rows
  {
    if !accepted || (row.id.Some? && HasId(tb.rows, row.id.value)) then Inserted(tb, false)
    else
      var id: nat := if row.id.Some? then row.id.value else tb.nextId;
      var rows := [row.(id := Some(id))] + tb.rows;
      var next := if id + 1 > tb.nextId then id + 1 else tb.nextId;
      assert !HasId(tb.rows, id);
      assert IdsDistinct(rows) by {
        forall i, j | 0 <= i < j < |rows| ensures rows[i].id != rows[j].id {
          if i == 0 {
            assert rows[j] == tb.rows[j - 1];
          }
        }
      }
      Inserted(Table(rows, next), true)
  }

  /** An accepted insert adds the delta of the inserted record to the
      balances of the table; the id the store assigns plays no part. */
  lemma InsertedBalance(tb: Table, row: Transaction, accepted: bool)
    requires ValidTable(tb)
    ensures Insert(tb, row, accepted).ok ==>
              Balance(Insert(tb, row, accepted).table.rows) == Delta(row).Plus(Balance(tb.rows))
  {
    var r := Insert(tb, row, accepted);
    if r.ok {
      var id: nat :| !HasId(tb.rows, id) && (row.id.Some? ==> id == row.id.value)
                     && r.table.rows == [row.(id := Some(id))] + tb.rows;
      BalanceCons(row.(id := Some(id)), tb.rows);
      DeltaIgnoresId(row, Some(id));
    }
  }

  // ----- Voiding in the store -----

  /** `update({ status: 'ANULADO', justification }).eq('id', id)`. */
  function VoidWhere(rows: seq<Transaction>, id: nat, justification: string): (r: seq<Transaction>)
    ensures |r| == |rows|
    ensures forall i :: 0 <= i < |r| ==> r[i] == (if rows[i].id == Some(id) then Voided(rows[i], justification) else rows[i])
  {
    seq(|rows|, i requires 0 <= i < |rows| =>
      if rows[i].id == Some(id) then Voided(rows[i], justification) else rows[i])
  }

  /** Because ids are distinct, the update touches exactly the row with
      that id, every other row is untouched, and the balances become those
      of the table without that row. */
  lemma VoidWhereExactlyOne(rows: seq<Transaction>, k: nat, justification: string)
    requires IdsDistinct(rows) && k < |rows| && rows[k].id.Some?
    ensures VoidWhere(rows, rows[k].id.value, justification) == rows[k := Voided(rows[k], justification)]
    ensures Balance(VoidWhere(rows, rows[k].id.value, justification)) == Balance(rows[..k] + rows[k + 1..])
  {
    var r := VoidWhere(rows, rows[k].id.value, justification);
    assert forall i :: 0 <= i < |rows| && i != k ==> rows[i].id != rows[k].id by {
      forall i | 0 <= i < |rows| && i != k ensures rows[i].id != rows[k].id {
        if i < k { assert rows[i].id != rows[k].id; } else { assert rows[k].id != rows[i].id; }
      }
    }
    assert r == rows[k := Voided(rows[k], justification)];
    VoidExcludes(rows, k, justification);
  }

  /** Without a row of that id the update changes nothing. */
  lemma VoidWhereMissing(rows: seq<Transaction>, id: nat, justification: string)
    requires !HasId(rows, id)
    ensures VoidWhere(rows, id, justification) == rows
  {
  }

  // ----- Configuration -----

  /** A row of `app_config`, also the replica's `config`. */
  datatype AppConfig = AppConfig(id: Option<nat>, businessName: string,
                                 telegramToken: Option<string>, telegramChatId: Option<string>)

  const DefaultConfig: AppConfig := AppConfig(None, "PIZZA SYSTEM", None, None)

  /** Applying `update(payload)` to one row: only `business_name`,
      `telegram_token` and `telegram_chat_id` are written, and a member the
      payload leaves undefined is not sent, so the column keeps its value. */
  function ApplyPayload(row: AppConfig, c: AppConfig): (r: AppConfig)
    ensures r.id == row.id && r.businessName == c.businessName
    ensures r.telegramToken == (if c.telegramToken.Some? then c.telegramToken else row.telegramToken)
    ensures r.telegramChatId == (if c.telegramChatId.Some? then c.telegramChatId else row.telegramChatId)
  {
    AppConfig(row.id, c.businessName,
              if c.telegramToken.Some? then c.telegramToken else row.telegramToken,
              if c.telegramChatId.Some? then c.telegramChatId else row.telegramChatId)
  }

  function UpdateConfigWhere(rows: seq<AppConfig>, id: nat, c: AppConfig): (r: seq<AppConfig>)
    ensures |r| == |rows|
    ensures forall i :: 0 <= i < |r| ==> r[i] == (if rows[i].id == Some(id) then ApplyPayload(rows[i], c) else rows[i])
  {
    seq(|rows|, i requires 0 <= i < |rows| =>
      if rows[i].id == Some(id) then ApplyPayload(rows[i], c) else rows[i])
  }

  /** Which write `updateConfig` makes. */
  datatype ConfigWrite = UpdateRow(id: nat) | InsertRow

  /** The rule: update the given id; without one (or with the id 0, which
      the test `if (newConfig.id)` reads as false), update the first
      existing row (`select('id').limit(1).single()`); with no row at all,
      insert. */
  function ConfigTarget(c: AppConfig, rows: seq<AppConfig>): (w: ConfigWrite)
    ensures c.id.Some? && c.id.value != 0 ==> w == UpdateRow(c.id.value)
    ensures (c.id.None? || c.id == Some(0)) && |rows| > 0 && rows[0].id.Some? ==> w == UpdateRow(rows[0].id.value)
    ensures (c.id.None? || c.id == Some(0)) && |rows| == 0 ==> w == InsertRow
  {
    if c.id.Some? && c.id.value != 0 then UpdateRow(c.id.value)
    else if |rows| > 0 && rows[0].id.Some? then UpdateRow(rows[0].id.value)
    else InsertRow
  }

  predicate ConfigIdsValid(rows: seq<AppConfig>, nextId: nat)
  {
    && (forall i :: 0 <= i < |rows| ==> rows[i].id.Some? && rows[i].id.value < nextId)
    && (forall i, j :: 0 <= i < j < |rows| ==> rows[i].id != rows[j].id)
  }

  /** A row written by inserting the payload: the three members of the
      payload under the id the store assigns. */
  function NewConfigRow(c: AppConfig, id: nat): (r: AppConfig)
    ensures r.id == Some(id) && r.businessName == c.businessName
    ensures r.telegramToken == c.telegramToken && r.telegramChatId == c.telegramChatId
  {
    AppConfig(Some(id), c.businessName, c.telegramToken, c.telegramChatId)
  }

  // ----- The provider's state as a value -----

  /** The hosted tables, the next id and the client's two replicas. */
  datatype Snapshot = Snapshot(rows: seq<Transaction>, configRows: seq<AppConfig>, nextId: nat,
                               transactions: seq<Transaction>, config: AppConfig)

  predicate ValidSnapshot(s: Snapshot)
  {
    ValidTable(Table(s.rows, s.nextId)) && ConfigIdsValid(s.configRows, s.nextId)
  }

  /** `fetchData` for the tables of the core: the replica becomes the
      table; the configuration is taken when the table holds exactly one
      row (`single()`), and kept otherwise. */
  function Refreshed(s: Snapshot): Snapshot
  {
    s.(transactions := s.rows, config := if |s.configRows| == 1 then s.configRows[0] else s.config)
  }

  /** `addTransaction` on the state: false and nothing changed when the
      store refuses the insert; otherwise the defaulted record is the new
      first row, with its own id or one not yet in the table, every older
      row follows unchanged, the replicas are reloaded and the balances
      move by the record's delta. */
  function Added(s: Snapshot, t: Transaction, now: string, accepted: bool): (r: (Snapshot, bool))
    requires ValidSnapshot(s)
    ensures ValidSnapshot(r.0)
    ensures r.1 <==> accepted && !(t.id.Some? && HasId(s.rows, t.id.value))
    ensures !r.1 ==> r.0 == s
    ensures r.1 ==> && |r.0.rows| == |s.rows| + 1 && r.0.rows[1..] == s.rows
                    && r.0.rows[0].id.Some? && !HasId(s.rows, r.0.rows[0].id.value)
                    && (t.id.Some? ==> r.0.rows[0].id == t.id)
                    && r.0.rows[0] == Finalize(t, now).(id := r.0.rows[0].id)
    ensures r.1 ==> && r.0.configRows == s.configRows && r.0.nextId >= s.nextId
                    && r.0.transactions == r.0.rows
                    && r.0.config == (if |s.configRows| == 1 then s.configRows[0] else s.config)
    ensures r.1 ==> Balance(r.0.transactions) == Delta(t).Plus(Balance(s.rows))
  {
    var ins := Insert(Table(s.rows, s.nextId), Finalize(t, now), accepted);
    InsertedBalance(Table(s.rows, s.nextId), Finalize(t, now), accepted);
    FinalizeKeepsFields(t, now);
    if ins.ok then
      assert ins.table.rows[1..] == s.rows;
      (Refreshed(s.(rows := ins.table.rows, nextId := ins.table.nextId)), true)
    else (s, false)
  }

  /** The void write followed by the refresh of the history screen: the
      update reaches the table only when the store accepts it and the
      record has an id; the replicas are reloaded either way. */
  function VoidedIn(s: Snapshot, id: Option<nat>, justification: string, accepted: bool): (r: Snapshot)
    requires ValidSnapshot(s)
    ensures ValidSnapshot(r)
    ensures r.configRows == s.configRows && r.nextId == s.nextId && r.transactions == r.rows
    ensures r.config == (if |s.configRows| == 1 then s.configRows[0] else s.config)
    ensures !accepted || id.None? ==> r.rows == s.rows
    ensures accepted && id.Some? ==> r.rows == VoidWhere(s.rows, id.value, justification)
    ensures forall k :: 0 <= k < |s.rows| && accepted && id.Some? && s.rows[k].id == id ==>
              r.rows == s.rows[k := Voided(s.rows[k], justification)]
              && Balance(r.rows) == Balance(s.rows[..k] + s.rows[k + 1..])
  {
    var rows := if accepted && id.Some? then VoidWhere(s.rows, id.value, justification) else s.rows;
    forall k | 0 <= k < |s.rows| && accepted && id.Some? && s.rows[k].id == id
      ensures rows == s.rows[k := Voided(s.rows[k], justification)]
      ensures Balance(rows) == Balance(s.rows[..k] + s.rows[k + 1..])
    {
      VoidWhereExactlyOne(s.rows, k, justification);
    }
    Refreshed(s.(rows := rows))
  }

  /** `updateConfig` on the state: false and nothing changed when the
      store refuses the write; otherwise the row `ConfigTarget` picks is
      updated (or the payload inserted under the next id), the transaction
      table is untouched, and both replicas are reloaded. */
  function ConfigSaved(s: Snapshot, c: AppConfig, accepted: bool): (r: (Snapshot, bool))
    requires ValidSnapshot(s)
    ensures ValidSnapshot(r.0)
    ensures r.1 == accepted
    ensures !r.1 ==> r.0 == s
    ensures r.1 ==> r.0.rows == s.rows && r.0.transactions == s.rows
    ensures r.1 ==> match ConfigTarget(c, s.configRows)
                    case UpdateRow(id) => r.0.configRows == UpdateConfigWhere(s.configRows, id, c) && r.0.nextId == s.nextId
                    case InsertRow => r.0.configRows == s.configRows + [NewConfigRow(c, s.nextId)] && r.0.nextId == s.nextId + 1
    ensures r.1 ==> r.0.config == (if |r.0.configRows| == 1 then r.0.configRows[0] else s.config)
  {
    if !accepted then (s, false)
    else
      var saved := match ConfigTarget(c, s.configRows)
        case UpdateRow(id) => s.(configRows := UpdateConfigWhere(s.configRows, id, c))
        case InsertRow => s.(configRows := s.configRows + [NewConfigRow(c, s.nextId)], nextId := s.nextId + 1);
      (Refreshed(saved), true)
  }

  /** What the configuration form sees after a save: with at most one
      configuration row and an id that names it (or no id), the reloaded
      configuration carries the saved business name, the members the
      payload sent, and the old value of a member it left out. */
  lemma SavedConfigReloads(s: Snapshot, c: AppConfig)
    requires ValidSnapshot(s) && |s.configRows| <= 1
    requires c.id.Some? ==> |s.configRows| == 1 && s.configRows[0].id == c.id
    ensures var r := ConfigSaved(s, c, true).0;
      && (|s.configRows| == 1 ==> r.config == ApplyPayload(s.configRows[0], c))
      && (|s.configRows| == 0 ==> r.config == NewConfigRow(c, s.nextId))
  {
    var r := ConfigSaved(s, c, true).0;
    if |s.configRows| == 1 {
      var id := s.configRows[0].id.value;
      assert ConfigTarget(c, s.configRows) == UpdateRow(id);
      assert r.configRows[0] == ApplyPayload(s.configRows[0], c);
    }
  }

  /** An update whose (non-zero) id matches no row succeeds and leaves
      both tables as they were. */
  lemma SaveToMissingIdChangesNothing(s: Snapshot, c: AppConfig)
    requires ValidSnapshot(s) && c.id.Some? && c.id.value != 0
    requires forall i :: 0 <= i < |s.configRows| ==> s.configRows[i].id != c.id
    ensures ConfigSaved(s, c, true).1
    ensures ConfigSaved(s, c, true).0.configRows == s.configRows
    ensures ConfigSaved(s, c, true).0.rows == s.rows
  {
    var r := ConfigSaved(s, c, true).0;
    assert r.configRows == UpdateConfigWhere(s.configRows, c.id.value, c);
  }

  /** The replica and its hosted tables. */
  class Store {
    /** The hosted `transactions` table, newest row first. */
    var rows: seq<Transaction>
    /** The hosted `app_config` table. */
    var configRows: seq<AppConfig>
    /** The next id the store assigns. */
    var nextId: nat
    /** The client's replica (`transactions` state). */
    var transactions: seq<Transaction>
    /** The client's `config` state. */
    var config: AppConfig

    /** The provider's state as a value. */
    function State(): Snapshot
      reads this
    {
      Snapshot(rows, configRows, nextId, transactions, config)
    }

    ghost predicate Valid()
      reads this
    {
      ValidSnapshot(State())
    }

    /** The provider before its first fetch. */
    constructor ()
      ensures Valid()
      ensures rows == [] && configRows == [] && transactions == [] && config == DefaultConfig
    {
      rows, configRows, nextId := [], [], 0;
      transactions, config := [], DefaultConfig;
    }

    /** `getBalance`: the loop over the replica with the two mutable
      accumulators; it computes the fold. */
    method GetBalance() returns (b: Balances)
      ensures b == Balance(transactions)
    {
      var efectivo, yape := 0, 0;
      var i := 0;
      while i < |transactions|
        invariant 0 <= i <= |transactions|
        invariant Balances(efectivo, yape) == Balance(transactions[..i])
      {
        var t := transactions[i];
        BalanceStep(transactions, i);
        ghost var before := Balances(efectivo, yape);
        ghost var d := Delta(t);
        if t.status != Some(Anulado) {
          var amt := t.amount;
          if t.kind == Ingreso {
            if t.payment == Efectivo {
              efectivo := efectivo + amt;
            } else if t.payment == Yape {
              yape := yape + amt;
            } else if t.payment == Mixto && t.methodDetails.Some? {
              efectivo := efectivo + t.methodDetails.value.efectivo;
              yape := yape + t.methodDetails.value.yape;
            }
          } else if t.kind == Gasto {
            if t.payment == Efectivo {
              efectivo := efectivo - amt;
            } else {
              yape := yape - amt;
            }
          } else if t.kind == Transferencia {
            if t.category == Some(EfectivoAYape) {
              efectivo := efectivo - amt;
              yape := yape + amt;
            }
            if t.category == Some(YapeAEfectivo) {
              yape := yape - amt;
              efectivo := efectivo + amt;
            }
          } else {
            assert d == Zero;
          }
        } else {
          assert d == Zero;
        }
        assert Balances(efectivo, yape) == before.Plus(d);
        i := i + 1;
      }
      assert transactions[..i] == transactions;
      b := Balances(efectivo, yape);
    }

    /** `fetchData` for the tables of the core: the replica becomes the
      table (one atomic swap); the configuration is taken when the table
      holds exactly one row (`single()`), and kept otherwise. */
    method Refresh()
      modifies this`transactions, this`config
      ensures transactions == rows
      ensures config == (if |configRows| == 1 then configRows[0] else old(config))
    {
      transactions := rows;
      if |configRows| == 1 {
        config := configRows[0];
      }
    }

    /** `addTransaction`: inserts the defaulted record; on failure returns
      false and leaves the replica alone; on success refreshes the replica
      before returning true. */
    method AddTransaction(t: Transaction, now: string, accepted: bool) returns (ok: bool)
      requires Valid()
      modifies this
      ensures Valid()
      ensures (State(), ok) == Added(old(State()), t, now, accepted)
    {
      var r := Insert(Table(rows, nextId), Finalize(t, now), accepted);
      if !r.ok {
        return false;
      }
      rows, nextId := r.table.rows, r.table.nextId;
      Refresh();
      ok := true;
    }

    /** The void write of the history screen. A failed write is not
      reported to the caller. */
    method VoidById(id: Option<nat>, justification: string, accepted: bool)
      requires Valid()
      modifies this`rows
      ensures Valid()
      ensures rows == (if accepted && id.Some? then VoidWhere(old(rows), id.value, justification) else old(rows))
    {
      if accepted && id.Some? {
        rows := VoidWhere(rows, id.value, justification);
      }
    }

    /** `updateConfig`: writes the three configuration members to the row
      `ConfigTarget` picks (or inserts them as a new row), then refreshes;
      false when the store refuses the write. An update whose id matches no
      row succeeds without changing anything. */
    method UpdateConfig(c: AppConfig, accepted: bool) returns (ok: bool)
      requires Valid()
      modifies this
      ensures Valid()
      ensures (State(), ok) == ConfigSaved(old(State()), c, accepted)
    {
      if !accepted {
        return false;
      }
      match ConfigTarget(c, configRows) {
        case UpdateRow(id) =>
          configRows := UpdateConfigWhere(configRows, id, c);
        case InsertRow =>
          configRows := configRows + [NewConfigRow(c, nextId)];
          nextId := nextId + 1;
      }
      Refresh();
      ok := true;
    }
  }
}
