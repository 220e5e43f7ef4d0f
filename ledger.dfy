/** The ledger record of the point-of-sale client and the rule by which a
    list of records is folded into the two money buckets: `efectivo` (cash
    on hand) and `yape` (the mobile-wallet balance). Amounts are integers
    (cents). */
module Ledger {
  import opened Wrappers
  import Seqs

  datatype TxType = Ingreso | Gasto | Transferencia | Apertura | Cierre | Dia0
  datatype Method = Efectivo | Yape | Mixto
  datatype Status = Activo | Anulado

  /** `method_details`: the cash and wallet parts of a mixed payment. */
  datatype MethodDetails = MethodDetails(efectivo: int, yape: int)

  /** One row of the `transactions` table. Every member the client marks
      optional (`field?`) is an Option; `id` is the store's key. */
  datatype Transaction = Transaction(
    id: Option<nat>,
    createdAt: Option<string>,
    amount: int,
    kind: TxType,
    category: Option<string>,
    payment: Method,
    methodDetails: Option<MethodDetails>,
    description: Option<string>,
    userName: Option<string>,
    transactionDate: Option<string>,
    status: Option<Status>,
    justification: Option<string>)

  /** The string the client stores for each tag. */
  function TypeName(k: TxType): string
  {
    match k
    case Ingreso => "INGRESO"
    case Gasto => "GASTO"
    case Transferencia => "TRANSFERENCIA"
    case Apertura => "APERTURA"
    case Cierre => "CIERRE"
    case Dia0 => "DIA_0"
  }

  function MethodName(m: Method): string
  {
    match m
    case Efectivo => "EFECTIVO"
    case Yape => "YAPE"
    case Mixto => "MIXTO"
  }

  function StatusName(s: Status): string
  {
    match s
    case Activo => "ACTIVO"
    case Anulado => "ANULADO"
  }

  /** The two category sentinels a transfer carries. */
  const EfectivoAYape: string := "EFECTIVO_A_YAPE"
  const YapeAEfectivo: string := "YAPE_A_EFECTIVO"

  /** A record type is a shift marker: APERTURA, CIERRE or DIA_0. */
  predicate IsMarker(k: TxType)
  {
    k == Apertura || k == Cierre || k == Dia0
  }

  datatype Balances = Balances(efectivo: int, yape: int) {
    function Plus(o: Balances): Balances
    {
      Balances(efectivo + o.efectivo, yape + o.yape)
    }

    function Minus(o: Balances): Balances
    {
      Balances(efectivo - o.efectivo, yape - o.yape)
    }

    /** The money in both buckets together. */
    function Total(): int
    {
      efectivo + yape
    }
  }

  const Zero: Balances := Balances(0, 0)

  predicate IsVoided(t: Transaction)
  {
    t.status == Some(Anulado)
  }

  predicate IsActive(t: Transaction)
  {
    !IsVoided(t)
  }

  /** What one record adds to the buckets in `getBalance`: voided records
      nothing; income to the bucket of its method, a mixed one by its
      details (nothing without them); an expense out of cash when paid in
      cash and out of the wallet otherwise; a transfer from one bucket to
      the other as its category says (nothing for any other category); a
      shift marker nothing. */
  function Delta(t: Transaction): Balances
  {
    if IsVoided(t) then Zero
    else match t.kind
      case Ingreso =>
        if t.payment == Efectivo then Balances(t.amount, 0)
        else if t.payment == Yape then Balances(0, t.amount)
        else if t.methodDetails.Some? then
          Balances(t.methodDetails.value.efectivo, t.methodDetails.value.yape)
        else Zero
      case Gasto =>
        if t.payment == Efectivo then Balances(-t.amount, 0) else Balances(0, -t.amount)
      case Transferencia =>
        if t.category == Some(EfectivoAYape) then Balances(-t.amount, t.amount)
        else if t.category == Some(YapeAEfectivo) then Balances(t.amount, -t.amount)
        else Zero
      case _ => Zero
  }

  /** The sum of `f` over a list, taken from the first element to the last. */
  function SumBy(ts: seq<Transaction>, f: Transaction -> Balances): Balances
  {
    if |ts| == 0 then Zero
    else SumBy(ts[..|ts| - 1], f).Plus(f(ts[|ts| - 1]))
  }

  /** The balances of a list of records: the sum of their deltas, taken
      from the first record to the last as `getBalance`'s loop does. */
  function Balance(ts: seq<Transaction>): Balances
  {
    SumBy(ts, Delta)
  }

  /** The records that are not voided, in order (`status !== 'ANULADO'`). */
  function Active(ts: seq<Transaction>): (r: seq<Transaction>)
    ensures forall i :: 0 <= i < |r| ==> IsActive(r[i])
    ensures forall i :: 0 <= i < |ts| && IsActive(ts[i]) ==> ts[i] in r
    ensures Seqs.IsSubsequence(r, ts)
  {
    Seqs.FilterIsSubsequence(ts, IsActive);
    Seqs.Filter(ts, IsActive)
  }

  /** Every occurrence of a record that is not voided is kept, and no
      occurrence of a voided one. */
  lemma ActiveCounts(ts: seq<Transaction>)
    ensures forall t :: multiset(Active(ts))[t] == (if IsActive(t) then multiset(ts)[t] else 0)
  {
    Seqs.FilterCounts(ts, IsActive);
  }

  // ----- Properties of the fold -----

  /** A voided record adds nothing to either bucket. */
  lemma VoidedAddsNothing(t: Transaction)
    requires IsVoided(t)
    ensures Delta(t) == Zero
  {
  }

  /** A transfer moves money between the buckets: the total is unchanged,
      and cash-to-wallet takes `amount` out of cash into the wallet. */
  lemma TransferConserves(t: Transaction)
    requires t.kind == Transferencia
    ensures Delta(t).Total() == 0
    ensures IsActive(t) && t.category == Some(EfectivoAYape) ==> Delta(t) == Balances(-t.amount, t.amount)
    ensures IsActive(t) && t.category == Some(YapeAEfectivo) ==> Delta(t) == Balances(t.amount, -t.amount)
  {
  }

  /** Shift markers never change the balances. */
  lemma MarkersAddNothing(t: Transaction)
    requires IsMarker(t.kind)
    ensures Delta(t) == Zero
  {
  }

  lemma ZeroPlus(d: Balances)
    ensures Zero.Plus(d) == d && d.Plus(Zero) == d
  {
  }

  lemma PlusAssoc(a: Balances, b: Balances, c: Balances)
    ensures a.Plus(b).Plus(c) == a.Plus(b.Plus(c))
  {
  }

  /** Two steps of a fold combine into one: from `x = a + base` and
      `y = d + x` follows `y = (a + d) + base`. */
  lemma PlusChain(x: Balances, y: Balances, a: Balances, d: Balances, base: Balances)
    requires x == a.Plus(base) && y == d.Plus(x)
    ensures y == a.Plus(d).Plus(base)
  {
  }

  lemma PlusTotal(a: Balances, b: Balances)
    ensures a.Plus(b).Total() == a.Total() + b.Total()
  {
  }

  lemma SumBySingle(t: Transaction, f: Transaction -> Balances)
    ensures SumBy([t], f) == f(t)
  {
    assert [t][..0] == [];
    ZeroPlus(f(t));
  }

  lemma {:induction false} SumByAppend(a: seq<Transaction>, b: seq<Transaction>, f: Transaction -> Balances)
    ensures SumBy(a + b, f) == SumBy(a, f).Plus(SumBy(b, f))
    decreases |b|
  {
    if |b| == 0 {
      assert a + b == a;
      ZeroPlus(SumBy(a, f));
    } else {
      var b' := b[..|b| - 1];
      assert (a + b)[..|a + b| - 1] == a + b';
      assert (a + b)[|a + b| - 1] == b[|b| - 1];
      SumByAppend(a, b', f);
      PlusAssoc(SumBy(a, f), SumBy(b', f), f(b[|b| - 1]));
    }
  }

  lemma SumBySplitAt(b: seq<Transaction>, j: nat, f: Transaction -> Balances)
    requires j < |b|
    ensures SumBy(b, f) == f(b[j]).Plus(SumBy(b[..j] + b[j + 1..], f))
  {
    var x, l, r := b[j], b[..j], b[j + 1..];
    Seqs.SplitAround(b, j);
    SumByAppend(l + [x], r, f);
    SumByAppend(l, [x], f);
    SumBySingle(x, f);
    SumByAppend(l, r, f);
    var p, q, d := SumBy(l, f), SumBy(r, f), f(x);
    assert SumBy(l + [x], f) == p.Plus(d);
    assert SumBy(b, f) == p.Plus(d).Plus(q);
    assert SumBy(l + r, f) == p.Plus(q);
  }

  /** The id of a record does not affect its delta. */
  lemma DeltaIgnoresId(t: Transaction, id: Option<nat>)
    ensures Delta(t.(id := id)) == Delta(t)
  {
  }

  /** One more step of the left-to-right fold. */
  lemma BalanceStep(ts: seq<Transaction>, i: nat)
    requires i < |ts|
    ensures Balance(ts[..i + 1]) == Balance(ts[..i]).Plus(Delta(ts[i]))
  {
    assert ts[..i + 1][..i] == ts[..i];
  }

  /** The fold of one record is its delta. */
  lemma BalanceSingle(t: Transaction)
    ensures Balance([t]) == Delta(t)
  {
    SumBySingle(t, Delta);
  }

  /** Folding a concatenation adds the two folds. */
  lemma BalanceAppend(a: seq<Transaction>, b: seq<Transaction>)
    ensures Balance(a + b) == Balance(a).Plus(Balance(b))
  {
    SumByAppend(a, b, Delta);
  }

  /** Adding a record at the front (the store returns newest first) adds
      its delta. */
  lemma BalanceCons(t: Transaction, ts: seq<Transaction>)
    ensures Balance([t] + ts) == Delta(t).Plus(Balance(ts))
  {
    SumBySingle(t, Delta);
    SumByAppend([t], ts, Delta);
  }

  /** Removing the record at position j subtracts its delta. */
  lemma BalanceSplitAt(b: seq<Transaction>, j: nat)
    requires j < |b|
    ensures Balance(b) == Delta(b[j]).Plus(Balance(b[..j] + b[j + 1..]))
  {
    SumBySplitAt(b, j, Delta);
  }

  /** The fold does not depend on the order of the records: any
      rearrangement of the list has the same balances. */
  lemma {:induction false} BalancePermutation(a: seq<Transaction>, b: seq<Transaction>)
    requires multiset(a) == multiset(b)
    ensures Balance(a) == Balance(b)
    decreases |a|
  {
    if |a| == 0 {
      assert |b| == |multiset(b)| == 0;
    } else {
      var x := a[|a| - 1];
      var a' := a[..|a| - 1];
      assert a[..|a| - 1] + a[|a|..] == a';
      Seqs.MultisetRemove(a, |a| - 1);
      assert x in multiset(b);
      var j :| 0 <= j < |b| && b[j] == x;
      var b' := b[..j] + b[j + 1..];
      Seqs.MultisetRemove(b, j);
      Seqs.MultisetCancel(multiset(a'), multiset(b'), x);
      BalancePermutation(a', b');
      BalanceSplitAt(b, j);
      BalanceSplitAt(a, |a| - 1);
    }
  }

  /** Dropping the voided records does not change the balances. */
  lemma {:induction false} BalanceOfActive(ts: seq<Transaction>)
    ensures Balance(Active(ts)) == Balance(ts)
    decreases |ts|
  {
    if |ts| > 0 {
      BalanceOfActive(ts[1..]);
      BalanceCons(ts[0], ts[1..]);
      assert [ts[0]] + ts[1..] == ts;
      if IsActive(ts[0]) {
        assert Active(ts) == [ts[0]] + Active(ts[1..]);
        BalanceCons(ts[0], Active(ts[1..]));
      } else {
        assert Active(ts) == Active(ts[1..]);
        ZeroPlus(Balance(ts[1..]));
      }
    }
  }

  /** The record as voided by the history screen. */
  function Voided(t: Transaction, justification: string): (r: Transaction)
    ensures IsVoided(r)
  {
    t.(status := Some(Anulado), justification := Some(justification))
  }

  /** Voiding one record gives the same balances as if it had never been
      recorded. */
  lemma VoidExcludes(ts: seq<Transaction>, i: nat, justification: string)
    requires i < |ts|
    ensures Balance(ts[i := Voided(ts[i], justification)]) == Balance(ts[..i] + ts[i + 1..])
  {
    var v := Voided(ts[i], justification);
    var vs := ts[i := v];
    assert vs[..i] + vs[i + 1..] == ts[..i] + ts[i + 1..];
    BalanceSplitAt(vs, i);
    ZeroPlus(Balance(ts[..i] + ts[i + 1..]));
  }

  /** Only income and expense records change the money in both buckets
      together: the total equals the total over those records alone. */
  lemma {:induction false} TotalOnlyByIncomeAndExpense(ts: seq<Transaction>)
    ensures Balance(ts).Total() == Balance(Seqs.Filter(ts, IsIncomeOrExpense)).Total()
    decreases |ts|
  {
    if |ts| > 0 {
      TotalOnlyByIncomeAndExpense(ts[1..]);
      FilterStepKeepsTotal(ts);
    }
  }

  /** The first record changes the total of the list and the total of its
      income and expense records alike. */
  lemma FilterStepKeepsTotal(ts: seq<Transaction>)
    requires |ts| > 0
    ensures Balance(Seqs.Filter(ts, IsIncomeOrExpense)).Total() - Balance(Seqs.Filter(ts[1..], IsIncomeOrExpense)).Total()
              == Balance(ts).Total() - Balance(ts[1..]).Total()
  {
    TotalCons(ts);
    FilteredTotalCons(ts);
    if !IsIncomeOrExpense(ts[0]) {
      MovesKeepTotal(ts[0]);
    }
  }

  lemma TotalCons(ts: seq<Transaction>)
    requires |ts| > 0
    ensures Balance(ts).Total() == Delta(ts[0]).Total() + Balance(ts[1..]).Total()
  {
    assert [ts[0]] + ts[1..] == ts;
    BalanceCons(ts[0], ts[1..]);
    PlusTotal(Delta(ts[0]), Balance(ts[1..]));
  }

  lemma FilteredTotalCons(ts: seq<Transaction>)
    requires |ts| > 0
    ensures Balance(Seqs.Filter(ts, IsIncomeOrExpense)).Total()
              == (if IsIncomeOrExpense(ts[0]) then Delta(ts[0]).Total() else 0)
                 + Balance(Seqs.Filter(ts[1..], IsIncomeOrExpense)).Total()
  {
    var rest := Seqs.Filter(ts[1..], IsIncomeOrExpense);
    if IsIncomeOrExpense(ts[0]) {
      assert Seqs.Filter(ts, IsIncomeOrExpense) == [ts[0]] + rest;
      BalanceCons(ts[0], rest);
      PlusTotal(Delta(ts[0]), Balance(rest));
    } else {
      assert Seqs.Filter(ts, IsIncomeOrExpense) == rest;
    }
  }

  /** A record that is neither income nor expense keeps the total. */
  lemma MovesKeepTotal(t: Transaction)
    requires !IsIncomeOrExpense(t)
    ensures Delta(t).Total() == 0
  {
  }

  predicate IsIncomeOrExpense(t: Transaction)
  {
    t.kind == Ingreso || t.kind == Gasto
  }

  /** A plain record with all optional members absent but the status. */
  function Plain(amount: int, kind: TxType, category: Option<string>, payment: Method): Transaction
  {
    Transaction(None, None, amount, kind, category, payment, None, None, None, None, Some(Activo), None)
  }

  /** Income of 100 in cash, an expense of 30 in cash and a transfer of 20
      from cash to the wallet leave 50 in cash and 20 in the wallet. */
  lemma ScenarioBalances()
    ensures Balance([Plain(100, Ingreso, None, Efectivo), Plain(30, Gasto, None, Efectivo),
                     Plain(20, Transferencia, Some(EfectivoAYape), Mixto)]) == Balances(50, 20)
  {
    var t0, t1, t2 := Plain(100, Ingreso, None, Efectivo), Plain(30, Gasto, None, Efectivo),
                      Plain(20, Transferencia, Some(EfectivoAYape), Mixto);
    assert Delta(t0) == Balances(100, 0);
    assert Delta(t1) == Balances(-30, 0);
    assert Delta(t2) == Balances(-20, 20);
    assert [t0, t1, t2] == [t0] + [t1] + [t2];
    BalanceSingle(t0);
    BalanceSingle(t1);
    BalanceSingle(t2);
    BalanceAppend([t0] + [t1], [t2]);
    BalanceAppend([t0], [t1]);
  }
}
