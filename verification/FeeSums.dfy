/** A balance against the documented equation: what settling payments leaves on it, and
    the total of the payments less the rounded fee of that total. */
module FeeSums {
  import opened Domain
  import opened Ledger
  import opened Money
  import opened Sums
  import opened Balances
  import opened Relational

  ghost function ResidueCredit(payments: map<PaymentId, PaymentRow>, scope: Scope): PaymentId -> int {
    (id: PaymentId) =>
      if id in payments && InScope(scope, payments[id].merchant, payments[id].currency)
      then Residue(payments[id].amount) else 0
  }

  ghost function ResidueDebit(c: Core, scope: Scope): RefundId -> int {
    (rid: RefundId) =>
      if && rid in c.refunds && c.refunds[rid].status == RefundSettled && c.refunds[rid].payment in c.payments
         && InScope(scope, c.payments[c.refunds[rid].payment].merchant, c.payments[c.refunds[rid].payment].currency)
      then Residue(c.refunds[rid].amount) else 0
  }

  /** The residues of the amounts ever settled in a scope, less those refunded. */
  ghost function ResidueSum(c: Core, booked: set<PaymentId>, scope: Scope): int {
    Sum(booked, ResidueCredit(c.payments, scope)) - Sum(c.refunds.Keys, ResidueDebit(c, scope))
  }

  lemma {:induction false} SumCombined<T(!new)>(s: set<T>, gross: T -> int, fee: T -> int, residue: T -> int)
    requires forall x :: x in s ==> residue(x) == 3 * gross(x) - 100 * fee(x)
    ensures Sum(s, residue) == 3 * Sum(s, gross) - 100 * Sum(s, fee)
  {
    if s == {} {
      SumZero(s, gross);
      SumZero(s, fee);
      SumZero(s, residue);
    } else {
      var x :| x in s;
      SumRemove(s, x, gross);
      SumRemove(s, x, fee);
      SumRemove(s, x, residue);
      SumCombined(s - {x}, gross, fee, residue);
    }
  }

  lemma ResiduesOfLedger(c: Core, booked: set<PaymentId>, scope: Scope)
    ensures ResidueSum(c, booked, scope)
         == 3 * LedgerSum(c, booked, GrossPart, scope) - 100 * LedgerSum(c, booked, FeePart, scope)
  {
    hide Sum, GripeFee, Residue;
    forall id | id in booked && id in c.payments
      ensures Residue(c.payments[id].amount)
           == 3 * Share(GrossPart, c.payments[id].amount) - 100 * Share(FeePart, c.payments[id].amount)
    {
      ResidueIsRoundingError(c.payments[id].amount);
    }
    forall rid | rid in c.refunds
      ensures Residue(c.refunds[rid].amount)
           == 3 * Share(GrossPart, c.refunds[rid].amount) - 100 * Share(FeePart, c.refunds[rid].amount)
    {
      ResidueIsRoundingError(c.refunds[rid].amount);
    }
    SumCombined(booked, Credit(c.payments, GrossPart, scope), Credit(c.payments, FeePart, scope),
                ResidueCredit(c.payments, scope));
    SumCombined(c.refunds.Keys, Debit(c, GrossPart, scope), Debit(c, FeePart, scope), ResidueDebit(c, scope));
  }

  /** The documented equation, on whole runs: a cell's balance is the gross total X less
      the rounded fee of X if and only if the residues of the amounts booked to it cancel.
      Settled refunds count against both totals, X being what is left. */
  lemma BalanceEquationIff(calls: seq<Call>, merchant: string, currency: Currency)
    requires FreshRun(EMPTY, calls)
    requires LedgerSum(Run(EMPTY, calls), BookedRun(EMPTY, {}, calls), GrossPart, OneCell(merchant, currency)) >= 0
    ensures var c, booked, cells := Run(EMPTY, calls), BookedRun(EMPTY, {}, calls), RunTables(NO_ROWS, calls).cells;
            var cell := if (merchant, currency) in cells then cells[(merchant, currency)] else Balance(0, 0);
            var total := LedgerSum(c, booked, GrossPart, OneCell(merchant, currency));
            cell.balance == total - GripeFee(total) <==>
              ResiduesCancel(total, ResidueSum(c, booked, OneCell(merchant, currency)))
  {
    hide LedgerSum, ResidueSum, ResiduesCancel, GripeFee;
    var c, booked, scope := Run(EMPTY, calls), BookedRun(EMPTY, {}, calls), OneCell(merchant, currency);
    LedgerConservation(calls, merchant, currency);
    ResiduesOfLedger(c, booked, scope);
    FeeOfSumIff(LedgerSum(c, booked, GrossPart, scope), LedgerSum(c, booked, FeePart, scope),
                ResidueSum(c, booked, scope));
  }

  predicate NoRefundSettled(c: Core, scope: Scope) {
    forall rid :: rid in c.refunds && c.refunds[rid].status == RefundSettled && c.refunds[rid].payment in c.payments ==>
      !InScope(scope, c.payments[c.refunds[rid].payment].merchant, c.payments[c.refunds[rid].payment].currency)
  }

  lemma NothingGivenBack(c: Core, booked: set<PaymentId>, scope: Scope)
    requires NoRefundSettled(c, scope)
    ensures LedgerSum(c, booked, GrossPart, scope) == Sum(booked, Credit(c.payments, GrossPart, scope)) >= 0
    ensures ResidueSum(c, booked, scope) == Sum(booked, ResidueCredit(c.payments, scope))
  {
    hide Sum, Residue;
    SumNonNegative(booked, Credit(c.payments, GrossPart, scope));
    SumZero(c.refunds.Keys, Debit(c, GrossPart, scope));
    SumZero(c.refunds.Keys, ResidueDebit(c, scope));
  }

  /** With no refund settled, as the use cases have it: X is the sum of the amounts ever
      settled and the residues are theirs. */
  lemma SettledTotalIff(calls: seq<Call>, merchant: string, currency: Currency)
    requires FreshRun(EMPTY, calls) && NoRefundSettled(Run(EMPTY, calls), OneCell(merchant, currency))
    ensures var c, booked, cells := Run(EMPTY, calls), BookedRun(EMPTY, {}, calls), RunTables(NO_ROWS, calls).cells;
            var cell := if (merchant, currency) in cells then cells[(merchant, currency)] else Balance(0, 0);
            var total := Sum(booked, Credit(c.payments, GrossPart, OneCell(merchant, currency)));
            && total >= 0
            && (cell.balance == total - GripeFee(total) <==>
                  ResiduesCancel(total, Sum(booked, ResidueCredit(c.payments, OneCell(merchant, currency)))))
  {
    hide Sum, GripeFee, ResiduesCancel, Run, BookedRun, RunTables, FreshRun;
    NothingGivenBack(Run(EMPTY, calls), BookedRun(EMPTY, {}, calls), OneCell(merchant, currency));
    BalanceEquationIff(calls, merchant, currency);
  }

  // ---------- the equation fails ----------

  lemma {:induction false} OneMoreCall(t: Tables, calls: seq<Call>, call: Call)
    requires FreshRun(t.core, calls) && Fresh(RunTables(t, calls).core, call)
    ensures FreshRun(t.core, calls + [call])
    ensures RunTables(t, calls + [call]) == Apply(RunTables(t, calls), call).0
    decreases |calls|
  {
    hide Step, Fresh;
    if calls == [] {
      assert [] + [call] == [call] && [call][1..] == [];
    } else {
      assert (calls + [call])[0] == calls[0] && (calls + [call])[1..] == calls[1..] + [call];
      OneMoreCall(Apply(t, calls[0]).0, calls[1..], call);
    }
  }

  /** n payments of 50, each captured by card and settled. */
  lemma {:induction false} SettleFifties(n: nat, input: PaymentInput, now: Instant) returns (calls: seq<Call>)
    requires ValidInput(input) && input.via == Card && input.amount == 50
    ensures FreshRun(EMPTY, calls)
    ensures var t := RunTables(NO_ROWS, calls);
            && (forall id :: id in t.core.payments ==> id < n) && t.core.refunds == map[]
            && (n == 0 ==> t.cells == map[])
            && (n > 0 ==> t.cells == map[(input.merchant, input.currency) := Balance(48 * n, 2 * n)])
  {
    hide ValidInput;
    if n == 0 {
      calls := [];
    } else {
      var fewer := SettleFifties(n - 1, input, now);
      var t := RunTables(NO_ROWS, fewer);
      OneMoreCall(NO_ROWS, fewer, Create(input, n - 1, now));
      OneMoreCall(NO_ROWS, fewer + [Create(input, n - 1, now)], Settle(n - 1, now));
      calls := fewer + [Create(input, n - 1, now)] + [Settle(n - 1, now)];
    }
  }

  /** Settling n payments of 50 leaves 48 of each, which falls short of the documented
      balance by at least (n - 1) / 2: three of them leave 144 and not 146. */
  lemma EquationFallsShort(n: nat, input: PaymentInput, now: Instant) returns (calls: seq<Call>)
    requires ValidInput(input) && input.via == Card && input.amount == 50 && n > 0
    ensures FreshRun(EMPTY, calls)
    ensures var cells := RunTables(NO_ROWS, calls).cells;
            && (input.merchant, input.currency) in cells
            && cells[(input.merchant, input.currency)].balance == 48 * n
            && 2 * (50 * n - GripeFee(50 * n) - cells[(input.merchant, input.currency)].balance) >= n - 1
            && (n == 3 ==> 50 * n - GripeFee(50 * n) == 146)
  {
    calls := SettleFifties(n, input, now);
    FeeWithinHalf(50 * n);
  }
}
