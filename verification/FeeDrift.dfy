/** What Gripe keeps of a fee once a payment has been refunded in slices. */
module FeeDrift {
  import opened Domain
  import opened Ledger
  import opened Balances
  import opened Relational
  import opened Money
  import opened Sums

  function RefundsOf(c: Core, id: PaymentId): set<RefundId> {
    set rid | rid in c.refunds && c.refunds[rid].payment == id
  }

  ghost function AmountIn(c: Core): RefundId -> int {
    (rid: RefundId) => if rid in c.refunds then c.refunds[rid].amount else 0
  }

  ghost function FeeIn(c: Core): RefundId -> int {
    (rid: RefundId) => if rid in c.refunds then GripeFee(c.refunds[rid].amount) else 0
  }

  function SettledRefundsOf(c: Core, id: PaymentId): set<RefundId> {
    set rid | rid in RefundsOf(c, id) && c.refunds[rid].status == RefundSettled
  }

  /** What history leaves Gripe on a payment: its fee if it was ever settled, less the
      fees of its settled refunds. */
  ghost function NetFee(c: Core, booked: set<PaymentId>, id: PaymentId): int
    requires id in c.payments
  {
    (if id in booked then GripeFee(c.payments[id].amount) else 0) - Sum(SettledRefundsOf(c, id), FeeIn(c))
  }

  lemma {:induction false} RefundFeesNearShare(c: Core, s: set<RefundId>)
    requires s <= c.refunds.Keys
    ensures 2 * Abs(Sum(s, AmountIn(c)) * 300 - Sum(s, FeeIn(c)) * 10_000) <= |s| * 10_000
  {
    hide Sum, GripeFee;
    if s == {} {
      SumZero(s, AmountIn(c));
      SumZero(s, FeeIn(c));
    } else {
      var rid :| rid in s;
      SumRemove(s, rid, AmountIn(c));
      SumRemove(s, rid, FeeIn(c));
      FeeWithinHalf(c.refunds[rid].amount);
      RefundFeesNearShare(c, s - {rid});
    }
  }

  lemma RefundedIsSum(c: Core, id: PaymentId)
    requires Accounted(c) && id in c.payments
    ensures c.payments[id].refunded == Sum(RefundsOf(c, id), AmountIn(c))
  {
    hide Sum;
    assert RowAccounted(c, id);
    SumCongruent(RefundsOf(c, id), AmountIn(c), AmountOn(c.refunds, id));
    SumExtraZeros(RefundsOf(c, id), c.refunds.Keys, AmountOn(c.refunds, id));
  }

  predicate RefundsSettled(c: Core, id: PaymentId) {
    forall rid :: rid in RefundsOf(c, id) ==> c.refunds[rid].status == RefundSettled
  }

  /** In every reachable state, a payment refunded in full in n slices, all of them
      settled: if it was ever settled, it leaves Gripe at most (n + 1) / 2 minor units, or
      costs it as much; if it never was, it costs what the refunds hand back, which is
      its fee within that bound. */
  lemma FullyRefundedFeeDrift(calls: seq<Call>, id: PaymentId)
    requires FreshRun(EMPTY, calls) && id in Run(EMPTY, calls).payments
    requires Run(EMPTY, calls).payments[id].status == Refunded && RefundsSettled(Run(EMPTY, calls), id)
    ensures var c, booked := Run(EMPTY, calls), BookedRun(EMPTY, {}, calls);
            var kept := NetFee(c, booked, id);
            2 * Abs(if id in booked then kept else kept + GripeFee(c.payments[id].amount)) <= |RefundsOf(c, id)| + 1
  {
    hide Sum, RefundTotal, GripeFee, FreshRun;
    var c := Run(EMPTY, calls);
    RunKeepsAccounts(EMPTY, calls);
    assert RowAccounted(c, id);
    RefundedIsSum(c, id);
    RefundFeesNearShare(c, RefundsOf(c, id));
    FeeWithinHalf(c.payments[id].amount);
    assert SettledRefundsOf(c, id) == RefundsOf(c, id);
  }

  // ---------- a cell's fees are the net fees of its payments ----------

  ghost function NetFees(c: Core, booked: set<PaymentId>, scope: Scope): PaymentId -> int {
    (id: PaymentId) =>
      if id in c.payments && InScope(scope, c.payments[id].merchant, c.payments[id].currency)
      then NetFee(c, booked, id) else 0
  }

  function RefundsOn(c: Core, ids: set<PaymentId>): set<RefundId> {
    set rid | rid in c.refunds && c.refunds[rid].payment in ids
  }

  lemma DebitsOf(c: Core, booked: set<PaymentId>, id: PaymentId, scope: Scope)
    requires id in c.payments
    ensures NetFees(c, booked, scope)(id)
         == (if id in booked then Credit(c.payments, FeePart, scope)(id) else 0)
            - Sum(RefundsOf(c, id), Debit(c, FeePart, scope))
  {
    hide Sum, GripeFee;
    var debit := Debit(c, FeePart, scope);
    if InScope(scope, c.payments[id].merchant, c.payments[id].currency) {
      SumExtraZeros(SettledRefundsOf(c, id), RefundsOf(c, id), debit);
      forall rid | rid in SettledRefundsOf(c, id)
        ensures debit(rid) == FeeIn(c)(rid)
      {
        assert Share(FeePart, c.refunds[rid].amount) == GripeFee(c.refunds[rid].amount);
      }
      SumCongruent(SettledRefundsOf(c, id), debit, FeeIn(c));
    } else {
      SumZero(RefundsOf(c, id), debit);
    }
  }

  lemma {:induction false} FeesByPayment(c: Core, booked: set<PaymentId>, ids: set<PaymentId>, scope: Scope)
    requires ids <= c.payments.Keys
    ensures Sum(ids, NetFees(c, booked, scope))
         == Sum(booked * ids, Credit(c.payments, FeePart, scope)) - Sum(RefundsOn(c, ids), Debit(c, FeePart, scope))
  {
    hide Sum, Credit, Debit, NetFees;
    if ids == {} {
      assert booked * ids == {} && RefundsOn(c, ids) == {};
      SumZero(ids, NetFees(c, booked, scope));
      SumZero(booked * ids, Credit(c.payments, FeePart, scope));
      SumZero(RefundsOn(c, ids), Debit(c, FeePart, scope));
    } else {
      var id :| id in ids;
      var rest := ids - {id};
      FeesByPayment(c, booked, rest, scope);
      DebitsOf(c, booked, id, scope);
      SumRemove(ids, id, NetFees(c, booked, scope));
      assert RefundsOn(c, ids) == RefundsOn(c, rest) + RefundsOf(c, id);
      SumUnion(RefundsOn(c, rest), RefundsOf(c, id), Debit(c, FeePart, scope));
      if id in booked {
        assert booked * ids == booked * rest + {id};
        SumInsert(booked * rest, id, Credit(c.payments, FeePart, scope));
      } else {
        assert booked * ids == booked * rest;
      }
    }
  }

  /** After any run the fees of a cell are the net fees of its payments, added up. */
  lemma CellFeesAreNetFees(calls: seq<Call>, merchant: string, currency: Currency)
    requires FreshRun(EMPTY, calls)
    ensures var c, booked, cells := Run(EMPTY, calls), BookedRun(EMPTY, {}, calls), RunTables(NO_ROWS, calls).cells;
            (if (merchant, currency) in cells then cells[(merchant, currency)].fees else 0)
              == Sum(c.payments.Keys, NetFees(c, booked, OneCell(merchant, currency)))
  {
    hide Sum, NetFees, Credit, Debit, Run, BookedRun, RunTables, FreshRun;
    hide BookedFits, Accounted, Conserved, ReferencesHold;
    var c, booked := Run(EMPTY, calls), BookedRun(EMPTY, {}, calls);
    EmptyIsSound();
    RunKeepsSound(NO_ROWS, {}, calls);
    AllThere(c, booked);
    FeesByPayment(c, booked, c.payments.Keys, OneCell(merchant, currency));
    LedgerConservation(calls, merchant, currency);
  }

  lemma AllThere(c: Core, booked: set<PaymentId>)
    requires Accounted(c) && BookedFits(c, booked)
    ensures booked * c.payments.Keys == booked && RefundsOn(c, c.payments.Keys) == c.refunds.Keys
  {
    forall rid | rid in c.refunds
      ensures rid in RefundsOn(c, c.payments.Keys)
    {
      ParentExists(c, rid);
    }
  }

  /** Balances and fees may go negative: a captured payment may be refunded, and the
      refund settled, without the payment ever having been settled. */
  lemma UnsettledRefundGoesNegative(input: PaymentInput, id: PaymentId, rid: RefundId, now: Instant)
    requires ValidInput(input) && InitialStatus(input.via, input.amount) == Captured
    ensures var calls := [Create(input, id, now), GiveBack(id, input.amount, rid, now), SettleRefund(rid, now)];
            var cells := RunTables(NO_ROWS, calls).cells;
            && FreshRun(EMPTY, calls)
            && (input.merchant, input.currency) in cells
            && cells[(input.merchant, input.currency)] == Balance(-Net(input.amount), -(GripeFee(input.amount) as int))
            && cells[(input.merchant, input.currency)].balance < 0
  {
    hide GripeFee;
    FeeShape(input.amount, input.amount);
    var calls := [Create(input, id, now), GiveBack(id, input.amount, rid, now), SettleRefund(rid, now)];
    assert calls[1..] == [GiveBack(id, input.amount, rid, now), SettleRefund(rid, now)];
    assert calls[1..][1..] == [SettleRefund(rid, now)] && calls[1..][1..][1..] == [];
    var t1 := Apply(NO_ROWS, calls[0]).0;
    var t2 := Apply(t1, calls[1]).0;
    var t3 := Apply(t2, calls[2]).0;
    assert RunTables(t2, calls[1..][1..]) == t3;
    assert RunTables(t1, calls[1..]) == t3;
    assert FreshRun(t2.core, calls[1..][1..]) && FreshRun(t1.core, calls[1..]);
  }
}
