/** The payment and refund state machine both stores implement, on normalised
    entities: one row per payment, one row per refund, no balances. */
module Ledger {
  import opened Domain
  import opened Sums

  datatype PaymentRow = PaymentRow(
    merchant: string, customer: string, amount: nat, currency: Currency, via: PaymentMethod,
    status: Status, refunded: nat, networkFee: Option<int>, createdAt: Instant, updatedAt: Instant)

  datatype RefundRow = RefundRow(payment: PaymentId, amount: nat, status: RefundStatus, createdAt: Instant)

  datatype Core = Core(payments: map<PaymentId, PaymentRow>, refunds: map<RefundId, RefundRow>)

  const EMPTY := Core(map[], map[])

  /** A store call on payments, with the id and the clock reading it draws. */
  datatype Call =
    | Create(input: PaymentInput, newPayment: PaymentId, now: Instant)
    | Capture(payment: PaymentId, now: Instant)
    | Settle(payment: PaymentId, now: Instant)
    | GiveBack(payment: PaymentId, amount: int, newRefund: RefundId, now: Instant)
    | SettleRefund(refund: RefundId, now: Instant)
    | NetworkFee(payment: PaymentId, fee: int, now: Instant)
    | Get(payment: PaymentId, actor: Actor)

  datatype Reply = PaymentReply(payment: Result<Payment>) | RefundReply(refund: Result<Refund>)

  /** The ids a call draws are new. */
  predicate Fresh(c: Core, call: Call) {
    match call
    case Create(_, id, _) => id !in c.payments
    case GiveBack(_, _, id, _) => id !in c.refunds
    case _ => true
  }

  // ---------- rows as the callers see them ----------

  function AsPayment(id: PaymentId, row: PaymentRow): Payment {
    Payment(id, row.merchant, row.customer, row.amount, row.currency, row.via, row.status, row.refunded,
            if row.networkFee.Some? then row.networkFee.value else 0, row.createdAt, row.updatedAt)
  }

  function AsRefund(id: RefundId, r: RefundRow, parent: PaymentRow): Refund {
    Refund(id, r.payment, parent.merchant, r.amount, parent.currency, r.status, r.createdAt)
  }

  function NewRow(input: PaymentInput, now: Instant): PaymentRow
    requires ValidInput(input)
  {
    PaymentRow(input.merchant, input.customer, input.amount, input.currency, input.via,
               InitialStatus(input.via, input.amount), 0, None, now, now)
  }

  predicate Settleable(s: Status) {
    s == Captured || s == Pending
  }

  predicate Refundable(s: Status) {
    s == Captured || s == Settled
  }

  // ---------- one call ----------

  function CreateStep(c: Core, input: PaymentInput, id: PaymentId, now: Instant): (Core, Result<Payment>) {
    if !ValidInput(input) then (c, Err(InvalidState))
    else (c.(payments := c.payments[id := NewRow(input, now)]), Ok(AsPayment(id, NewRow(input, now))))
  }

  function CaptureStep(c: Core, id: PaymentId, now: Instant): (Core, Result<Payment>) {
    if id !in c.payments then (c, Err(NotFound))
    else if c.payments[id].status != Authorized then (c, Err(InvalidState))
    else
      var row := c.payments[id].(status := Captured, updatedAt := now);
      (c.(payments := c.payments[id := row]), Ok(AsPayment(id, row)))
  }

  function SettleStep(c: Core, id: PaymentId, now: Instant): (Core, Result<Payment>) {
    if id !in c.payments then (c, Err(NotFound))
    else if !Settleable(c.payments[id].status) then (c, Err(InvalidState))
    else
      var row := c.payments[id].(status := Settled, updatedAt := now);
      (c.(payments := c.payments[id := row]), Ok(AsPayment(id, row)))
  }

  function GiveBackStep(c: Core, id: PaymentId, amount: int, rid: RefundId, now: Instant): (Core, Result<Refund>) {
    if amount <= 0 then (c, Err(InvalidState))
    else if id !in c.payments then (c, Err(NotFound))
    else
      var row := c.payments[id];
      if !Refundable(row.status) then (c, Err(InvalidState))
      else if row.refunded + amount > row.amount then (c, Err(OverRefund))
      else
        var r := RefundRow(id, amount, Created, now);
        var row' := row.(
          refunded := row.refunded + amount,
          status := if row.refunded + amount == row.amount then Refunded else row.status,
          updatedAt := now);
        (Core(c.payments[id := row'], c.refunds[rid := r]), Ok(AsRefund(rid, r, row')))
  }

  /** References from refunds to payments are kept by the schema, see Accounted. */
  function SettleRefundStep(c: Core, rid: RefundId): (Core, Result<Refund>) {
    if rid !in c.refunds || c.refunds[rid].payment !in c.payments then (c, Err(NotFound))
    else if c.refunds[rid].status != Created then (c, Err(InvalidState))
    else
      var r := c.refunds[rid].(status := RefundSettled);
      (c.(refunds := c.refunds[rid := r]), Ok(AsRefund(rid, r, c.payments[r.payment])))
  }

  /** Set once: a second delivery finds the fee present and changes nothing. */
  function NetworkFeeStep(c: Core, id: PaymentId, fee: int, now: Instant): (Core, Result<Payment>) {
    if id !in c.payments then (c, Err(NotFound))
    else
      var row := c.payments[id];
      var row' := if row.networkFee.None? then row.(networkFee := Some(fee), updatedAt := now) else row;
      (c.(payments := c.payments[id := row']), Ok(AsPayment(id, row')))
  }

  function GetReply(c: Core, id: PaymentId, actor: Actor): Result<Payment> {
    if id !in c.payments then Err(NotFound)
    else if !MayRead(actor, c.payments[id].merchant, c.payments[id].customer) then Err(Forbidden)
    else Ok(AsPayment(id, c.payments[id]))
  }

  function Step(c: Core, call: Call): (Core, Reply) {
    match call
    case Create(input, id, now) => var r := CreateStep(c, input, id, now); (r.0, PaymentReply(r.1))
    case Capture(id, now) => var r := CaptureStep(c, id, now); (r.0, PaymentReply(r.1))
    case Settle(id, now) => var r := SettleStep(c, id, now); (r.0, PaymentReply(r.1))
    case GiveBack(id, amount, rid, now) => var r := GiveBackStep(c, id, amount, rid, now); (r.0, RefundReply(r.1))
    case SettleRefund(rid, _) => var r := SettleRefundStep(c, rid); (r.0, RefundReply(r.1))
    case NetworkFee(id, fee, now) => var r := NetworkFeeStep(c, id, fee, now); (r.0, PaymentReply(r.1))
    case Get(id, actor) => (c, PaymentReply(GetReply(c, id, actor)))
  }

  function Run(c: Core, calls: seq<Call>): Core
    decreases |calls|
  {
    if calls == [] then c else Run(Step(c, calls[0]).0, calls[1..])
  }

  predicate FreshRun(c: Core, calls: seq<Call>)
    decreases |calls|
  {
    calls == [] || (Fresh(c, calls[0]) && FreshRun(Step(c, calls[0]).0, calls[1..]))
  }

  // ---------- refund accounting ----------

  ghost function AmountOn(refunds: map<RefundId, RefundRow>, id: PaymentId): RefundId -> int {
    (rid: RefundId) => if rid in refunds && refunds[rid].payment == id then refunds[rid].amount else 0
  }

  /** Everything refunded on a payment, from the refund rows alone. */
  ghost function RefundTotal(refunds: map<RefundId, RefundRow>, id: PaymentId): int {
    Sum(refunds.Keys, AmountOn(refunds, id))
  }

  predicate BeforeCapture(s: Status) {
    s == Authorized || s == Pending || s == Declined
  }

  ghost predicate RowAccounted(c: Core, id: PaymentId)
    requires id in c.payments
  {
    var row := c.payments[id];
    && row.currency.Valid() && row.via.Valid() && !Blank(row.merchant) && !Blank(row.customer)
    && 0 <= row.refunded <= row.amount && 0 < row.amount
    && row.refunded == RefundTotal(c.refunds, id)
    && (row.status == Refunded <==> row.refunded == row.amount)
    && (BeforeCapture(row.status) ==> row.refunded == 0)
  }

  predicate RefundKept(c: Core, rid: RefundId)
    requires rid in c.refunds
  {
    var r := c.refunds[rid];
    r.payment in c.payments && 0 < r.amount && !BeforeCapture(c.payments[r.payment].status)
  }

  /** The schema's CHECK and REFERENCES clauses, and more: the refunded counter is
      the sum of the refund rows, a payment reads refunded exactly when all of it
      was, and a payment that was never captured has no refunds. */
  ghost predicate Accounted(c: Core) {
    && (forall id :: id in c.payments ==> RowAccounted(c, id))
    && (forall rid :: rid in c.refunds ==> RefundKept(c, rid))
  }

  lemma GiveBackTotals(refunds: map<RefundId, RefundRow>, rid: RefundId, r: RefundRow, id: PaymentId)
    requires rid !in refunds
    ensures RefundTotal(refunds[rid := r], id) == RefundTotal(refunds, id) + (if r.payment == id then r.amount else 0)
  {
    var after := refunds[rid := r];
    assert after.Keys == refunds.Keys + {rid};
    SumInsert(refunds.Keys, rid, AmountOn(after, id));
    SumCongruent(refunds.Keys, AmountOn(after, id), AmountOn(refunds, id));
  }

  lemma SettledTotals(refunds: map<RefundId, RefundRow>, rid: RefundId, s: RefundStatus, id: PaymentId)
    requires rid in refunds
    ensures RefundTotal(refunds[rid := refunds[rid].(status := s)], id) == RefundTotal(refunds, id)
  {
    var after := refunds[rid := refunds[rid].(status := s)];
    assert after.Keys == refunds.Keys;
    SumCongruent(refunds.Keys, AmountOn(after, id), AmountOn(refunds, id));
  }

  lemma NoRefundsNoTotal(c: Core, id: PaymentId)
    requires Accounted(c) && id !in c.payments
    ensures RefundTotal(c.refunds, id) == 0
  {
    SumZero(c.refunds.Keys, AmountOn(c.refunds, id));
  }

  lemma CreateKeepsAccounts(c: Core, input: PaymentInput, id: PaymentId, now: Instant)
    requires Accounted(c) && id !in c.payments
    ensures Accounted(CreateStep(c, input, id, now).0)
  {
    hide Sum, RefundTotal, Blank;
    NoRefundsNoTotal(c, id);
    var after := CreateStep(c, input, id, now).0;
    forall other | other in after.payments
      ensures RowAccounted(after, other)
    {
      assert other in c.payments ==> RowAccounted(c, other);
    }
    assert forall rid :: rid in c.refunds ==> RefundKept(c, rid);
  }

  /** A row whose money is untouched and whose status moves towards, or within, the
      states past capture. */
  predicate MoneyUntouched(p: PaymentRow, row: PaymentRow) {
    && row == p.(status := row.status, networkFee := row.networkFee, updatedAt := row.updatedAt)
    && (row.status == Refunded <==> p.status == Refunded)
    && (BeforeCapture(row.status) ==> BeforeCapture(p.status))
  }

  lemma RowCallKeepsAccounts(c: Core, id: PaymentId, after: Core)
    requires Accounted(c)
    requires after == c || (id in c.payments && id in after.payments
                            && after == c.(payments := c.payments[id := after.payments[id]])
                            && MoneyUntouched(c.payments[id], after.payments[id]))
    ensures Accounted(after)
  {
    if after != c {
      RowUpdateKeepsAccounts(c, id, after.payments[id]);
    }
  }

  lemma RowUpdateKeepsAccounts(c: Core, id: PaymentId, row: PaymentRow)
    requires Accounted(c) && id in c.payments && MoneyUntouched(c.payments[id], row)
    ensures Accounted(c.(payments := c.payments[id := row]))
  {
    hide Sum, RefundTotal, Blank, BeforeCapture;
    var after := c.(payments := c.payments[id := row]);
    forall other | other in after.payments
      ensures RowAccounted(after, other)
    {
      assert RowAccounted(c, other);
    }
    forall rid | rid in after.refunds
      ensures RefundKept(after, rid)
    {
      assert RefundKept(c, rid);
    }
  }

  lemma GiveBackKeepsAccounts(c: Core, id: PaymentId, amount: int, rid: RefundId, now: Instant)
    requires Accounted(c) && rid !in c.refunds
    ensures Accounted(GiveBackStep(c, id, amount, rid, now).0)
  {
    hide Sum, RefundTotal, Blank;
    var after := GiveBackStep(c, id, amount, rid, now).0;
    if rid in after.refunds {
      forall other | other in after.payments
        ensures RowAccounted(after, other)
      {
        assert RowAccounted(c, other);
        GiveBackTotals(c.refunds, rid, after.refunds[rid], other);
      }
      forall r | r in after.refunds
        ensures RefundKept(after, r)
      {
        assert r in c.refunds ==> RefundKept(c, r);
      }
    }
  }

  lemma SettleRefundKeepsAccounts(c: Core, rid: RefundId)
    requires Accounted(c)
    ensures Accounted(SettleRefundStep(c, rid).0)
  {
    hide Sum, RefundTotal, Blank, BeforeCapture;
    var after := SettleRefundStep(c, rid).0;
    if rid in c.refunds {
      forall id | id in after.payments
        ensures RowAccounted(after, id)
      {
        assert RowAccounted(c, id);
        SettledTotals(c.refunds, rid, RefundSettled, id);
      }
      forall r | r in after.refunds
        ensures RefundKept(after, r)
      {
        assert RefundKept(c, r);
      }
    }
  }

  /** Every call keeps the refund accounting. */
  lemma StepKeepsAccounts(c: Core, call: Call)
    requires Accounted(c) && Fresh(c, call)
    ensures Accounted(Step(c, call).0)
  {
    hide Accounted;
    match call
    case Create(input, id, now) => CreateKeepsAccounts(c, input, id, now);
    case Capture(id, now) => RowCallKeepsAccounts(c, id, CaptureStep(c, id, now).0);
    case Settle(id, now) => RowCallKeepsAccounts(c, id, SettleStep(c, id, now).0);
    case GiveBack(id, amount, rid, now) => GiveBackKeepsAccounts(c, id, amount, rid, now);
    case SettleRefund(rid, _) => SettleRefundKeepsAccounts(c, rid);
    case NetworkFee(id, fee, now) => RowCallKeepsAccounts(c, id, NetworkFeeStep(c, id, fee, now).0);
    case Get(_, _) =>
  }

  /** Refund accounting holds in every reachable state. */
  lemma {:induction false} RunKeepsAccounts(c: Core, calls: seq<Call>)
    requires Accounted(c) && FreshRun(c, calls)
    ensures Accounted(Run(c, calls))
    decreases |calls|
  {
    if calls != [] {
      StepKeepsAccounts(c, calls[0]);
      RunKeepsAccounts(Step(c, calls[0]).0, calls[1..]);
    }
  }

  predicate RowPreserved(p: PaymentRow, q: PaymentRow) {
    && q.merchant == p.merchant && q.customer == p.customer && q.amount == p.amount
    && q.currency == p.currency && q.via == p.via && q.createdAt == p.createdAt
    && (p.status == Declined ==> q.status == Declined)
    && (p.status == Refunded ==> q.status == Refunded)
    && (p.networkFee.Some? ==> q.networkFee == p.networkFee)
    && p.refunded <= q.refunded
  }

  predicate RefundPreserved(r: RefundRow, s: RefundRow) {
    && s.payment == r.payment && s.amount == r.amount && s.createdAt == r.createdAt
    && (r.status == RefundSettled ==> s.status == RefundSettled)
  }

  /** Nothing is ever deleted; a payment keeps its parties, amount, currency, method,
      creation time and network fee; declined and refunded are final. */
  predicate Preserves(before: Core, after: Core) {
    && (forall id :: id in before.payments ==>
          id in after.payments && RowPreserved(before.payments[id], after.payments[id]))
    && (forall rid :: rid in before.refunds ==>
          rid in after.refunds && RefundPreserved(before.refunds[rid], after.refunds[rid]))
  }

  lemma {:induction false} RunPreserves(c: Core, calls: seq<Call>)
    requires FreshRun(c, calls)
    ensures Preserves(c, Run(c, calls))
    decreases |calls|
  {
    if calls != [] {
      var mid := Step(c, calls[0]).0;
      StepPreserves(c, calls[0]);
      RunPreserves(mid, calls[1..]);
    }
  }

  lemma StepPreserves(c: Core, call: Call)
    requires Fresh(c, call)
    ensures Preserves(c, Step(c, call).0)
  {
  }

  // ---------- which calls are accepted, and the moves they make ----------

  predicate Accepted(r: Reply) {
    if r.PaymentReply? then r.payment.Ok? else r.refund.Ok?
  }

  /** The moves of the payment state machine. */
  predicate Moves(call: Call, s: Status, t: Status) {
    match call
    case Capture(_, _) => s == Authorized && t == Captured
    case Settle(_, _) => (s == Captured || s == Pending) && t == Settled
    case GiveBack(_, _, _, _) => (s == Captured || s == Settled) && t == Refunded
    case _ => false
  }

  /** A status changes only by its call's move; a capture or a settlement is accepted
      exactly when it has one to make; a refund exactly when it fits what is left of a
      captured or settled payment, and it moves the status exactly when it uses it up. */
  lemma StatusFollowsMoves(c: Core, call: Call, id: PaymentId)
    requires id in c.payments && Fresh(c, call)
    ensures var (after, reply) := Step(c, call);
            var s := c.payments[id].status;
            && id in after.payments
            && (after.payments[id].status != s ==>
                  (call.Capture? || call.Settle? || call.GiveBack?) && call.payment == id
                  && Moves(call, s, after.payments[id].status))
            && ((call.Capture? || call.Settle?) && call.payment == id ==>
                  (Accepted(reply) <==> exists t :: Moves(call, s, t)))
            && (call.GiveBack? && call.payment == id ==>
                  var left := c.payments[id].amount - c.payments[id].refunded;
                  && (Accepted(reply) <==> Moves(call, s, Refunded) && 0 < call.amount <= left)
                  && (Accepted(reply) && call.amount == left ==> after.payments[id].status == Refunded)
                  && (Accepted(reply) && call.amount < left ==> after.payments[id].status == s))
  {
    assert Moves(call, Authorized, Captured) <==> call.Capture?;
    assert Moves(call, Captured, Settled) <==> call.Settle?;
    assert Moves(call, Pending, Settled) <==> call.Settle?;
  }

  /** A call that is not accepted changes nothing. */
  lemma RefusedCallsChangeNothing(c: Core, call: Call)
    requires !Accepted(Step(c, call).1)
    ensures Step(c, call).0 == c
  {
  }
}
