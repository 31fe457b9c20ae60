/** How many calls can ever change a payment or its refunds. */
module Lifetime {
  import opened Domain
  import opened Ledger
  import opened Sums

  datatype Kind = CaptureKind | SettleKind | FeeKind | RefundKind | RefundSettleKind

  ghost function OneIfUnsettled(refunds: map<RefundId, RefundRow>, id: PaymentId): RefundId -> int {
    (rid: RefundId) => if rid in refunds && refunds[rid].payment == id && refunds[rid].status == Created then 1 else 0
  }

  ghost function Unsettled(refunds: map<RefundId, RefundRow>, id: PaymentId): int {
    Sum(refunds.Keys, OneIfUnsettled(refunds, id))
  }

  /** The number of calls of a kind a payment still has in it. */
  ghost function Left(c: Core, id: PaymentId, kind: Kind): int
    requires id in c.payments
  {
    var row := c.payments[id];
    match kind
    case CaptureKind => if row.status == Authorized then 1 else 0
    case SettleKind => if row.status == Authorized || Settleable(row.status) then 1 else 0
    case FeeKind => if row.networkFee.None? then 1 else 0
    case RefundKind => row.amount - row.refunded
    case RefundSettleKind => row.amount - row.refunded + Unsettled(c.refunds, id)
  }

  /** The call is of this kind and aimed at this payment, directly or at a refund of it. */
  predicate AimedAt(c: Core, call: Call, id: PaymentId, kind: Kind) {
    match call
    case Create(_, _, _) => false
    case Capture(p, _) => p == id && kind == CaptureKind
    case Settle(p, _) => p == id && kind == SettleKind
    case GiveBack(p, _, _, _) => p == id && kind == RefundKind
    case SettleRefund(rid, _) => rid in c.refunds && c.refunds[rid].payment == id && kind == RefundSettleKind
    case NetworkFee(p, _, _) => p == id && kind == FeeKind
    case Get(_, _) => false
  }

  predicate Changes(c: Core, call: Call, id: PaymentId, kind: Kind) {
    AimedAt(c, call, id, kind) && Step(c, call).0 != c
  }

  /** Calls of a run that changed the payment or one of its refunds, by kind. */
  function CountChanges(c: Core, calls: seq<Call>, id: PaymentId, kind: Kind): nat
    decreases |calls|
  {
    if calls == [] then 0
    else (if Changes(c, calls[0], id, kind) then 1 else 0) + CountChanges(Step(c, calls[0]).0, calls[1..], id, kind)
  }

  lemma UnsettledIsNatural(refunds: map<RefundId, RefundRow>, id: PaymentId)
    ensures Unsettled(refunds, id) >= 0
  {
    SumNonNegative(refunds.Keys, OneIfUnsettled(refunds, id));
  }

  lemma UnsettledAfterGiveBack(refunds: map<RefundId, RefundRow>, rid: RefundId, r: RefundRow, id: PaymentId)
    requires rid !in refunds && r.status == Created
    ensures Unsettled(refunds[rid := r], id) == Unsettled(refunds, id) + (if r.payment == id then 1 else 0)
  {
    hide Sum;
    var after := refunds[rid := r];
    assert after.Keys == refunds.Keys + {rid};
    SumInsert(refunds.Keys, rid, OneIfUnsettled(after, id));
    SumCongruent(refunds.Keys, OneIfUnsettled(after, id), OneIfUnsettled(refunds, id));
  }

  lemma UnsettledAfterSettle(refunds: map<RefundId, RefundRow>, rid: RefundId, id: PaymentId)
    requires rid in refunds && refunds[rid].status == Created
    ensures Unsettled(refunds[rid := refunds[rid].(status := RefundSettled)], id)
         == Unsettled(refunds, id) - (if refunds[rid].payment == id then 1 else 0)
  {
    hide Sum;
    var after := refunds[rid := refunds[rid].(status := RefundSettled)];
    assert after.Keys == refunds.Keys;
    SumUpdate(refunds.Keys, rid, OneIfUnsettled(refunds, id), OneIfUnsettled(after, id));
  }

  /** Each call that changes the payment uses up one of its kind, and no call gives
      any kind back. */
  lemma StepUsesUp(c: Core, call: Call, id: PaymentId, kind: Kind)
    requires id in c.payments && Fresh(c, call)
    ensures id in Step(c, call).0.payments
    ensures Left(Step(c, call).0, id, kind) + (if Changes(c, call, id, kind) then 1 else 0) <= Left(c, id, kind)
  {
    hide Sum, Unsettled;
    var after := Step(c, call).0;
    match call
    case GiveBack(p, amount, rid, now) =>
      if rid in after.refunds {
        UnsettledAfterGiveBack(c.refunds, rid, after.refunds[rid], id);
      }
    case SettleRefund(rid, _) =>
      if after != c {
        UnsettledAfterSettle(c.refunds, rid, id);
      }
    case _ =>
  }

  /** Bounded lifetime: a run changes a payment by calls of each kind at most as often
      as the payment has them left. */
  lemma {:induction false} RunUsesUp(c: Core, calls: seq<Call>, id: PaymentId, kind: Kind)
    requires id in c.payments && Accounted(c) && FreshRun(c, calls)
    ensures CountChanges(c, calls, id, kind) <= Left(c, id, kind)
    decreases |calls|
  {
    hide Left, Accounted;
    if calls == [] {
      LeftIsNatural(c, id, kind);
    } else {
      StepUsesUp(c, calls[0], id, kind);
      StepKeepsAccounts(c, calls[0]);
      RunUsesUp(Step(c, calls[0]).0, calls[1..], id, kind);
    }
  }

  lemma LeftIsNatural(c: Core, id: PaymentId, kind: Kind)
    requires id in c.payments && Accounted(c)
    ensures Left(c, id, kind) >= 0
  {
    hide Sum;
    assert RowAccounted(c, id);
    UnsettledIsNatural(c.refunds, id);
  }

  /** From its creation on, whatever calls follow, a payment is changed by at most one
      capture, one settlement, one network fee, `amount` refunds and as many refund
      settlements: 3 + 2 * amount changes in all. */
  lemma BoundedLifetime(c: Core, input: PaymentInput, id: PaymentId, now: Instant, calls: seq<Call>)
    requires Accounted(c) && id !in c.payments && ValidInput(input)
    requires FreshRun(CreateStep(c, input, id, now).0, calls)
    ensures var born := CreateStep(c, input, id, now).0;
            && CountChanges(born, calls, id, CaptureKind) <= 1
            && CountChanges(born, calls, id, SettleKind) <= 1
            && CountChanges(born, calls, id, FeeKind) <= 1
            && CountChanges(born, calls, id, RefundKind) <= input.amount
            && CountChanges(born, calls, id, RefundSettleKind) <= input.amount
            && CountChanges(born, calls, id, CaptureKind) + CountChanges(born, calls, id, SettleKind)
               + CountChanges(born, calls, id, FeeKind) + CountChanges(born, calls, id, RefundKind)
               + CountChanges(born, calls, id, RefundSettleKind) <= 3 + 2 * input.amount
  {
    hide Sum, CountChanges, FreshRun;
    var born := CreateStep(c, input, id, now).0;
    CreateKeepsAccounts(c, input, id, now);
    forall kind
      ensures CountChanges(born, calls, id, kind) <= Left(born, id, kind)
    {
      RunUsesUp(born, calls, id, kind);
    }
    NoneUnsettled(c, id);
  }

  lemma NoneUnsettled(c: Core, id: PaymentId)
    requires Accounted(c) && id !in c.payments
    ensures Unsettled(c.refunds, id) == 0
  {
    hide RowAccounted;
    assert forall rid :: rid in c.refunds ==> RefundKept(c, rid);
    SumZero(c.refunds.Keys, OneIfUnsettled(c.refunds, id));
  }

  /** Nothing goes uncounted: a call that is no change of any kind to a payment leaves
      its row as it is, and its refunds, all of them. */
  lemma EveryChangeIsCounted(c: Core, call: Call, id: PaymentId, rid: RefundId)
    requires id in c.payments && Fresh(c, call)
    requires forall kind :: !Changes(c, call, id, kind)
    ensures var after := Step(c, call).0;
            && id in after.payments && after.payments[id] == c.payments[id]
            && (rid in after.refunds && after.refunds[rid].payment == id <==> rid in c.refunds && c.refunds[rid].payment == id)
            && (rid in c.refunds && c.refunds[rid].payment == id ==> after.refunds[rid] == c.refunds[rid])
  {
    assert !Changes(c, call, id, CaptureKind) && !Changes(c, call, id, SettleKind) && !Changes(c, call, id, FeeKind);
    assert !Changes(c, call, id, RefundKind) && !Changes(c, call, id, RefundSettleKind);
  }
}
