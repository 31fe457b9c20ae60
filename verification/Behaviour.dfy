/** What callers see of single operations, in plain terms: which calls a new payment
    accepts, what a refund records, who may read what, and which error comes when. */
module Behaviour {
  import opened Domain
  import opened Ledger
  import opened History

  // ---------- a new payment ----------

  /** Right after an accepted create a capture is accepted exactly for direct debits; a
      settlement for bank transfers and for cards and wallets that were not declined; a
      refund for the latter only. A card or wallet is declined when its amount ends in 13. */
  lemma FirstMoves(c: Core, input: PaymentInput, id: PaymentId, rid: RefundId, now: Instant, later: Instant)
    requires Accepted(Step(c, Create(input, id, now)).1)
    ensures var d := Step(c, Create(input, id, now)).0;
            var taken := (input.via.Card? || input.via.ApplePay? || input.via.GooglePay?) && input.amount % 100 != 13;
            && (Accepted(Step(d, Capture(id, later)).1) <==> input.via.DirectDebit?)
            && (Accepted(Step(d, Settle(id, later)).1) <==> input.via.BankTransfer? || taken)
            && (Accepted(Step(d, GiveBack(id, 1, rid, later)).1) <==> taken)
  {
  }

  /** Accepted is every create with one of the three currencies, one of the five methods,
      a positive amount, and ids that are not all white space. */
  lemma CreateAcceptedIff(c: Core, input: PaymentInput, id: PaymentId, now: Instant)
    ensures Accepted(Step(c, Create(input, id, now)).1) <==>
              && (input.currency.EUR? || input.currency.GBP? || input.currency.USD?)
              && (input.via.Card? || input.via.DirectDebit? || input.via.BankTransfer? || input.via.ApplePay?
                  || input.via.GooglePay?)
              && input.amount > 0
              && (exists i :: 0 <= i < |input.merchant| && input.merchant[i] !in SPACES)
              && (exists i :: 0 <= i < |input.customer| && input.customer[i] !in SPACES)
  {
    NotBlank(input.merchant);
    NotBlank(input.customer);
  }

  /** The white space of the source's language, code point by code point. */
  const SPACES: string :=
    "\t\n\U{000B}\U{000C}\r \U{0085}\U{00A0}\U{1680}\U{2000}\U{2001}\U{2002}\U{2003}\U{2004}\U{2005}\U{2006}"
    + "\U{2007}\U{2008}\U{2009}\U{200A}\U{2028}\U{2029}\U{202F}\U{205F}\U{3000}"

  lemma NotBlank(s: string)
    ensures !Blank(s) <==> exists i :: 0 <= i < |s| && s[i] !in SPACES
  {
    hide IsSpace;
    forall i | 0 <= i < |s|
      ensures IsSpace(s[i]) <==> s[i] in SPACES
    {
      SpacesListed(s[i]);
    }
  }

  lemma SpacesListed(c: char)
    ensures IsSpace(c) <==> c in SPACES
  {
    assert |SPACES| == 25;
    if IsSpace(c) {
      var n := c as int;
      var k := if n <= 13 then n - 9 else if n == 32 then 5 else if n == 0x85 then 6 else if n == 0xA0 then 7
               else if n == 0x1680 then 8 else if n <= 0x200A then n - 0x2000 + 9 else if n == 0x2028 then 20
               else if n == 0x2029 then 21 else if n == 0x202F then 22 else if n == 0x205F then 23 else 24;
      assert SPACES[k] == c;
    }
  }

  /** Over any run a payment reads declined exactly when it was created on a card or a
      wallet with an amount ending in 13. */
  lemma DeclinedIff(calls: seq<Call>, i: nat)
    requires FreshRun(EMPTY, calls)
    requires i < |AcceptedCalls([], calls)| && AcceptedCalls([], calls)[i].Create?
    ensures var create, c := AcceptedCalls([], calls)[i], Run(EMPTY, calls);
            && create.newPayment in c.payments
            && (c.payments[create.newPayment].status == Declined <==>
                  && (create.input.via.Card? || create.input.via.ApplePay? || create.input.via.GooglePay?)
                  && create.input.amount % 100 == 13)
  {
    hide AcceptedCalls, Run, Told, TaleOf;
    RunIsItsHistory(calls);
    RunIsOrderly(calls);
    var log := AcceptedCalls([], calls);
    OrderlyPayment(log, i);
    PaymentIsTold(Run(EMPTY, calls), log, log[i].newPayment);
  }

  lemma PaymentIsTold(c: Core, log: seq<Call>, id: PaymentId)
    requires Told(c, log)
    ensures if id in c.payments then RowTold(c.payments[id], TaleOf(log, id)) else TaleOf(log, id) == Untold
  {
    assert PaymentFits(c, log, id);
  }

  // ---------- a refund ----------

  /** An accepted refund adds one row, of the amount asked for; the payment's counter grows
      by that amount and its status flips exactly when nothing is left; the answer carries
      it too, with the payment's merchant and currency; every other row stays. */
  lemma RefundIsRecorded(c: Core, id: PaymentId, amount: int, rid: RefundId, now: Instant)
    requires rid !in c.refunds && Accepted(Step(c, GiveBack(id, amount, rid, now)).1)
    ensures id in c.payments && amount > 0
    ensures var (after, reply) := Step(c, GiveBack(id, amount, rid, now));
            var p := c.payments[id];
            && after.refunds == c.refunds[rid := RefundRow(id, amount, Created, now)]
            && after.payments == c.payments[id := p.(
                 refunded := p.refunded + amount,
                 status := if p.amount - p.refunded == amount then Refunded else p.status,
                 updatedAt := now)]
            && reply == RefundReply(Ok(Refund(rid, id, p.merchant, amount, p.currency, Created, now)))
  {
  }

  // ---------- reading ----------

  /** Some accepted create made the payment; and for whom. */
  ghost predicate Made(log: seq<Call>, id: PaymentId) {
    exists i :: 0 <= i < |log| && log[i].Create? && log[i].newPayment == id
  }

  ghost predicate MadeByMerchant(log: seq<Call>, id: PaymentId, merchant: string) {
    exists i :: 0 <= i < |log| && log[i].Create? && log[i].newPayment == id && log[i].input.merchant == merchant
  }

  ghost predicate MadeForCustomer(log: seq<Call>, id: PaymentId, customer: string) {
    exists i :: 0 <= i < |log| && log[i].Create? && log[i].newPayment == id && log[i].input.customer == customer
  }

  lemma MadeIsTold(log: seq<Call>, id: PaymentId)
    requires Orderly(log)
    ensures Made(log, id) <==> TaleOf(log, id).Tale?
    ensures TaleOf(log, id).Tale? ==>
              && (forall m :: MadeByMerchant(log, id, m) <==> m == TaleOf(log, id).merchant)
              && (forall m :: MadeForCustomer(log, id, m) <==> m == TaleOf(log, id).customer)
  {
    hide TaleOf, Orderly;
    if TaleOf(log, id).Tale? {
      var i := ToldWasCreated(log, id);
    }
    forall i | 0 <= i < |log| && log[i].Create? && log[i].newPayment == id
      ensures TaleOf(log, id).Tale?
      ensures TaleOf(log, id).merchant == log[i].input.merchant && TaleOf(log, id).customer == log[i].input.customer
    {
      OrderlyPayment(log, i);
    }
  }

  /** Over any run: an admin reads every payment that was ever created, a merchant and a
      customer exactly those created with their own id, any other role none. What exists
      and may not be read is forbidden, what does not exist is not found. */
  lemma WhoMayRead(calls: seq<Call>, id: PaymentId, actor: Actor)
    requires FreshRun(EMPTY, calls)
    ensures var log, reply := AcceptedCalls([], calls), Step(Run(EMPTY, calls), Get(id, actor)).1;
            && (Accepted(reply) <==>
                  match actor
                  case Admin => Made(log, id)
                  case Merchant(m) => MadeByMerchant(log, id, m)
                  case Customer(m) => MadeForCustomer(log, id, m)
                  case OtherRole => false)
            && (!Accepted(reply) ==> reply == PaymentReply(Err(if Made(log, id) then Forbidden else NotFound)))
            && (Accepted(reply) ==>
                  TaleOf(log, id).Tale? && reply == PaymentReply(Ok(PaymentTold(id, TaleOf(log, id)))))
  {
    hide AcceptedCalls, Run, Told, TaleOf, Made, MadeByMerchant, MadeForCustomer, Step, Orderly, PaymentTold;
    RunIsItsHistory(calls);
    RunIsOrderly(calls);
    var log := AcceptedCalls([], calls);
    MadeIsTold(log, id);
    StepAnswers(Run(EMPTY, calls), log, Get(id, actor));
    NotMade(log, id);
  }

  lemma NotMade(log: seq<Call>, id: PaymentId)
    ensures !Made(log, id) ==> forall m :: !MadeByMerchant(log, id, m) && !MadeForCustomer(log, id, m)
  {
  }

  // ---------- which error ----------

  /** The status and the money left of a payment, as far as errors depend on them. */
  lemma WhichError(c: Core, call: Call)
    ensures (call.Capture? || call.Settle? || call.NetworkFee? || call.Get?) && call.payment !in c.payments ==>
              Step(c, call).1 == PaymentReply(Err(NotFound))
    ensures call.Capture? && call.payment in c.payments && !c.payments[call.payment].status.Authorized? ==>
              Step(c, call).1 == PaymentReply(Err(InvalidState))
    ensures call.Settle? && call.payment in c.payments
            && !c.payments[call.payment].status.Captured? && !c.payments[call.payment].status.Pending? ==>
              Step(c, call).1 == PaymentReply(Err(InvalidState))
    ensures call.GiveBack? ==>
              var reply := Step(c, call).1;
              if call.amount <= 0 then reply == RefundReply(Err(InvalidState))
              else if call.payment !in c.payments then reply == RefundReply(Err(NotFound))
              else if !c.payments[call.payment].status.Captured? && !c.payments[call.payment].status.Settled?
              then reply == RefundReply(Err(InvalidState))
              else reply == RefundReply(Err(OverRefund)) <==>
                     call.amount > c.payments[call.payment].amount - c.payments[call.payment].refunded
    ensures call.SettleRefund? && call.refund !in c.refunds ==> Step(c, call).1 == RefundReply(Err(NotFound))
    ensures call.SettleRefund? && call.refund in c.refunds && c.refunds[call.refund].payment in c.payments
            && c.refunds[call.refund].status.RefundSettled? ==>
              Step(c, call).1 == RefundReply(Err(InvalidState))
  {
  }
}
