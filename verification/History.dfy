/** What the stores must answer, told from the calls alone.

    No rows here: the state is the sequence of calls accepted so far. What was created,
    with which input, captured, settled, refunded by how much, is read off those calls,
    and with it what every next call has to be answered and what every cell must hold. */
module History {
  import opened Domain
  import opened Ledger
  import opened Money
  import opened Balances
  import opened Relational
  import opened Documents
  import opened Agreement

  // ---------- the tale of one payment and of one refund ----------

  datatype Tale =
    | Untold
    | Tale(merchant: string, customer: string, amount: nat, currency: Currency, via: PaymentMethod, born: Instant,
           captured: bool, settled: bool, given: nat, fee: Option<int>, touched: Instant)

  function Natural(x: int): nat {
    if x < 0 then 0 else x
  }

  function Tell(t: Tale, call: Call, id: PaymentId): Tale {
    if call.Create? && call.newPayment == id then
      Tale(call.input.merchant, call.input.customer, Natural(call.input.amount), call.input.currency, call.input.via,
           call.now, false, false, 0, None, call.now)
    else if t.Untold? then t
    else match call
      case Capture(p, now) => if p == id then t.(captured := true, touched := now) else t
      case Settle(p, now) => if p == id then t.(settled := true, touched := now) else t
      case GiveBack(p, amount, _, now) => if p == id then t.(given := t.given + Natural(amount), touched := now) else t
      case NetworkFee(p, fee, now) => if p == id && t.fee.None? then t.(fee := Some(fee), touched := now) else t
      case _ => t
  }

  function TaleOf(log: seq<Call>, id: PaymentId): Tale {
    if log == [] then Untold else Tell(TaleOf(log[..|log| - 1], id), log[|log| - 1], id)
  }

  datatype RefundTale = NeverAsked | Asked(payment: PaymentId, amount: nat, at: Instant, settled: bool)

  function TellRefund(r: RefundTale, call: Call, rid: RefundId): RefundTale {
    if call.GiveBack? && call.newRefund == rid then Asked(call.payment, Natural(call.amount), call.now, false)
    else if call.SettleRefund? && call.refund == rid && r.Asked? then r.(settled := true)
    else r
  }

  function RefundTaleOf(log: seq<Call>, rid: RefundId): RefundTale {
    if log == [] then NeverAsked else TellRefund(RefundTaleOf(log[..|log| - 1], rid), log[|log| - 1], rid)
  }

  /** All that was given back on a payment: the amounts asked for, added up. */
  function GivenBack(log: seq<Call>, id: PaymentId): int {
    if log == [] then 0
    else
      var call := log[|log| - 1];
      GivenBack(log[..|log| - 1], id) + if call.GiveBack? && call.payment == id then call.amount else 0
  }

  predicate CardOrWallet(via: PaymentMethod) {
    via == Card || via == ApplePay || via == GooglePay
  }

  function StatusTold(t: Tale): Status
    requires t.Tale?
  {
    if CardOrWallet(t.via) && t.amount % 100 == 13 then Declined
    else if t.given == t.amount then Refunded
    else if t.settled then Settled
    else if t.captured then Captured
    else if t.via == DirectDebit then Authorized
    else if t.via == BankTransfer then Pending
    else Captured
  }

  function PaymentTold(id: PaymentId, t: Tale): Payment
    requires t.Tale?
  {
    Payment(id, t.merchant, t.customer, t.amount, t.currency, t.via, StatusTold(t), t.given,
            match t.fee case None => 0 case Some(fee) => fee, t.born, t.touched)
  }

  // ---------- the answer to the next call ----------

  predicate SomethingThere(s: string) {
    exists i :: 0 <= i < |s| && !IsSpace(s[i])
  }

  predicate WellFormed(input: PaymentInput) {
    && (input.currency == EUR || input.currency == GBP || input.currency == USD)
    && (CardOrWallet(input.via) || input.via == DirectDebit || input.via == BankTransfer)
    && input.amount >= 1 && SomethingThere(input.merchant) && SomethingThere(input.customer)
  }

  predicate MaySee(actor: Actor, merchant: string, customer: string) {
    || actor == Admin
    || actor == Merchant(merchant)
    || actor == Customer(customer)
  }


  function AnswerTo(log: seq<Call>, call: Call): Reply {
    match call
    case Create(input, id, _) =>
      if WellFormed(input) then PaymentReply(Ok(PaymentTold(id, Tell(Untold, call, id))))
      else PaymentReply(Err(InvalidState))
    case Capture(id, _) =>
      var t := TaleOf(log, id);
      if t.Untold? then PaymentReply(Err(NotFound))
      else if StatusTold(t) == Authorized then PaymentReply(Ok(PaymentTold(id, Tell(t, call, id))))
      else PaymentReply(Err(InvalidState))
    case Settle(id, _) =>
      var t := TaleOf(log, id);
      if t.Untold? then PaymentReply(Err(NotFound))
      else if StatusTold(t) == Captured || StatusTold(t) == Pending
      then PaymentReply(Ok(PaymentTold(id, Tell(t, call, id))))
      else PaymentReply(Err(InvalidState))
    case GiveBack(id, amount, rid, now) =>
      var t := TaleOf(log, id);
      if amount <= 0 then RefundReply(Err(InvalidState))
      else if t.Untold? then RefundReply(Err(NotFound))
      else if StatusTold(t) != Captured && StatusTold(t) != Settled then RefundReply(Err(InvalidState))
      else if amount > t.amount - t.given then RefundReply(Err(OverRefund))
      else RefundReply(Ok(Refund(rid, id, t.merchant, amount, t.currency, Created, now)))
    case SettleRefund(rid, _) =>
      var r := RefundTaleOf(log, rid);
      if r.NeverAsked? then RefundReply(Err(NotFound))
      else
        var t := TaleOf(log, r.payment);
        if t.Untold? then RefundReply(Err(NotFound))
        else if r.settled then RefundReply(Err(InvalidState))
        else RefundReply(Ok(Refund(rid, r.payment, t.merchant, r.amount, t.currency, RefundSettled, r.at)))
    case NetworkFee(id, _, _) =>
      var t := TaleOf(log, id);
      if t.Untold? then PaymentReply(Err(NotFound)) else PaymentReply(Ok(PaymentTold(id, Tell(t, call, id))))
    case Get(id, actor) =>
      var t := TaleOf(log, id);
      if t.Untold? then PaymentReply(Err(NotFound))
      else if MaySee(actor, t.merchant, t.customer) then PaymentReply(Ok(PaymentTold(id, t)))
      else PaymentReply(Err(Forbidden))
  }

  /** The log after a call: only accepted calls enter it. */
  function Logged(log: seq<Call>, call: Call): seq<Call> {
    if Accepted(AnswerTo(log, call)) then log + [call] else log
  }

  /** The accepted calls of a run, and the answers to all of its calls. */
  function AcceptedCalls(log: seq<Call>, calls: seq<Call>): seq<Call>
    decreases |calls|
  {
    if calls == [] then log else AcceptedCalls(Logged(log, calls[0]), calls[1..])
  }

  function Answers(log: seq<Call>, calls: seq<Call>): seq<Reply>
    decreases |calls|
  {
    if calls == [] then [] else [AnswerTo(log, calls[0])] + Answers(Logged(log, calls[0]), calls[1..])
  }

  // ---------- the rows tell the same ----------

  predicate RowTold(row: PaymentRow, t: Tale) {
    && t.Tale? && row.amount > 0
    && row == PaymentRow(t.merchant, t.customer, t.amount, t.currency, t.via,
                         StatusTold(t), t.given, t.fee, t.born, t.touched)
  }

  predicate RefundRowTold(r: RefundRow, t: RefundTale) {
    && t.Asked?
    && r == RefundRow(t.payment, t.amount, if t.settled then RefundSettled else Created, t.at)
  }

  predicate PaymentFits(c: Core, log: seq<Call>, id: PaymentId) {
    && (if id in c.payments then RowTold(c.payments[id], TaleOf(log, id)) else TaleOf(log, id) == Untold)
    && GivenBack(log, id) == if id in c.payments then c.payments[id].refunded else 0
  }

  predicate RefundFits(c: Core, log: seq<Call>, rid: RefundId) {
    if rid in c.refunds
    then RefundRowTold(c.refunds[rid], RefundTaleOf(log, rid)) && c.refunds[rid].payment in c.payments
    else RefundTaleOf(log, rid) == NeverAsked
  }

  /** Every payment and every refund there is, and none else, is told by the log. */
  ghost predicate Told(c: Core, log: seq<Call>) {
    && (forall id :: PaymentFits(c, log, id))
    && (forall rid :: RefundFits(c, log, rid))
  }

  lemma OneCallMore(log: seq<Call>, call: Call, id: PaymentId, rid: RefundId)
    ensures TaleOf(log + [call], id) == Tell(TaleOf(log, id), call, id)
    ensures RefundTaleOf(log + [call], rid) == TellRefund(RefundTaleOf(log, rid), call, rid)
    ensures GivenBack(log + [call], id)
         == GivenBack(log, id) + if call.GiveBack? && call.payment == id then call.amount else 0
  {
    assert (log + [call])[..|log|] == log;
  }

  lemma WellFormedIsValid(input: PaymentInput)
    ensures WellFormed(input) <==> ValidInput(input)
    ensures WellFormed(input) ==>
              input.amount > 0
              && InitialStatus(input.via, input.amount)
                   == (if CardOrWallet(input.via) && input.amount % 100 == 13 then Declined
                       else if input.via == DirectDebit then Authorized
                       else if input.via == BankTransfer then Pending else Captured)
  {
  }

  lemma NewRowTold(input: PaymentInput, id: PaymentId, now: Instant)
    requires ValidInput(input)
    ensures RowTold(NewRow(input, now), Tell(Untold, Create(input, id, now), id))
  {
    hide ValidInput, InitialStatus;
    WellFormedIsValid(input);
  }

  /** A told row reads as the tale does. */
  lemma ViewTold(id: PaymentId, row: PaymentRow, t: Tale)
    requires RowTold(row, t)
    ensures AsPayment(id, row) == PaymentTold(id, t)
  {
  }

  lemma CreateAnswers(c: Core, log: seq<Call>, input: PaymentInput, id: PaymentId, now: Instant)
    ensures Step(c, Create(input, id, now)).1 == AnswerTo(log, Create(input, id, now))
  {
    hide ValidInput, InitialStatus, WellFormed, RowTold, AsPayment, PaymentTold;
    WellFormedIsValid(input);
    if ValidInput(input) {
      NewRowTold(input, id, now);
      ViewTold(id, NewRow(input, now), Tell(Untold, Create(input, id, now), id));
    }
  }

  /** The calls that leave one payment's row changed, or as it was. */
  lemma RowCallTold(c: Core, log: seq<Call>, call: Call)
    requires Told(c, log)
    requires call.Capture? || call.Settle? || call.NetworkFee? || call.Get?
    ensures Step(c, call).1 == AnswerTo(log, call)
    ensures call.payment in Step(c, call).0.payments <==> call.payment in c.payments
    ensures call.payment in c.payments ==>
              RowTold(Step(c, call).0.payments[call.payment],
                      if Accepted(Step(c, call).1) then Tell(TaleOf(log, call.payment), call, call.payment)
                      else TaleOf(log, call.payment))
  {
    hide TaleOf, RefundTaleOf, GivenBack;
    assert PaymentFits(c, log, call.payment);
    if call.payment in c.payments {
      var row, after := c.payments[call.payment], Step(c, call).0.payments[call.payment];
      var t := TaleOf(log, call.payment);
      ViewTold(call.payment, row, t);
      if Accepted(Step(c, call).1) {
        assert RowTold(after, Tell(t, call, call.payment));
        ViewTold(call.payment, after, Tell(t, call, call.payment));
      }
    }
  }

  lemma GiveBackTold(c: Core, log: seq<Call>, id: PaymentId, amount: int, rid: RefundId, now: Instant)
    requires Told(c, log)
    ensures var call := GiveBack(id, amount, rid, now);
            && Step(c, call).1 == AnswerTo(log, call)
            && (Accepted(Step(c, call).1) ==>
                  && id in c.payments && amount > 0
                  && RowTold(Step(c, call).0.payments[id], Tell(TaleOf(log, id), call, id))
                  && RefundRowTold(Step(c, call).0.refunds[rid], Asked(id, amount, now, false)))
  {
    hide TaleOf, RefundTaleOf, GivenBack;
    assert PaymentFits(c, log, id);
  }

  lemma SettleRefundTold(c: Core, log: seq<Call>, rid: RefundId, now: Instant)
    requires Told(c, log)
    ensures var call := SettleRefund(rid, now);
            && Step(c, call).1 == AnswerTo(log, call)
            && (Accepted(Step(c, call).1) ==>
                  && rid in c.refunds
                  && RefundRowTold(Step(c, call).0.refunds[rid], TellRefund(RefundTaleOf(log, rid), call, rid)))
  {
    hide TaleOf, RefundTaleOf, GivenBack;
    assert RefundFits(c, log, rid);
    if rid in c.refunds {
      assert PaymentFits(c, log, c.refunds[rid].payment);
    }
  }

  lemma StepAnswers(c: Core, log: seq<Call>, call: Call)
    requires Told(c, log)
    ensures Step(c, call).1 == AnswerTo(log, call)
  {
    hide Told, Step, AnswerTo;
    match call
    case Create(input, id, now) => CreateAnswers(c, log, input, id, now);
    case GiveBack(id, amount, rid, now) => GiveBackTold(c, log, id, amount, rid, now);
    case SettleRefund(rid, now) => SettleRefundTold(c, log, rid, now);
    case _ => RowCallTold(c, log, call);
  }

  /** Other payments and refunds than the ones a call names keep row and tale. */
  lemma OthersUntouched(c: Core, call: Call, t: Tale, id: PaymentId, r: RefundTale, rid: RefundId)
    ensures (if call.Create? then call.newPayment != id else if call.SettleRefund? then true else call.payment != id) ==>
              && Tell(t, call, id) == t
              && (id in Step(c, call).0.payments <==> id in c.payments)
              && (id in c.payments ==> Step(c, call).0.payments[id] == c.payments[id])
    ensures (if call.GiveBack? then call.newRefund != rid else call.SettleRefund? ==> call.refund != rid) ==>
              && TellRefund(r, call, rid) == r
              && (rid in Step(c, call).0.refunds <==> rid in c.refunds)
              && (rid in c.refunds ==> Step(c, call).0.refunds[rid] == c.refunds[rid])
  {
    hide AsPayment, AsRefund, ValidInput, InitialStatus;
  }

  /** The row and the tale of any one payment after an accepted call. */
  lemma PaymentStaysTold(c: Core, log: seq<Call>, call: Call, id: PaymentId)
    requires Told(c, log) && Fresh(c, call) && Accepted(Step(c, call).1)
    ensures var after, t := Step(c, call).0, Tell(TaleOf(log, id), call, id);
            && (id in after.payments ==> RowTold(after.payments[id], t))
            && (id !in after.payments ==> t == Untold)
            && (id in c.payments ==> id in after.payments)
  {
    hide RowTold, TaleOf, RefundTaleOf, GivenBack, ValidInput, InitialStatus;
    OthersUntouched(c, call, TaleOf(log, id), id, NeverAsked, 0);
    assert PaymentFits(c, log, id);
    match call
    case Create(input, _, now) => NewRowTold(input, id, now);
    case GiveBack(p, amount, rid, now) => GiveBackTold(c, log, p, amount, rid, now);
    case SettleRefund(rid, now) =>
    case _ => RowCallTold(c, log, call);
  }

  lemma RefundStaysTold(c: Core, log: seq<Call>, call: Call, rid: RefundId)
    requires Told(c, log) && Fresh(c, call) && Accepted(Step(c, call).1)
    ensures var after, t := Step(c, call).0, TellRefund(RefundTaleOf(log, rid), call, rid);
            && (rid in after.refunds ==>
                  RefundRowTold(after.refunds[rid], t) && after.refunds[rid].payment in after.payments)
            && (rid !in after.refunds ==> t == NeverAsked)
  {
    hide RefundRowTold, RowTold, TaleOf, RefundTaleOf, GivenBack, ValidInput, InitialStatus;
    OthersUntouched(c, call, Untold, 0, RefundTaleOf(log, rid), rid);
    assert RefundFits(c, log, rid);
    if call.GiveBack? {
      GiveBackTold(c, log, call.payment, call.amount, call.newRefund, call.now);
    } else if call.SettleRefund? {
      SettleRefundTold(c, log, call.refund, call.now);
    }
  }

  lemma GivenBackStays(c: Core, log: seq<Call>, call: Call, id: PaymentId)
    requires Told(c, log) && Fresh(c, call) && Accepted(Step(c, call).1)
    ensures var after := Step(c, call).0;
            (if id in after.payments then after.payments[id].refunded else 0)
              == GivenBack(log, id) + if call.GiveBack? && call.payment == id then call.amount else 0
  {
    hide TaleOf, RefundTaleOf, GivenBack, ValidInput, InitialStatus, AsPayment, AsRefund;
    assert PaymentFits(c, log, id);
  }

  lemma StepTold(c: Core, log: seq<Call>, call: Call)
    requires Told(c, log) && Fresh(c, call)
    ensures Told(Step(c, call).0, Logged(log, call))
  {
    hide TaleOf, RefundTaleOf, GivenBack, Tell, TellRefund, RowTold, RefundRowTold, Step, AnswerTo;
    StepAnswers(c, log, call);
    if Accepted(Step(c, call).1) {
      forall id
        ensures PaymentFits(Step(c, call).0, log + [call], id)
      {
        OneCallMore(log, call, id, 0);
        PaymentStaysTold(c, log, call, id);
        GivenBackStays(c, log, call, id);
      }
      forall rid
        ensures RefundFits(Step(c, call).0, log + [call], rid)
      {
        OneCallMore(log, call, 0, rid);
        RefundStaysTold(c, log, call, rid);
      }
    } else {
      RefusedCallsChangeNothing(c, call);
    }
  }

  // ---------- whole runs ----------

  function Replies(c: Core, calls: seq<Call>): seq<Reply>
    decreases |calls|
  {
    if calls == [] then [] else [Step(c, calls[0]).1] + Replies(Step(c, calls[0]).0, calls[1..])
  }

  lemma {:induction false} RunTold(c: Core, log: seq<Call>, calls: seq<Call>)
    requires Told(c, log) && FreshRun(c, calls)
    ensures Told(Run(c, calls), AcceptedCalls(log, calls))
    ensures Replies(c, calls) == Answers(log, calls)
    decreases |calls|
  {
    hide Told, Step, AnswerTo, Logged, Fresh;
    if calls != [] {
      StepAnswers(c, log, calls[0]);
      StepTold(c, log, calls[0]);
      RunTold(Step(c, calls[0]).0, Logged(log, calls[0]), calls[1..]);
    }
  }

  lemma NothingTold()
    ensures Told(EMPTY, [])
  {
  }

  /** The rows refine the log. Over any run from the empty store, every reply, errors and
      all its fields included, is the one told from the calls accepted before it; and
      after it every payment and refund row is the one told by all accepted calls. */
  lemma RunIsItsHistory(calls: seq<Call>)
    requires FreshRun(EMPTY, calls)
    ensures Replies(EMPTY, calls) == Answers([], calls)
    ensures Told(Run(EMPTY, calls), AcceptedCalls([], calls))
  {
    hide Told;
    NothingTold();
    RunTold(EMPTY, [], calls);
  }

  /** What was refunded on a payment is the sum of the amounts its accepted refund calls
      asked for; a refund row carries its own call's amount. */
  lemma RefundedIsWhatWasAsked(calls: seq<Call>, id: PaymentId, i: nat)
    requires FreshRun(EMPTY, calls)
    ensures var c, log := Run(EMPTY, calls), AcceptedCalls([], calls);
            && (id in c.payments ==> c.payments[id].refunded == GivenBack(log, id))
            && (i < |log| && log[i].GiveBack? ==>
                  && log[i].newRefund in c.refunds
                  && c.refunds[log[i].newRefund].payment == log[i].payment
                  && c.refunds[log[i].newRefund].amount == log[i].amount
                  && c.refunds[log[i].newRefund].createdAt == log[i].now)
  {
    hide Run, AcceptedCalls;
    RunIsItsHistory(calls);
    var c, log := Run(EMPTY, calls), AcceptedCalls([], calls);
    assert PaymentFits(c, log, id);
    if i < |log| && log[i].GiveBack? {
      RunIsOrderly(calls);
      OrderlyRefund(log, i);
      assert RefundFits(c, log, log[i].newRefund);
    }
  }

  // ---------- ids are drawn once ----------

  /** No accepted call creates what an earlier one created. */
  predicate Orderly(log: seq<Call>) {
    forall i, j :: 0 <= i < j < |log| ==>
      && (log[i].Create? && log[j].Create? ==> log[i].newPayment != log[j].newPayment)
      && (log[i].GiveBack? && log[j].GiveBack? ==> log[i].newRefund != log[j].newRefund)
  }

  /** Only well-formed creates and positive refunds are accepted. */
  predicate Sensible(log: seq<Call>) {
    forall i :: 0 <= i < |log| ==>
      (log[i].Create? ==> WellFormed(log[i].input)) && (log[i].GiveBack? ==> log[i].amount > 0)
  }

  lemma {:induction false} CreatedIsTold(log: seq<Call>, i: nat)
    requires i < |log|
    ensures log[i].Create? ==> TaleOf(log, log[i].newPayment).Tale?
    ensures log[i].GiveBack? ==> RefundTaleOf(log, log[i].newRefund).Asked?
  {
    if i < |log| - 1 {
      CreatedIsTold(log[..|log| - 1], i);
    }
  }

  lemma {:induction false} OrderlyPayment(log: seq<Call>, i: nat)
    requires Orderly(log) && i < |log| && log[i].Create?
    ensures var t, input := TaleOf(log, log[i].newPayment), log[i].input;
            && t.Tale? && t.merchant == input.merchant && t.customer == input.customer
            && t.amount == Natural(input.amount) && t.currency == input.currency && t.via == input.via && t.born == log[i].now
  {
    if i < |log| - 1 {
      OrderlyPayment(log[..|log| - 1], i);
    }
  }

  lemma {:induction false} OrderlyRefund(log: seq<Call>, i: nat)
    requires Orderly(log) && i < |log| && log[i].GiveBack? && log[i].amount > 0
    ensures var r := RefundTaleOf(log, log[i].newRefund);
            r.Asked? && r.payment == log[i].payment && r.amount == log[i].amount && r.at == log[i].now
  {
    if i < |log| - 1 {
      OrderlyRefund(log[..|log| - 1], i);
    }
  }

  /** Whoever is told was created by a call of the log. */
  lemma {:induction false} ToldWasCreated(log: seq<Call>, id: PaymentId) returns (i: nat)
    requires TaleOf(log, id).Tale?
    ensures i < |log| && log[i].Create? && log[i].newPayment == id
  {
    var last := log[|log| - 1];
    if last.Create? && last.newPayment == id {
      i := |log| - 1;
    } else {
      i := ToldWasCreated(log[..|log| - 1], id);
    }
  }

  lemma LoggedIsOrderly(c: Core, log: seq<Call>, call: Call)
    requires Told(c, log) && Fresh(c, call) && Orderly(log) && Sensible(log)
    ensures Orderly(Logged(log, call)) && Sensible(Logged(log, call))
  {
    hide TaleOf, RefundTaleOf, StatusTold, PaymentTold, WellFormed;
    if Accepted(AnswerTo(log, call)) {
      forall i | 0 <= i < |log|
        ensures log[i].Create? && call.Create? ==> log[i].newPayment != call.newPayment
        ensures log[i].GiveBack? && call.GiveBack? ==> log[i].newRefund != call.newRefund
      {
        CreatedIsTold(log, i);
        if call.Create? {
          assert PaymentFits(c, log, call.newPayment);
        } else if call.GiveBack? {
          assert RefundFits(c, log, call.newRefund);
        }
      }
    }
  }

  lemma {:induction false} RunKeepsOrder(c: Core, log: seq<Call>, calls: seq<Call>)
    requires Told(c, log) && FreshRun(c, calls) && Orderly(log) && Sensible(log)
    ensures Orderly(AcceptedCalls(log, calls)) && Sensible(AcceptedCalls(log, calls))
    decreases |calls|
  {
    hide Told, Step, AnswerTo, Logged, Fresh, Orderly, Sensible;
    if calls != [] {
      LoggedIsOrderly(c, log, calls[0]);
      StepTold(c, log, calls[0]);
      RunKeepsOrder(Step(c, calls[0]).0, Logged(log, calls[0]), calls[1..]);
    }
  }

  lemma RunIsOrderly(calls: seq<Call>)
    requires FreshRun(EMPTY, calls)
    ensures Orderly(AcceptedCalls([], calls)) && Sensible(AcceptedCalls([], calls))
  {
    hide Told;
    NothingTold();
    RunKeepsOrder(EMPTY, [], calls);
  }

  // ---------- balances ----------

  /** What a cell is owed: each accepted settlement of one of its payments adds the
      payment's amount less its fee, each settled refund takes off the amount its call
      asked for less the fee of that; the fees go the other way. */
  function Owed(log: seq<Call>, merchant: string, currency: Currency): Balance {
    if log == [] then Balance(0, 0)
    else
      var before, call := log[..|log| - 1], log[|log| - 1];
      var b := Owed(before, merchant, currency);
      match call
      case Settle(id, _) =>
        var t := TaleOf(before, id);
        if t.Tale? && t.merchant == merchant && t.currency == currency
        then Balance(b.balance + t.amount - GripeFee(t.amount), b.fees + GripeFee(t.amount)) else b
      case SettleRefund(rid, _) =>
        var r := RefundTaleOf(before, rid);
        var t := if r.Asked? then TaleOf(before, r.payment) else Untold;
        if t.Tale? && t.merchant == merchant && t.currency == currency
        then Balance(b.balance - r.amount + GripeFee(r.amount), b.fees - GripeFee(r.amount)) else b
      case _ => b
  }

  function Cell(cells: Cells, merchant: string, currency: Currency): Balance {
    if (merchant, currency) in cells then cells[(merchant, currency)] else Balance(0, 0)
  }

  /** The posting of a call, told from the log; only accepted settlements have one. */
  function PostingTold(log: seq<Call>, call: Call): Option<Posting> {
    match call
    case Settle(id, _) =>
      var t := TaleOf(log, id);
      if t.Tale? then Some(Posting(t.merchant, t.currency, t.amount - GripeFee(t.amount), GripeFee(t.amount))) else None
    case SettleRefund(rid, _) =>
      var r := RefundTaleOf(log, rid);
      var t := if r.Asked? then TaleOf(log, r.payment) else Untold;
      if r.Asked? && t.Tale?
      then Some(Posting(t.merchant, t.currency, GripeFee(r.amount) - r.amount, -(GripeFee(r.amount) as int))) else None
    case _ => None
  }

  lemma StepPosts(c: Core, log: seq<Call>, call: Call)
    requires Told(c, log)
    ensures PostingOf(c, call) == if Accepted(Step(c, call).1) then PostingTold(log, call) else None
  {
    hide TaleOf, RefundTaleOf, GivenBack, GripeFee, StatusTold, AsPayment, AsRefund, ValidInput;
    if call.Settle? {
      assert PaymentFits(c, log, call.payment);
    } else if call.SettleRefund? {
      assert RefundFits(c, log, call.refund);
      if call.refund in c.refunds {
        assert PaymentFits(c, log, c.refunds[call.refund].payment);
      }
    }
  }

  lemma OwedMore(log: seq<Call>, call: Call, merchant: string, currency: Currency)
    ensures var b, p := Owed(log, merchant, currency), PostingTold(log, call);
            Owed(log + [call], merchant, currency)
              == if p.Some? && p.value.merchant == merchant && p.value.currency == currency
                 then Balance(b.balance + p.value.balance, b.fees + p.value.fees) else b
  {
    hide TaleOf, RefundTaleOf, GripeFee;
    assert (log + [call])[..|log|] == log;
  }

  lemma PostedCell(cells: Cells, p: Posting, merchant: string, currency: Currency)
    ensures var b := Cell(cells, merchant, currency);
            Cell(Post(cells, p), merchant, currency)
              == if p.merchant == merchant && p.currency == currency
                 then Balance(b.balance + p.balance, b.fees + p.fees) else b
  {
  }

  lemma StepOwes(t: Tables, log: seq<Call>, call: Call, merchant: string, currency: Currency)
    requires Told(t.core, log) && Cell(t.cells, merchant, currency) == Owed(log, merchant, currency)
    ensures Cell(Apply(t, call).0.cells, merchant, currency) == Owed(Logged(log, call), merchant, currency)
  {
    hide Told, Owed, Cell, Post, PostingOf, PostingTold, Step, AnswerTo;
    StepAnswers(t.core, log, call);
    StepPosts(t.core, log, call);
    OwedMore(log, call, merchant, currency);
    if PostingOf(t.core, call).Some? {
      PostedCell(t.cells, PostingOf(t.core, call).value, merchant, currency);
    }
  }

  lemma {:induction false} RunOwes(t: Tables, log: seq<Call>, calls: seq<Call>, merchant: string, currency: Currency)
    requires Told(t.core, log) && FreshRun(t.core, calls)
    requires Cell(t.cells, merchant, currency) == Owed(log, merchant, currency)
    ensures Cell(RunTables(t, calls).cells, merchant, currency) == Owed(AcceptedCalls(log, calls), merchant, currency)
    decreases |calls|
  {
    hide Told, Step, AnswerTo, Logged, Fresh, Owed, Cell, PostAll, PostingOf;
    if calls != [] {
      StepTold(t.core, log, calls[0]);
      StepOwes(t, log, calls[0], merchant, currency);
      RunOwes(Apply(t, calls[0]).0, Logged(log, calls[0]), calls[1..], merchant, currency);
    }
  }

  /** After any run each cell holds what the accepted calls make it owed. */
  lemma BalancesAreTheirHistory(calls: seq<Call>, merchant: string, currency: Currency)
    requires FreshRun(EMPTY, calls)
    ensures Cell(RunTables(NO_ROWS, calls).cells, merchant, currency)
         == Owed(AcceptedCalls([], calls), merchant, currency)
  {
    hide Told, RunTables, AcceptedCalls;
    NothingTold();
    RunOwes(NO_ROWS, [], calls, merchant, currency);
  }

  // ---------- and so do the documents ----------

  ghost function DocReplies(d: Docs, calls: seq<Call>): seq<Reply>
    decreases |calls|
  {
    if calls == [] then [] else [Erase(ApplyDocs(d, calls[0]).1)] + DocReplies(ApplyDocs(d, calls[0]).0, calls[1..])
  }

  function EraseAll(rs: seq<Reply>): seq<Reply> {
    if rs == [] then [] else [Erase(rs[0])] + EraseAll(rs[1..])
  }

  predicate PositiveFees(calls: seq<Call>) {
    forall i :: 0 <= i < |calls| ==> PositiveFee(calls[i])
  }

  lemma {:induction false} DocumentsTold(t: Tables, d: Docs, booked: set<PaymentId>, log: seq<Call>, calls: seq<Call>)
    requires Sound(t, booked) && Related(t, d) && Told(t.core, log) && FreshRun(t.core, calls) && PositiveFees(calls)
    ensures DocReplies(d, calls) == EraseAll(Answers(log, calls))
    decreases |calls|
  {
    hide Related, Told, Apply, ApplyDocs, AnswerTo, Logged, BookedAfter;
    hide Accounted, ReferencesHold, Conserved, BookedFits;
    if calls != [] {
      var call, rest := calls[0], calls[1..];
      assert PositiveFee(call) && forall i :: 0 <= i < |rest| ==> rest[i] == calls[i + 1];
      CallAgreesIff(t, d, call);
      ApplyKeepsSound(t, booked, call);
      ApplyReplies(t, call);
      StepAnswers(t.core, log, call);
      StepTold(t.core, log, call);
      DocumentsTold(Apply(t, call).0, ApplyDocs(d, call).0, BookedAfter(t.core, booked, call), Logged(log, call), rest);
      assert Answers(log, calls)[1..] == Answers(Logged(log, call), rest);
    }
  }

  lemma ApplyReplies(t: Tables, call: Call)
    ensures Apply(t, call).0.core == Step(t.core, call).0 && Apply(t, call).1 == Step(t.core, call).1
  {
  }

  /** The document store answers from the same history, up to updated_at. */
  lemma DocumentsAnswerFromHistory(calls: seq<Call>)
    requires FreshRun(EMPTY, calls) && PositiveFees(calls)
    ensures DocReplies(NO_DOCS, calls) == EraseAll(Answers([], calls))
  {
    hide Related, Sound, Told;
    EmptyIsSound();
    EmptyStoresAreRelated();
    NothingTold();
    DocumentsTold(NO_ROWS, NO_DOCS, {}, [], calls);
  }
}
