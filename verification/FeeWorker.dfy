/** The fee worker: at-least-once messages, a set-once network fee. */
module FeeWorker {
  import opened Domain
  import opened Ledger
  import opened Balances
  import opened Relational
  import opened PostgresStore
  import M = Money

  /** A payment.created message, as far as it can be read. */
  datatype Message = Malformed | PaymentCreated(payment: PaymentId, amount: int)

  /** A message handed to a worker: whether the store can be reached just then, and
      whether the deletion that may follow gets through. */
  datatype Delivery = Delivery(message: Message, reachable: bool, deletes: bool, now: Instant)

  /** 20 minor units plus 25 basis points, truncated as machine division does. */
  function MockNetworkFee(amount: int): int {
    20 + M.TruncDiv(amount * 25, 10_000)
  }

  /** Every real payment's mock fee is 20 and the whole units of its 25 basis points;
      it is positive, so neither store refuses it. */
  lemma MockFeeIsPositive(amount: nat)
    ensures MockNetworkFee(amount) >= 20
    ensures var share := MockNetworkFee(amount) - 20; 10_000 * share <= 25 * amount < 10_000 * (share + 1)
  {
  }

  /** Rows and the messages not yet deleted. */
  datatype World = World(c: Core, queue: multiset<Message>)

  predicate Processed(c: Core, d: Delivery) {
    d.message.PaymentCreated? && d.reachable && d.message.payment in c.payments
  }

  /** One delivery: a malformed message is dropped; a fee that could not be recorded
      leaves the message for redelivery; otherwise it is deleted. */
  function Deliver(w: World, d: Delivery): World {
    var m := d.message;
    var queue := if d.deletes then w.queue - multiset{m} else w.queue;
    if m.Malformed? then w.(queue := queue)
    else if !d.reachable then w
    else
      var r := NetworkFeeStep(w.c, m.payment, MockNetworkFee(m.amount), d.now);
      if r.1.Err? then World(r.0, w.queue) else World(r.0, queue)
  }

  function DeliverAll(w: World, ds: seq<Delivery>): World
    decreases |ds|
  {
    if ds == [] then w else DeliverAll(Deliver(w, ds[0]), ds[1..])
  }

  /** What one delivery does: a message goes, if its deletion gets through, exactly when it
      cannot be read or its payment was found; a payment found without a fee gets 20 and
      25 basis points of the announced amount, every other row stays. */
  lemma DeliveryOutcome(w: World, d: Delivery)
    requires d.message.PaymentCreated? ==> d.message.amount >= 0
    ensures var m, v := d.message, Deliver(w, d);
            var found := m.PaymentCreated? && d.reachable && m.payment in w.c.payments;
            && v.queue == (if d.deletes && (m.Malformed? || found) then w.queue - multiset{m} else w.queue)
            && v.c == if found && w.c.payments[m.payment].networkFee.None?
                      then w.c.(payments := w.c.payments[m.payment := w.c.payments[m.payment].(
                             networkFee := Some(20 + m.amount * 25 / 10_000), updatedAt := d.now)])
                      else w.c
  {
    var m := d.message;
    if m.PaymentCreated? && m.payment in w.c.payments {
      assert w.c.payments == w.c.payments[m.payment := w.c.payments[m.payment]];
    }
  }

  /** What may happen around a worker: a message is published, a message is delivered,
      or the store serves a call of someone else. */
  datatype Event = Published(message: Message) | Delivered(delivery: Delivery) | StoreCall(call: Call)

  predicate Possible(w: World, e: Event) {
    e.StoreCall? ==> !e.call.NetworkFee? && Fresh(w.c, e.call)
  }

  function Happen(w: World, e: Event): World {
    match e
    case Published(m) => w.(queue := w.queue + multiset{m})
    case Delivered(d) => Deliver(w, d)
    case StoreCall(call) => w.(c := Step(w.c, call).0)
  }

  predicate PossibleRun(w: World, events: seq<Event>)
    decreases |events|
  {
    events == [] || (Possible(w, events[0]) && PossibleRun(Happen(w, events[0]), events[1..]))
  }

  function HappenAll(w: World, events: seq<Event>): World
    decreases |events|
  {
    if events == [] then w else HappenAll(Happen(w, events[0]), events[1..])
  }

  /** The store calls of others, in order. */
  function CallsOf(events: seq<Event>): seq<Call> {
    if events == [] then []
    else (if events[0].StoreCall? then [events[0].call] else []) + CallsOf(events[1..])
  }

  /** The payment an event records a fee attempt for. */
  function ProcessedBy(c: Core, e: Event): set<PaymentId> {
    if e.Delivered? && Processed(c, e.delivery) then {e.delivery.message.payment} else {}
  }

  /** Payments whose message was processed at least once. */
  function ProcessedIn(w: World, events: seq<Event>): set<PaymentId>
    decreases |events|
  {
    if events == [] then {}
    else ProcessedBy(w.c, events[0]) + ProcessedIn(Happen(w, events[0]), events[1..])
  }

  /** Messages tell the truth about the amount of the payment they announce. */
  predicate Truthful(c: Core, m: Message) {
    m.PaymentCreated? && m.payment in c.payments ==> m.amount == c.payments[m.payment].amount
  }

  predicate AllTruthful(c: Core, events: seq<Event>) {
    forall i :: 0 <= i < |events| && events[i].Delivered? ==> Truthful(c, events[i].delivery.message)
  }

  lemma HappenPreserves(w: World, e: Event)
    requires Possible(w, e)
    ensures Preserves(w.c, Happen(w, e).c)
  {
    hide MockNetworkFee, Preserves, Fresh;
    match e
    case Published(_) => SamePreserves(w.c);
    case Delivered(d) =>
      SamePreserves(w.c);
      if d.message.PaymentCreated? {
        StepPreserves(w.c, NetworkFee(d.message.payment, MockNetworkFee(d.message.amount), d.now));
      }
    case StoreCall(call) => StepPreserves(w.c, call);
  }

  lemma SamePreserves(c: Core)
    ensures Preserves(c, c)
    ensures forall id, fee, now :: Fresh(c, NetworkFee(id, fee, now))
  {
  }

  lemma PreservesTwice(c: Core, d: Core, e: Core)
    requires Preserves(c, d) && Preserves(d, e)
    ensures Preserves(c, e)
  {
    forall id | id in c.payments
      ensures id in e.payments && RowPreserved(c.payments[id], e.payments[id])
    {
      assert RowPreserved(c.payments[id], d.payments[id]) && RowPreserved(d.payments[id], e.payments[id]);
    }
    forall rid | rid in c.refunds
      ensures rid in e.refunds && RefundPreserved(c.refunds[rid], e.refunds[rid])
    {
      assert RefundPreserved(c.refunds[rid], d.refunds[rid]) && RefundPreserved(d.refunds[rid], e.refunds[rid]);
    }
  }

  lemma {:induction false} EventsPreserve(w: World, events: seq<Event>)
    requires PossibleRun(w, events)
    ensures Preserves(w.c, HappenAll(w, events).c)
    decreases |events|
  {
    hide Preserves, Possible, Happen;
    if events == [] {
      SamePreserves(w.c);
    } else {
      HappenPreserves(w, events[0]);
      EventsPreserve(Happen(w, events[0]), events[1..]);
      PreservesTwice(w.c, Happen(w, events[0]).c, HappenAll(w, events).c);
    }
  }

  // ---------- with the worker and without it ----------

  /** A row with its network fee and its update time put aside. */
  function Aside(row: PaymentRow): PaymentRow {
    row.(networkFee := None, updatedAt := 0)
  }

  /** Same payments, same refunds, nothing different but fees and update times. */
  predicate OnlyFeesDiffer(c: Core, d: Core) {
    && d.refunds == c.refunds && d.payments.Keys == c.payments.Keys
    && forall id :: id in c.payments ==> Aside(d.payments[id]) == Aside(c.payments[id])
  }

  /** What the fee of a payment is once these payments have been processed. */
  function FeeOnce(row: PaymentRow, processed: bool): Option<int> {
    if row.networkFee.None? && processed then Some(MockNetworkFee(row.amount)) else row.networkFee
  }

  /** The second store is the first plus the fees of the processed payments. */
  predicate FeesOnce(c: Core, d: Core, processed: set<PaymentId>) {
    && OnlyFeesDiffer(c, d) && processed <= c.payments.Keys
    && forall id :: id in c.payments ==> d.payments[id].networkFee == FeeOnce(c.payments[id], id in processed)
  }

  /** A call that is no network fee does to both stores the same, row by row. */
  lemma CallKeepsFees(c: Core, d: Core, processed: set<PaymentId>, call: Call)
    requires FeesOnce(c, d, processed) && Fresh(d, call) && !call.NetworkFee?
    ensures FeesOnce(Step(c, call).0, Step(d, call).0, processed)
    ensures Fresh(c, call)
  {
    hide MockNetworkFee, Step, Aside, FeeOnce, Fresh;
    SameGuards(c, d, call);
    var c', d' := Step(c, call).0, Step(d, call).0;
    assert forall id :: id in c.payments ==> Aside(d.payments[id]) == Aside(c.payments[id]);
    forall id | id in c'.payments
      ensures Aside(d'.payments[id]) == Aside(c'.payments[id])
      ensures d'.payments[id].networkFee == FeeOnce(c'.payments[id], id in processed)
    {
      CallOnRow(c, d, call, id);
      if id in c.payments {
        SameFeeOnce(c.payments[id], c'.payments[id], id in processed);
      } else {
        NoFeeYet(c'.payments[id]);
      }
    }
  }

  lemma SameFeeOnce(p: PaymentRow, q: PaymentRow, processed: bool)
    requires p.networkFee == q.networkFee && p.amount == q.amount
    ensures FeeOnce(p, processed) == FeeOnce(q, processed)
  {
  }

  lemma NoFeeYet(p: PaymentRow)
    ensures FeeOnce(p, false) == p.networkFee
  {
  }

  lemma SameGuards(c: Core, d: Core, call: Call)
    requires OnlyFeesDiffer(c, d) && Fresh(d, call) && !call.NetworkFee?
    ensures Fresh(c, call)
    ensures var c', d' := Step(c, call).0, Step(d, call).0;
            c'.payments.Keys == d'.payments.Keys && c'.refunds == d'.refunds && c.payments.Keys <= c'.payments.Keys
  {
    hide Blank, InitialStatus, AsPayment, AsRefund, GetReply, ValidInput;
    if (call.Capture? || call.Settle? || call.GiveBack?) && call.payment in c.payments {
      AsideParts(c.payments[call.payment], d.payments[call.payment]);
    }
  }

  /** What the guards and updates of a call read of a row. */
  lemma AsideParts(p: PaymentRow, q: PaymentRow)
    requires Aside(p) == Aside(q)
    ensures q == p.(networkFee := q.networkFee, updatedAt := q.updatedAt)
  {
  }

  /** What a call makes of the row it names. */
  function RowAfter(row: PaymentRow, call: Call): PaymentRow {
    match call
    case Capture(_, now) =>
      if row.status == Authorized then row.(status := Captured, updatedAt := now) else row
    case Settle(_, now) =>
      if Settleable(row.status) then row.(status := Settled, updatedAt := now) else row
    case GiveBack(_, amount, _, now) =>
      if amount <= 0 || !Refundable(row.status) || row.refunded + amount > row.amount then row
      else row.(refunded := row.refunded + amount,
                status := if row.refunded + amount == row.amount then Refunded else row.status, updatedAt := now)
    case _ => row
  }

  lemma RowAfterCall(c: Core, call: Call, id: PaymentId)
    requires id in c.payments && Fresh(c, call) && !call.NetworkFee?
    ensures id in Step(c, call).0.payments
    ensures Step(c, call).0.payments[id]
         == if (call.Capture? || call.Settle? || call.GiveBack?) && call.payment == id
            then RowAfter(c.payments[id], call) else c.payments[id]
  {
    hide AsPayment, AsRefund, GetReply, ValidInput;
  }

  lemma RowsAfter(p: PaymentRow, q: PaymentRow, call: Call)
    requires Aside(p) == Aside(q)
    ensures Aside(RowAfter(p, call)) == Aside(RowAfter(q, call))
    ensures RowAfter(p, call).networkFee == p.networkFee && RowAfter(p, call).amount == p.amount
    ensures RowAfter(q, call).networkFee == q.networkFee
  {
    AsideParts(p, q);
  }

  lemma CallOnRow(c: Core, d: Core, call: Call, id: PaymentId)
    requires OnlyFeesDiffer(c, d) && Fresh(d, call) && !call.NetworkFee?
    requires id in Step(c, call).0.payments && id in Step(d, call).0.payments
    ensures var p, q := Step(c, call).0.payments[id], Step(d, call).0.payments[id];
            && Aside(p) == Aside(q)
            && (if id in c.payments
                then && p.networkFee == c.payments[id].networkFee && p.amount == c.payments[id].amount
                     && id in d.payments && q.networkFee == d.payments[id].networkFee
                else p.networkFee == q.networkFee == None)
  {
    hide RowAfter, Aside;
    if id in c.payments {
      hide Step;
      RowAfterCall(c, call, id);
      RowAfterCall(d, call, id);
      RowsAfter(c.payments[id], d.payments[id], call);
    } else {
      CreatedAlike(c, d, call, id);
    }
  }

  lemma CreatedAlike(c: Core, d: Core, call: Call, id: PaymentId)
    requires id !in c.payments && id !in d.payments
    requires id in Step(c, call).0.payments && id in Step(d, call).0.payments
    ensures Step(c, call).0.payments[id] == Step(d, call).0.payments[id]
    ensures Step(c, call).0.payments[id].networkFee == None
  {
    hide AsPayment, AsRefund, GetReply;
  }

  lemma DeliveryAddsFee(c: Core, w: World, processed: set<PaymentId>, d: Delivery)
    requires FeesOnce(c, w.c, processed) && Truthful(w.c, d.message)
    ensures FeesOnce(c, Deliver(w, d).c, processed + ProcessedBy(w.c, Delivered(d)))
  {
    hide MockNetworkFee;
    if Processed(w.c, d) {
      var id, after := d.message.payment, Deliver(w, d).c;
      assert after == w.c.(payments := w.c.payments[id := after.payments[id]]);
      assert Aside(after.payments[id]) == Aside(w.c.payments[id]) == Aside(c.payments[id]);
      assert w.c.payments[id].amount == c.payments[id].amount;
    } else {
      assert Deliver(w, d).c == w.c;
      assert processed + {} == processed;
    }
  }

  lemma TruthfulBefore(c: Core, d: Core, m: Message)
    requires Preserves(c, d) && Truthful(d, m)
    ensures Truthful(c, m)
  {
    assert m.PaymentCreated? && m.payment in c.payments ==> RowPreserved(c.payments[m.payment], d.payments[m.payment]);
  }

  /** Alongside a store that serves the same calls without any worker. */
  lemma {:induction false} FeesAlongside(c: Core, w: World, processed: set<PaymentId>, events: seq<Event>)
    requires FeesOnce(c, w.c, processed) && PossibleRun(w, events) && AllTruthful(HappenAll(w, events).c, events)
    ensures FreshRun(c, CallsOf(events))
    ensures FeesOnce(Run(c, CallsOf(events)), HappenAll(w, events).c, processed + ProcessedIn(w, events))
    decreases |events|
  {
    hide FeesOnce, Deliver, Step, Preserves, Truthful, Fresh, ProcessedBy, MockNetworkFee;
    if events == [] {
      assert processed + {} == processed;
    } else {
      var e, v, rest := events[0], Happen(w, events[0]), events[1..];
      var done := processed + ProcessedBy(w.c, e);
      assert AllTruthful(HappenAll(v, rest).c, rest) by {
        assert forall i :: 0 <= i < |rest| ==> rest[i] == events[i + 1];
      }
      assert done + ProcessedIn(v, rest) == processed + ProcessedIn(w, events);
      NotDelivered(w.c, e);
      match e
      case Published(_) =>
        assert done == processed && CallsOf(events) == CallsOf(rest);
        FeesAlongside(c, v, done, rest);
      case Delivered(d) =>
        EventsPreserve(w, events);
        TruthfulBefore(w.c, HappenAll(w, events).c, d.message);
        DeliveryAddsFee(c, w, processed, d);
        assert CallsOf(events) == CallsOf(rest);
        FeesAlongside(c, v, done, rest);
      case StoreCall(call) =>
        assert done == processed;
        CallKeepsFees(c, w.c, processed, call);
        FeesAlongside(Step(c, call).0, v, done, rest);
        assert CallsOf(events)[1..] == CallsOf(rest);
    }
  }

  lemma NotDelivered(c: Core, e: Event)
    ensures !e.Delivered? ==> ProcessedBy(c, e) == {}
  {
  }

  /** The worker records fees and nothing else. Whatever messages are published and
      delivered, in any order, repeated and failing at will, between whatever calls
      others make: the store ends up as those calls alone would have left it, but for
      update times and the fees, and the fee of each payment is the one it had, or else
      the mock fee of its amount if its message was ever processed. */
  lemma FeesDependOnProcessedOnly(w: World, events: seq<Event>)
    requires PossibleRun(w, events) && AllTruthful(HappenAll(w, events).c, events)
    ensures FreshRun(w.c, CallsOf(events))
    ensures FeesOnce(Run(w.c, CallsOf(events)), HappenAll(w, events).c, ProcessedIn(w, events))
  {
    hide PossibleRun, AllTruthful, HappenAll, Run, FreshRun, MockNetworkFee;
    FeesAlongside(w.c, w, {}, events);
    assert {} + ProcessedIn(w, events) == ProcessedIn(w, events);
  }

  /** Redelivery confluence: two histories around the same calls that processed the same
      payments, however often and in whatever order, leave the same fees and stores that
      are the same in everything but update times. */
  lemma RedeliveryConfluence(w: World, xs: seq<Event>, ys: seq<Event>)
    requires PossibleRun(w, xs) && AllTruthful(HappenAll(w, xs).c, xs)
    requires PossibleRun(w, ys) && AllTruthful(HappenAll(w, ys).c, ys)
    requires CallsOf(xs) == CallsOf(ys) && ProcessedIn(w, xs) == ProcessedIn(w, ys)
    ensures OnlyFeesDiffer(HappenAll(w, xs).c, HappenAll(w, ys).c)
    ensures forall id :: id in HappenAll(w, xs).c.payments ==>
              HappenAll(w, xs).c.payments[id].networkFee == HappenAll(w, ys).c.payments[id].networkFee
  {
    hide MockNetworkFee, ProcessedIn, HappenAll, PossibleRun, AllTruthful, CallsOf, Run, FreshRun;
    FeesDependOnProcessedOnly(w, xs);
    FeesDependOnProcessedOnly(w, ys);
    SameFees(Run(w.c, CallsOf(xs)), HappenAll(w, xs).c, HappenAll(w, ys).c, ProcessedIn(w, xs));
  }

  lemma SameFees(c: Core, d: Core, e: Core, processed: set<PaymentId>)
    requires FeesOnce(c, d, processed) && FeesOnce(c, e, processed)
    ensures OnlyFeesDiffer(d, e)
    ensures forall id :: id in d.payments ==> id in e.payments && d.payments[id].networkFee == e.payments[id].networkFee
  {
    hide MockNetworkFee, Aside;
    forall id | id in d.payments
      ensures Aside(e.payments[id]) == Aside(d.payments[id]) && d.payments[id].networkFee == e.payments[id].networkFee
    {
      assert id in c.payments;
    }
  }

  /** Without truthful amounts the order shows: the fee of the first delivery that is
      processed stays, whatever is delivered and called after it. */
  lemma FirstFeeStays(w: World, d: Delivery, later: seq<Event>)
    requires Processed(w.c, d) && w.c.payments[d.message.payment].networkFee.None?
    requires PossibleRun(Deliver(w, d), later)
    ensures var c, id := HappenAll(Deliver(w, d), later).c, d.message.payment;
            id in c.payments && c.payments[id].networkFee == Some(MockNetworkFee(d.message.amount))
  {
    hide MockNetworkFee, HappenAll, PossibleRun;
    EventsPreserve(Deliver(w, d), later);
    var id := d.message.payment;
    assert RowPreserved(Deliver(w, d).c.payments[id], HappenAll(Deliver(w, d), later).c.payments[id]);
  }

  // ---------- no message is deleted too early ----------

  /** The messages published by a run. */
  function PublishedIn(events: seq<Event>): multiset<Message> {
    if events == [] then multiset{}
    else (if events[0].Published? then multiset{events[0].message} else multiset{}) + PublishedIn(events[1..])
  }

  /** A well-formed message leaves the queue only with its payment carrying a fee. */
  predicate FeeBeforeDelete(w: World, published: multiset<Message>) {
    forall m :: m in published && m.PaymentCreated? && w.queue[m] < published[m] ==>
      m.payment in w.c.payments && w.c.payments[m.payment].networkFee.Some?
  }

  lemma {:induction false} DeletedOnlyWithFee(w: World, published: multiset<Message>, events: seq<Event>)
    requires FeeBeforeDelete(w, published) && PossibleRun(w, events)
    ensures FeeBeforeDelete(HappenAll(w, events), published + PublishedIn(events))
    decreases |events|
  {
    hide FeeBeforeDelete, Happen, Possible;
    if events == [] {
      assert published + multiset{} == published;
    } else {
      var now := if events[0].Published? then multiset{events[0].message} else multiset{};
      EventKeepsFeeFirst(w, published, events[0]);
      DeletedOnlyWithFee(Happen(w, events[0]), published + now, events[1..]);
      assert published + now + PublishedIn(events[1..]) == published + PublishedIn(events);
    }
  }

  lemma EventKeepsFeeFirst(w: World, published: multiset<Message>, e: Event)
    requires FeeBeforeDelete(w, published) && Possible(w, e)
    ensures FeeBeforeDelete(Happen(w, e), published + if e.Published? then multiset{e.message} else multiset{})
  {
    hide MockNetworkFee, Step, NetworkFeeStep, Fresh;
    HappenPreserves(w, e);
    var v := Happen(w, e);
    var now := published + if e.Published? then multiset{e.message} else multiset{};
    forall m | m in now && m.PaymentCreated? && v.queue[m] < now[m]
      ensures m.payment in v.c.payments && v.c.payments[m.payment].networkFee.Some?
    {
      if w.queue[m] < published[m] {
        assert RowPreserved(w.c.payments[m.payment], v.c.payments[m.payment]);
      } else {
        assert e.Delivered? && e.delivery.message == m && v.queue[m] < w.queue[m];
        DeletedCarriesFee(w, e.delivery);
      }
    }
  }

  lemma DeletedCarriesFee(w: World, d: Delivery)
    requires d.message.PaymentCreated? && Deliver(w, d).queue[d.message] < w.queue[d.message]
    ensures var id, c := d.message.payment, Deliver(w, d).c; id in c.payments && c.payments[id].networkFee.Some?
  {
  }

  // ---------- the receive loop ----------

  class Worker {
    const store: PgStore

    constructor (store: PgStore)
      ensures this.store == store
    {
      this.store := store;
    }

    /** A message that is dropped or was recorded is deleted, if the deletion gets through. */
    method Handle(queue: multiset<Message>, d: Delivery) returns (left: multiset<Message>)
      requires store.Valid()
      modifies store
      ensures store.Valid()
      ensures World(store.Db().core, left) == Deliver(World(old(store.Db().core), queue), d)
      ensures store.cells == old(store.cells) && store.booked == old(store.booked)
    {
      hide Sound, MockNetworkFee;
      left := queue;
      if d.message.PaymentCreated? {
        if !d.reachable {
          return;
        }
        var r := store.SettleNetworkFee(d.message.payment, MockNetworkFee(d.message.amount), d.now);
        if r.Err? {
          return;
        }
      }
      if d.deletes {
        left := left - multiset{d.message};
      }
    }

    /** One batch of received messages, in order; the ones to keep stay in the queue. */
    method Consume(queue: multiset<Message>, batch: seq<Delivery>) returns (left: multiset<Message>)
      requires store.Valid()
      modifies store
      ensures store.Valid()
      ensures World(store.Db().core, left) == DeliverAll(World(old(store.Db().core), queue), batch)
      ensures store.cells == old(store.cells) && store.booked == old(store.booked)
    {
      hide Sound, Deliver, Processed;
      left := queue;
      for i := 0 to |batch|
        invariant store.Valid()
        invariant DeliverAll(World(store.Db().core, left), batch[i..]) == DeliverAll(World(old(store.Db().core), queue), batch)
        invariant store.cells == old(store.cells) && store.booked == old(store.booked)
      {
        assert batch[i..][0] == batch[i] && batch[i..][1..] == batch[i + 1..];
        left := Handle(left, batch[i]);
      }
    }
  }
}
