/** The cycler's loops, one worker against one store: a tick serves one batch, and
    non-empty ticks follow each other until nothing is left to charge. */
module CyclerDrain {
  import opened Domain
  import opened Calendar
  import opened Charging
  import opened Sums

  type Subs = map<SubId, Sub>

  predicate Chargeable(s: Sub) {
    ValidTime(s.next) && s.cadence.Valid()
  }

  predicate AllChargeable(subs: Subs) {
    forall id :: id in subs ==> Chargeable(subs[id])
  }

  /** How many charge times of a schedule lie at or before the clock. */
  function PeriodsDue(c: Cadence, next: Time, asOf: Instant): nat
    requires c.Valid() && ValidTime(next)
    decreases asOf - Stamp(next)
  {
    if Stamp(next) > asOf then 0
    else
      AdvanceIsForward(c, next);
      1 + PeriodsDue(c, Calendar.Advance(c, next), asOf)
  }

  function Overdue(s: Sub, asOf: Instant): nat {
    if s.status == Active && Chargeable(s) then PeriodsDue(s.cadence, s.next, asOf) else 0
  }

  ghost function OverdueOf(subs: Subs, asOf: Instant): SubId -> int {
    (id: SubId) => if id in subs then Overdue(subs[id], asOf) else 0
  }

  /** The overdue periods of all subscriptions. */
  ghost function TotalOverdue(subs: Subs, asOf: Instant): int {
    Sum(subs.Keys, OverdueOf(subs, asOf))
  }

  function Advanced(s: Sub): Sub
    requires Chargeable(s)
  {
    s.(next := Calendar.Advance(s.cadence, s.next), cycle := s.cycle + 1)
  }

  /** Serving a due subscription takes exactly one period off the total, and leaves
      every other subscription alone. */
  lemma ChargeTakesOnePeriod(subs: Subs, id: SubId, asOf: Instant)
    requires id in subs && subs[id].status == Active && Chargeable(subs[id]) && Stamp(subs[id].next) <= asOf
    ensures TotalOverdue(subs[id := Advanced(subs[id])], asOf) == TotalOverdue(subs, asOf) - 1
  {
    hide Sum, Calendar.Advance, ValidTime;
    var after := subs[id := Advanced(subs[id])];
    assert after.Keys == subs.Keys;
    assert Overdue(after[id], asOf) == Overdue(subs[id], asOf) - 1;
    SumUpdate(subs.Keys, id, OverdueOf(subs, asOf), OverdueOf(after, asOf));
  }

  // ---------- what has been served, per subscription and cycle ----------

  /** Every subscription has moved on by as many cycles as overdue periods were taken off. */
  predicate Progress(before: Subs, after: Subs, asOf: Instant) {
    && before.Keys == after.Keys
    && forall id :: id in before ==>
         && before[id].cycle <= after[id].cycle
         && after[id].cycle + Overdue(after[id], asOf) == before[id].cycle + Overdue(before[id], asOf)
  }

  /** One for each cycle a subscription has moved past. */
  function Served(before: Subs, after: Subs, id: SubId, cycle: nat): nat {
    if id in before && id in after && before[id].cycle <= cycle < after[id].cycle then 1 else 0
  }

  /** Every cycle moved past got one payment and no other cycle got any; where a move may
      have failed after its payment, at least so many. */
  ghost predicate OncePerCycle(before: Subs, after: Subs, charges: seq<Charge>, charges': seq<Charge>,
                               sure: SubId -> bool)
  {
    forall id, cycle: nat ::
      && Count(charges', id, cycle) >= Count(charges, id, cycle) + Served(before, after, id, cycle)
      && (sure(id) ==> Count(charges', id, cycle) == Count(charges, id, cycle) + Served(before, after, id, cycle))
  }

  lemma NothingServed(subs: Subs, charges: seq<Charge>, asOf: Instant, sure: SubId -> bool)
    ensures Progress(subs, subs, asOf) && OncePerCycle(subs, subs, charges, charges, sure)
  {
  }

  lemma ServeOne(first: Subs, before: Subs, charges: seq<Charge>, charges': seq<Charge>, s: Snapshot, asOf: Instant,
                 sure: SubId -> bool)
    requires Progress(first, before, asOf) && OncePerCycle(first, before, charges, charges', sure)
    requires s.id in before && before[s.id] == s.sub && s.sub.status == Active && Chargeable(s.sub)
    requires Stamp(s.sub.next) <= asOf
    ensures var after := before[s.id := Advanced(s.sub)];
            && Progress(first, after, asOf)
            && OncePerCycle(first, after, charges, charges' + [Charge(s.id, s.sub.cycle, s.sub.terms)], sure)
  {
    hide Count, Create, Calendar.Advance, ValidTime, Stamp;
    var after := before[s.id := Advanced(s.sub)];
    assert Overdue(after[s.id], asOf) == Overdue(s.sub, asOf) - 1 by {
      OnePeriodLess(s.sub, asOf);
    }
    forall id, cycle: nat
      ensures Count(charges' + [Charge(s.id, s.sub.cycle, s.sub.terms)], id, cycle)
           == Count(charges', id, cycle) + if id == s.id && cycle == s.sub.cycle then 1 else 0
      ensures Served(first, after, id, cycle)
           == Served(first, before, id, cycle) + if id == s.id && cycle == s.sub.cycle then 1 else 0
    {
      CountOneMore(charges', s, id, cycle);
    }
  }

  lemma OnePeriodLess(s: Sub, asOf: Instant)
    requires s.status == Active && Chargeable(s) && Stamp(s.next) <= asOf
    ensures Chargeable(Advanced(s)) && Overdue(Advanced(s), asOf) == Overdue(s, asOf) - 1
  {
  }

  lemma CountOneMore(charges: seq<Charge>, s: Snapshot, id: SubId, cycle: nat)
    ensures Count(charges + [Charge(s.id, s.sub.cycle, s.sub.terms)], id, cycle)
         == Count(charges, id, cycle) + if id == s.id && cycle == s.sub.cycle then 1 else 0
  {
    CountCreate(charges, false, s, id, cycle);
  }

  lemma ChargeWithoutMove(before: Subs, after: Subs, charges: seq<Charge>, charges': seq<Charge>, s: Snapshot,
                          sure: SubId -> bool)
    requires OncePerCycle(before, after, charges, charges', sure) && !sure(s.id)
    ensures OncePerCycle(before, after, charges, charges' + [Charge(s.id, s.sub.cycle, s.sub.terms)], sure)
  {
    hide Count, Served;
    forall id, cycle: nat
      ensures Count(charges' + [Charge(s.id, s.sub.cycle, s.sub.terms)], id, cycle) >= Count(charges', id, cycle)
      ensures id != s.id ==>
                Count(charges' + [Charge(s.id, s.sub.cycle, s.sub.terms)], id, cycle) == Count(charges', id, cycle)
    {
      CountOneMore(charges', s, id, cycle);
    }
  }

  lemma ServedTwice(a: Subs, b: Subs, c: Subs, charges: seq<Charge>, charges': seq<Charge>, charges'': seq<Charge>,
                    asOf: Instant, sure: SubId -> bool, sure': SubId -> bool)
    requires Progress(a, b, asOf) && OncePerCycle(a, b, charges, charges', sure)
    requires Progress(b, c, asOf) && OncePerCycle(b, c, charges', charges'', sure')
    requires forall id :: sure(id) ==> sure'(id)
    ensures Progress(a, c, asOf) && OncePerCycle(a, c, charges, charges'', sure)
  {
    hide Count, Overdue;
    forall id, cycle: nat
      ensures Served(a, c, id, cycle) == Served(a, b, id, cycle) + Served(b, c, id, cycle)
    {
    }
  }

  /** With nothing overdue any more, every subscription has moved on by exactly its
      overdue periods. */
  lemma DrainedExactly(before: Subs, after: Subs, asOf: Instant)
    requires Progress(before, after, asOf) && TotalOverdue(after, asOf) == 0
    ensures forall id :: id in before ==> id in after && after[id].cycle == before[id].cycle + Overdue(before[id], asOf)
  {
    hide TotalOverdue, Overdue;
    TotalIsNatural(after, asOf);
  }

  /** However much is served, a cancelled subscription stays at its cycle. */
  lemma CancelledStaysPut(before: Subs, after: Subs, asOf: Instant, id: SubId)
    requires Progress(before, after, asOf) && id in before && before[id].status == Cancelled
    ensures id in after && after[id].cycle == before[id].cycle && forall cycle :: Served(before, after, id, cycle) == 0
  {
  }

  lemma TotalIsNatural(subs: Subs, asOf: Instant)
    ensures TotalOverdue(subs, asOf) >= 0
    ensures TotalOverdue(subs, asOf) == 0 ==> forall id :: id in subs ==> Overdue(subs[id], asOf) == 0
  {
    hide Sum;
    SumNonNegative(subs.Keys, OverdueOf(subs, asOf));
    forall id | id in subs
      ensures Overdue(subs[id], asOf) <= TotalOverdue(subs, asOf)
    {
      assert OverdueOf(subs, asOf)(id) == Overdue(subs[id], asOf);
    }
  }

  predicate Due(s: Sub, asOf: Instant)
    requires 1 <= s.next.date.month <= 12
  {
    s.status == Active && Stamp(s.next) <= asOf
  }

  lemma DueIsOverdue(s: Sub, asOf: Instant)
    requires Chargeable(s)
    ensures Due(s, asOf) <==> Overdue(s, asOf) > 0
  {
  }

  lemma NothingDueNothingOverdue(subs: Subs, asOf: Instant)
    requires AllChargeable(subs) && forall id :: id in subs ==> !Due(subs[id], asOf)
    ensures TotalOverdue(subs, asOf) == 0
  {
    hide Sum, Due, Overdue, Chargeable;
    forall id | id in subs
      ensures OverdueOf(subs, asOf)(id) == 0
    {
      assert Chargeable(subs[id]);
      DueIsOverdue(subs[id], asOf);
    }
    SumZero(subs.Keys, OverdueOf(subs, asOf));
  }

  // ---------- the query for due subscriptions ----------

  function DueIds(subs: Subs, asOf: Instant): set<SubId>
    requires AllChargeable(subs)
  {
    set id | id in subs && Due(subs[id], asOf)
  }

  function ChargeAt(subs: Subs, id: SubId): Instant
    requires AllChargeable(subs) && id in subs
  {
    Stamp(subs[id].next)
  }

  function IdsOf(batch: seq<Snapshot>): set<SubId> {
    set s | s in batch :: s.id
  }

  /** At most `limit` due subscriptions, each once, earliest first; those left out are
      not earlier than those taken, and none is left out below the limit. */
  ghost predicate IsDueBatch(subs: Subs, asOf: Instant, limit: nat, batch: seq<Snapshot>)
    requires AllChargeable(subs)
  {
    var due := DueIds(subs, asOf);
    && (forall i :: 0 <= i < |batch| ==> batch[i].id in due && batch[i].sub == subs[batch[i].id])
    && (forall i, j :: 0 <= i < j < |batch| ==>
          batch[i].id != batch[j].id && ChargeAt(subs, batch[i].id) <= ChargeAt(subs, batch[j].id))
    && |batch| == (if |due| <= limit then |due| else limit)
    && (forall i, id :: 0 <= i < |batch| && id in due - IdsOf(batch) ==>
          ChargeAt(subs, batch[i].id) <= ChargeAt(subs, id))
  }

  predicate Earliest(subs: Subs, ids: set<SubId>, id: SubId)
    requires AllChargeable(subs) && ids <= subs.Keys
  {
    id in ids && forall other :: other in ids ==> ChargeAt(subs, id) <= ChargeAt(subs, other)
  }

  lemma {:induction false} EarliestExists(subs: Subs, ids: set<SubId>)
    requires AllChargeable(subs) && ids <= subs.Keys && ids != {}
    ensures exists id :: id in ids && Earliest(subs, ids, id)
  {
    hide ChargeAt;
    var some :| some in ids;
    if ids == {some} {
      assert Earliest(subs, ids, some);
    } else {
      EarliestExists(subs, ids - {some});
      var best :| best in ids - {some} && Earliest(subs, ids - {some}, best);
      var first := if ChargeAt(subs, some) <= ChargeAt(subs, best) then some else best;
      forall other | other in ids
        ensures ChargeAt(subs, first) <= ChargeAt(subs, other)
      {
        assert other != some ==> ChargeAt(subs, best) <= ChargeAt(subs, other);
      }
      assert Earliest(subs, ids, first);
    }
  }

  lemma IdsAppend(batch: seq<Snapshot>, s: Snapshot)
    ensures IdsOf(batch + [s]) == IdsOf(batch) + {s.id}
  {
    assert forall x :: x in batch + [s] <==> x in batch || x == s;
    assert s in batch + [s];
  }

  /** A batch taken from the due ones in order of time, and the ones still to take. */
  ghost predicate Taken(subs: Subs, due: set<SubId>, batch: seq<Snapshot>, rest: set<SubId>)
    requires AllChargeable(subs) && due <= subs.Keys
  {
    && rest == due - IdsOf(batch) && |batch| + |rest| == |due|
    && (forall i :: 0 <= i < |batch| ==> batch[i].id in due && batch[i].sub == subs[batch[i].id])
    && (forall i, j :: 0 <= i < j < |batch| ==>
          batch[i].id != batch[j].id && ChargeAt(subs, batch[i].id) <= ChargeAt(subs, batch[j].id))
    && (forall i, id :: 0 <= i < |batch| && id in rest ==> ChargeAt(subs, batch[i].id) <= ChargeAt(subs, id))
  }

  lemma NothingTaken(subs: Subs, due: set<SubId>)
    requires AllChargeable(subs) && due <= subs.Keys
    ensures Taken(subs, due, [], due)
  {
  }

  lemma TakeEarliest(subs: Subs, due: set<SubId>, batch: seq<Snapshot>, rest: set<SubId>, id: SubId)
    requires AllChargeable(subs) && due <= subs.Keys && Taken(subs, due, batch, rest)
    requires rest <= subs.Keys && Earliest(subs, rest, id)
    ensures Taken(subs, due, batch + [Snapshot(id, subs[id])], rest - {id})
  {
    hide ChargeAt, Chargeable, IdsOf;
    var s := Snapshot(id, subs[id]);
    var after := batch + [s];
    IdsAppend(batch, s);
    forall i | 0 <= i < |batch|
      ensures after[i] == batch[i] && batch[i].id != id
    {
      IdsHas(batch, i);
    }
    forall i, j | 0 <= i < j < |after|
      ensures after[i].id != after[j].id && ChargeAt(subs, after[i].id) <= ChargeAt(subs, after[j].id)
    {
      if j == |batch| {
        assert ChargeAt(subs, batch[i].id) <= ChargeAt(subs, id);
      }
    }
  }

  lemma IdsHas(batch: seq<Snapshot>, i: nat)
    requires i < |batch|
    ensures batch[i].id in IdsOf(batch)
  {
    assert batch[i] in batch;
  }

  lemma TakenIsDueBatch(subs: Subs, asOf: Instant, limit: nat, batch: seq<Snapshot>, rest: set<SubId>)
    requires AllChargeable(subs) && Taken(subs, DueIds(subs, asOf), batch, rest)
    requires |batch| <= limit && (rest == {} || |batch| == limit)
    ensures IsDueBatch(subs, asOf, limit, batch)
  {
    hide ChargeAt, Chargeable;
  }

  class SubStore {
    var subs: Subs
    var charges: seq<Charge>

    predicate Valid()
      reads this
    {
      AllChargeable(subs)
    }

    method DueSubscriptions(asOf: Instant, limit: int) returns (batch: seq<Snapshot>)
      requires Valid()
      ensures IsDueBatch(subs, asOf, if limit <= 0 || limit > 500 then 100 else limit, batch)
    {
      hide Taken, Earliest;
      var max: nat := if limit <= 0 || limit > 500 then 100 else limit;
      batch := [];
      var rest := DueIds(subs, asOf);
      NothingTaken(subs, rest);
      while rest != {} && |batch| < max
        invariant rest <= subs.Keys && |batch| <= max && Taken(subs, DueIds(subs, asOf), batch, rest)
        decreases rest
      {
        EarliestExists(subs, rest);
        var id :| id in rest && Earliest(subs, rest, id);
        TakeEarliest(subs, DueIds(subs, asOf), batch, rest, id);
        batch := batch + [Snapshot(id, subs[id])];
        rest := rest - {id};
      }
      TakenIsDueBatch(subs, asOf, max, batch, rest);
    }

    /** The shipped stores take no notice of the key. An outage shows as an error. */
    method CreatePayment(s: Snapshot, outage: bool) returns (ok: bool)
      modifies this`charges
      ensures ok == !outage
      ensures charges == if ok then old(charges) + [Charge(s.id, s.sub.cycle, s.sub.terms)] else old(charges)
    {
      ok := !outage;
      if ok {
        charges := charges + [Charge(s.id, s.sub.cycle, s.sub.terms)];
      }
    }

    /** A conditional update; matching no row is no error, an outage is one. */
    method AdvanceSubscription(id: SubId, cycle: nat, next: Time, outage: bool) returns (ok: bool)
      modifies this`subs
      ensures ok == !outage
      ensures subs == if ok then Move(old(subs), id, cycle, next) else old(subs)
    {
      ok := !outage;
      if ok && id in subs && subs[id].cycle == cycle {
        subs := subs[id := subs[id].(next := next, cycle := cycle + 1)];
      }
    }
  }

  /** Which of a charge's two store calls fails, if any. */
  datatype Outage = NoOutage | OnCreate | OnAdvance

  /** The subscriptions whose move never fails after a payment. */
  ghost function NeverStuck(outages: nat -> SubId -> Outage): SubId -> bool {
    (id: SubId) => forall k :: outages(k)(id) != OnAdvance
  }

  ghost function MoveWorks(outage: SubId -> Outage): SubId -> bool {
    (id: SubId) => outage(id) != OnAdvance
  }

  class Cycler {
    const store: SubStore
    const batch: int

    constructor (store: SubStore, batch: int)
      ensures this.store == store && this.batch == if batch <= 0 then 100 else batch
    {
      this.store := store;
      this.batch := if batch <= 0 then 100 else batch;
    }

    /** Charge first, then move on: a failure in between repeats the charge later, and
        never skips it. */
    method ChargeOne(s: Snapshot, outage: Outage) returns (ok: bool)
      requires Chargeable(s.sub)
      modifies store
      ensures ok <==> outage == NoOutage
      ensures store.charges == if outage == OnCreate then old(store.charges)
                               else old(store.charges) + [Charge(s.id, s.sub.cycle, s.sub.terms)]
      ensures store.subs ==
              if ok then Move(old(store.subs), s.id, s.sub.cycle, Calendar.Advance(s.sub.cadence, s.sub.next))
              else old(store.subs)
    {
      ok := store.CreatePayment(s, outage == OnCreate);
      if !ok {
        return;
      }
      var nextAt := Calendar.Advance(s.sub.cadence, s.sub.next);
      ok := store.AdvanceSubscription(s.id, s.sub.cycle, nextAt, outage == OnAdvance);
    }

    /** One batch. Each success takes one overdue period off, and every cycle a
        subscription moves past gets exactly one payment, unless the move after a
        payment failed; whatever the batch size and whichever charges fail. */
    method Tick(asOf: Instant, outage: SubId -> Outage) returns (charged: nat)
      requires store.Valid()
      modifies store
      ensures store.Valid() && Progress(old(store.subs), store.subs, asOf)
      ensures TotalOverdue(store.subs, asOf) == old(TotalOverdue(store.subs, asOf)) - charged
      ensures OncePerCycle(old(store.subs), store.subs, old(store.charges), store.charges, MoveWorks(outage))
      ensures |store.charges| >= |old(store.charges)| + charged
      ensures (forall id :: outage(id) == NoOutage) && charged == 0 ==> TotalOverdue(store.subs, asOf) == 0
    {
      hide Stamp, TotalOverdue, Calendar.Advance, ValidTime, PeriodsDue, Progress, OncePerCycle;
      ghost var sure := MoveWorks(outage);
      var due := store.DueSubscriptions(asOf, batch);
      if due == [] {
        NoBatchNothingDue(store.subs, asOf, if batch <= 0 || batch > 500 then 100 else batch, due);
      }
      charged := 0;
      NothingServed(store.subs, store.charges, asOf, sure);
      for i := 0 to |due|
        invariant store.Valid()
        invariant store.subs.Keys == old(store.subs).Keys
        invariant forall k :: i <= k < |due| ==> store.subs[due[k].id] == due[k].sub
        invariant TotalOverdue(store.subs, asOf) == old(TotalOverdue(store.subs, asOf)) - charged
        invariant Progress(old(store.subs), store.subs, asOf)
        invariant OncePerCycle(old(store.subs), store.subs, old(store.charges), store.charges, sure)
        invariant |store.charges| >= |old(store.charges)| + charged
        invariant (forall id :: outage(id) == NoOutage) ==> charged == i
      {
        var s := due[i];
        assert s.id in DueIds(old(store.subs), asOf);
        ghost var before, charges := store.subs, store.charges;
        assert Chargeable(before[s.id]);
        var ok := ChargeOne(s, outage(s.id));
        if ok {
          ChargeTakesOnePeriod(before, s.id, asOf);
          assert store.subs == before[s.id := Advanced(before[s.id])];
          AdvancedIsChargeable(before[s.id]);
          ServeOne(old(store.subs), before, old(store.charges), charges, s, asOf, sure);
          charged := charged + 1;
        } else if outage(s.id) == OnAdvance {
          ChargeWithoutMove(old(store.subs), before, old(store.charges), charges, s, sure);
        }
      }
    }

    /** Ticks until one charges nothing; only then would the cycler sleep. With a fixed
        clock the non-empty ticks number at most the overdue periods there were. A
        subscription whose moves never fail gets exactly one payment for each cycle it
        moves past, and without outages it moves past all its overdue periods. */
    method Drain(asOf: Instant, outages: nat -> SubId -> Outage) returns (ticks: nat, total: nat)
      requires store.Valid()
      modifies store
      ensures store.Valid()
      ensures ticks <= total == old(TotalOverdue(store.subs, asOf)) - TotalOverdue(store.subs, asOf)
      ensures total <= old(TotalOverdue(store.subs, asOf))
      ensures OncePerCycle(old(store.subs), store.subs, old(store.charges), store.charges, NeverStuck(outages))
      ensures |store.charges| >= |old(store.charges)| + total
      ensures (forall k, id :: outages(k)(id) == NoOutage) ==>
                TotalOverdue(store.subs, asOf) == 0
                && forall id :: id in old(store.subs) ==>
                     && id in store.subs
                     && store.subs[id].cycle == old(store.subs)[id].cycle + Overdue(old(store.subs)[id], asOf)
    {
      hide TotalOverdue, Progress, OncePerCycle, Overdue;
      ticks, total := 0, 0;
      ghost var sure := NeverStuck(outages);
      TotalIsNatural(store.subs, asOf);
      NothingServed(store.subs, store.charges, asOf, sure);
      while true
        invariant store.Valid() && ticks <= total
        invariant total == old(TotalOverdue(store.subs, asOf)) - TotalOverdue(store.subs, asOf)
        invariant Progress(old(store.subs), store.subs, asOf)
        invariant OncePerCycle(old(store.subs), store.subs, old(store.charges), store.charges, sure)
        invariant |store.charges| >= |old(store.charges)| + total
        invariant TotalOverdue(store.subs, asOf) >= 0
        decreases TotalOverdue(store.subs, asOf)
      {
        ghost var before, charges := store.subs, store.charges;
        var n := Tick(asOf, outages(ticks));
        ghost var now := outages(ticks);
        TotalIsNatural(store.subs, asOf);
        ServedTwice(old(store.subs), before, store.subs, old(store.charges), charges, store.charges, asOf,
                    sure, MoveWorks(now));
        total := total + n;
        if n == 0 {
          if TotalOverdue(store.subs, asOf) == 0 {
            DrainedExactly(old(store.subs), store.subs, asOf);
          }
          return;
        }
        ticks := ticks + 1;
      }
    }
  }

  lemma AdvancedIsChargeable(s: Sub)
    requires Chargeable(s)
    ensures Chargeable(Advanced(s))
  {
  }

  lemma NoBatchNothingDue(subs: Subs, asOf: Instant, limit: nat, due: seq<Snapshot>)
    requires AllChargeable(subs) && due == [] && limit > 0 && IsDueBatch(subs, asOf, limit, due)
    ensures TotalOverdue(subs, asOf) == 0
  {
    assert DueIds(subs, asOf) == {};
    forall id | id in subs
      ensures !Due(subs[id], asOf)
    {
      assert id !in DueIds(subs, asOf);
    }
    NothingDueNothingOverdue(subs, asOf);
  }
}
