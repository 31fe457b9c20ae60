/** Charging subscriptions with several workers.

    A worker reads due subscriptions into a private list of snapshots; for each it
    creates a payment under a key that names the subscription and the cycle, and then
    moves the subscription on, if it still stands at that cycle. Workers interleave,
    crash and restart at any point.

    Whether creating a payment honours its key is a parameter: the shipped stores
    ignore it, the contract the cycler relies on does not. */
module Charging {
  import opened Domain
  import opened Calendar
  import opened Sums

  type SubId = nat
  type WorkerId = nat

  datatype SubStatus = Active | Cancelled

  /** What a subscription charges, when it started, and where it stands. */
  datatype Sub = Sub(terms: PaymentInput, cadence: Cadence, start: Time, status: SubStatus, next: Time, cycle: nat)

  /** A payment a cycler created: for which subscription and cycle, and on what terms. */
  datatype Charge = Charge(sub: SubId, cycle: nat, terms: PaymentInput)

  /** A subscription as a worker read it. */
  datatype Snapshot = Snapshot(id: SubId, sub: Sub)

  /** The unread rest of a batch; `charged` once the first of it has its payment and
      only the move to the next cycle is left to do. */
  datatype Worker = Worker(batch: seq<Snapshot>, charged: bool)

  datatype World = World(subs: map<SubId, Sub>, charges: seq<Charge>, workers: map<WorkerId, Worker>)

  const NO_SUBS := World(map[], [], map[])

  datatype Action =
    | Subscribe(id: SubId, terms: PaymentInput, cadence: Cadence, start: Time)
    | Cancel(id: SubId)
    | Fetch(worker: WorkerId, batch: seq<Snapshot>)
    | CreatePayment(worker: WorkerId)
    | Advance(worker: WorkerId)
    | Skip(worker: WorkerId)
    | Crash(worker: WorkerId)

  /** A batch holds snapshots of active subscriptions, as they stand. */
  predicate Current(w: World, batch: seq<Snapshot>) {
    forall i :: 0 <= i < |batch| ==>
      batch[i].id in w.subs && w.subs[batch[i].id] == batch[i].sub && batch[i].sub.status == Active
  }

  predicate Busy(w: World, worker: WorkerId) {
    worker in w.workers && w.workers[worker].batch != []
  }

  function Head(w: World, worker: WorkerId): Snapshot
    requires Busy(w, worker)
  {
    w.workers[worker].batch[0]
  }

  /** Skip stands for an error from either store call: the worker turns to the next. */
  predicate Enabled(w: World, a: Action) {
    match a
    case Subscribe(id, _, cadence, start) => id !in w.subs && cadence.Valid() && ValidTime(start)
    case Cancel(id) => id in w.subs
    case Fetch(worker, batch) => !Busy(w, worker) && Current(w, batch)
    case CreatePayment(worker) => Busy(w, worker) && !w.workers[worker].charged
    case Advance(worker) => Busy(w, worker) && w.workers[worker].charged && ValidTime(Head(w, worker).sub.next)
    case Skip(worker) => Busy(w, worker)
    case Crash(worker) => worker in w.workers
  }

  predicate Has(charges: seq<Charge>, id: SubId, cycle: nat) {
    exists i :: 0 <= i < |charges| && charges[i].sub == id && charges[i].cycle == cycle
  }

  /** A store that honours keys replays a payment it already has. */
  function Create(charges: seq<Charge>, honoured: bool, s: Snapshot): seq<Charge> {
    if honoured && Has(charges, s.id, s.sub.cycle) then charges
    else charges + [Charge(s.id, s.sub.cycle, s.sub.terms)]
  }

  /** Compare-and-set on the cycle. */
  function Move(subs: map<SubId, Sub>, id: SubId, cycle: nat, next: Time): map<SubId, Sub> {
    if id in subs && subs[id].cycle == cycle
    then subs[id := subs[id].(next := next, cycle := cycle + 1)]
    else subs
  }

  function Drop(w: World, worker: WorkerId): map<WorkerId, Worker>
    requires Busy(w, worker)
  {
    w.workers[worker := Worker(w.workers[worker].batch[1..], false)]
  }

  function Act(w: World, honoured: bool, a: Action): World
    requires Enabled(w, a)
  {
    match a
    case Subscribe(id, terms, cadence, start) =>
      w.(subs := w.subs[id := Sub(terms, cadence, start, Active, start, 0)])
    case Cancel(id) => w.(subs := w.subs[id := w.subs[id].(status := Cancelled)])
    case Fetch(worker, batch) => w.(workers := w.workers[worker := Worker(batch, false)])
    case CreatePayment(worker) =>
      w.(charges := Create(w.charges, honoured, Head(w, worker)),
         workers := w.workers[worker := w.workers[worker].(charged := true)])
    case Advance(worker) =>
      var s := Head(w, worker);
      w.(subs := Move(w.subs, s.id, s.sub.cycle, Calendar.Advance(s.sub.cadence, s.sub.next)), workers := Drop(w, worker))
    case Skip(worker) => w.(workers := Drop(w, worker))
    case Crash(worker) => w.(workers := w.workers - {worker})
  }

  // ---------- schedule integrity ----------

  /** The next charge time is the cadence applied as often as cycles have passed. */
  predicate OnSchedule(s: Sub) {
    ValidTime(s.start) && s.cadence.Valid() && s.next == At(s.cadence, s.start, s.cycle)
  }

  /** A snapshot is of an existing subscription, on the same terms, not ahead of it. */
  predicate Stale(w: World, s: Snapshot) {
    && OnSchedule(s.sub) && s.id in w.subs
    && var now := w.subs[s.id];
    && now.terms == s.sub.terms && now.cadence == s.sub.cadence && now.start == s.sub.start
    && s.sub.cycle <= now.cycle
  }

  /** In spite of all races: every subscription and every snapshot any worker holds is
      on schedule, so no cycle is skipped or shifted. */
  predicate Scheduled(w: World) {
    && (forall id :: id in w.subs ==> OnSchedule(w.subs[id]))
    && (forall worker :: worker in w.workers ==>
          forall i :: 0 <= i < |w.workers[worker].batch| ==> Stale(w, w.workers[worker].batch[i]))
  }

  lemma ScheduledHeads(w: World)
    requires Scheduled(w)
    ensures forall worker :: Busy(w, worker) ==>
              && Stale(w, Head(w, worker)) && ValidTime(Head(w, worker).sub.next)
              && Head(w, worker).id in w.subs && Head(w, worker).sub.cycle <= w.subs[Head(w, worker).id].cycle
  {
  }

  /** Subscriptions keep their terms and never move back. */
  predicate Forward(w: World, v: World) {
    forall id :: id in w.subs ==>
      && id in v.subs && v.subs[id].terms == w.subs[id].terms && v.subs[id].cadence == w.subs[id].cadence
      && v.subs[id].start == w.subs[id].start && w.subs[id].cycle <= v.subs[id].cycle
  }

  lemma StaleStays(w: World, v: World, s: Snapshot)
    requires Stale(w, s) && Forward(w, v)
    ensures Stale(v, s)
  {
  }

  lemma SubsAfter(w: World, honoured: bool, a: Action)
    requires Scheduled(w) && Enabled(w, a)
    ensures var v := Act(w, honoured, a);
            Forward(w, v) && forall id :: id in v.subs ==> OnSchedule(v.subs[id])
  {
    hide ValidTime, Calendar.Advance, Stale;
    ScheduledHeads(w);
    if a.Advance? {
      var s := Head(w, a.worker);
      StaleParts(w, s);
      if w.subs[s.id].cycle == s.sub.cycle {
        NextOnSchedule(w.subs[s.id], s.sub);
      }
    }
  }

  lemma StaleParts(w: World, s: Snapshot)
    requires Stale(w, s)
    ensures s.id in w.subs && OnSchedule(s.sub)
    ensures w.subs[s.id].cadence == s.sub.cadence && w.subs[s.id].start == s.sub.start
  {
  }

  /** A subscription still at the snapshot's cycle moves on to the next charge time. */
  lemma NextOnSchedule(now: Sub, s: Sub)
    requires now.cadence == s.cadence && now.start == s.start && now.cycle == s.cycle
    ensures OnSchedule(now) && OnSchedule(s) ==>
              && ValidTime(s.next)
              && OnSchedule(now.(next := Calendar.Advance(s.cadence, s.next), cycle := s.cycle + 1))
  {
  }

  lemma ActKeepsSchedule(w: World, honoured: bool, a: Action)
    requires Scheduled(w) && Enabled(w, a)
    ensures Scheduled(Act(w, honoured, a))
  {
    hide Stale, OnSchedule, Forward, ValidTime, Calendar.Advance;
    ScheduledHeads(w);
    SubsAfter(w, honoured, a);
    var v := Act(w, honoured, a);
    forall worker, i | worker in v.workers && 0 <= i < |v.workers[worker].batch|
      ensures Stale(v, v.workers[worker].batch[i])
    {
      var s := v.workers[worker].batch[i];
      if a.Fetch? && worker == a.worker {
        FreshIsStale(w, s);
      } else {
        assert s == w.workers[worker].batch[i] || s == w.workers[worker].batch[i + 1];
      }
      StaleStays(w, v, s);
    }
  }

  lemma FreshIsStale(w: World, s: Snapshot)
    requires s.id in w.subs && w.subs[s.id] == s.sub && OnSchedule(s.sub)
    ensures Stale(w, s)
  {
  }

  // ---------- charging ----------

  function Count(charges: seq<Charge>, id: SubId, cycle: nat): nat {
    if charges == [] then 0
    else Count(charges[..|charges| - 1], id, cycle)
         + (if charges[|charges| - 1].sub == id && charges[|charges| - 1].cycle == cycle then 1 else 0)
  }

  lemma {:induction false} HasIsPositive(charges: seq<Charge>, id: SubId, cycle: nat)
    ensures Has(charges, id, cycle) <==> Count(charges, id, cycle) > 0
  {
    if charges != [] {
      var init := charges[..|charges| - 1];
      HasIsPositive(init, id, cycle);
      if Has(charges, id, cycle) {
        var i :| 0 <= i < |charges| && charges[i].sub == id && charges[i].cycle == cycle;
        if i < |charges| - 1 {
          assert init[i] == charges[i];
        }
      }
    }
  }

  lemma CountCreate(charges: seq<Charge>, honoured: bool, s: Snapshot, id: SubId, cycle: nat)
    ensures var after := Create(charges, honoured, s);
            Count(after, id, cycle) == Count(charges, id, cycle)
              + if id == s.id && cycle == s.sub.cycle && !(honoured && Count(charges, id, cycle) > 0) then 1 else 0
  {
    HasIsPositive(charges, s.id, s.sub.cycle);
    var c := Charge(s.id, s.sub.cycle, s.sub.terms);
    assert (charges + [c])[..|charges|] == charges;
  }

  /** A subscription standing at cycle k has a payment for every cycle below k and none
      beyond k; with keys honoured, never two for one cycle. */
  ghost predicate Charged(w: World, honoured: bool) {
    && (forall id, cycle: nat :: id in w.subs ==>
          && (cycle < w.subs[id].cycle ==> Count(w.charges, id, cycle) >= 1)
          && (cycle > w.subs[id].cycle ==> Count(w.charges, id, cycle) == 0)
          && (honoured ==> Count(w.charges, id, cycle) <= 1))
    && (forall id, cycle: nat :: id !in w.subs ==> Count(w.charges, id, cycle) == 0)
    && (forall worker :: Busy(w, worker) && w.workers[worker].charged ==>
          Count(w.charges, Head(w, worker).id, Head(w, worker).sub.cycle) >= 1)
    && (forall i :: 0 <= i < |w.charges| ==>
          w.charges[i].sub in w.subs && w.charges[i].terms == w.subs[w.charges[i].sub].terms)
  }

  lemma CreateKeepsCharged(w: World, honoured: bool, worker: WorkerId)
    requires Charged(w, honoured) && Busy(w, worker) && Stale(w, Head(w, worker))
    ensures Charged(w.(charges := Create(w.charges, honoured, Head(w, worker)),
                       workers := w.workers[worker := w.workers[worker].(charged := true)]), honoured)
  {
    hide OnSchedule, Count, Create;
    var s := Head(w, worker);
    var after := Create(w.charges, honoured, s);
    forall id, cycle: nat
      ensures Count(after, id, cycle) == Count(w.charges, id, cycle)
                + if id == s.id && cycle == s.sub.cycle && !(honoured && Count(w.charges, id, cycle) > 0) then 1 else 0
    {
      CountCreate(w.charges, honoured, s, id, cycle);
    }
    TermsCreate(w, honoured, s);
  }

  lemma AdvanceKeepsCharged(w: World, honoured: bool, worker: WorkerId, subs: map<SubId, Sub>)
    requires Charged(w, honoured) && Busy(w, worker) && w.workers[worker].charged && Head(w, worker).id in w.subs
    requires exists next :: subs == Move(w.subs, Head(w, worker).id, Head(w, worker).sub.cycle, next)
    ensures Charged(w.(subs := subs, workers := Drop(w, worker)), honoured)
  {
    hide Count;
    assert Count(w.charges, Head(w, worker).id, Head(w, worker).sub.cycle) >= 1;
  }

  lemma ActKeepsCharged(w: World, honoured: bool, a: Action)
    requires Scheduled(w) && Charged(w, honoured) && Enabled(w, a)
    ensures Charged(Act(w, honoured, a), honoured)
  {
    hide OnSchedule, Stale, ValidTime, Calendar.Advance, Count, Create, Scheduled;
    ScheduledHeads(w);
    if a.CreatePayment? {
      CreateKeepsCharged(w, honoured, a.worker);
    } else if a.Advance? {
      AdvanceKeepsCharged(w, honoured, a.worker, Act(w, honoured, a).subs);
    }
  }

  lemma TermsCreate(w: World, honoured: bool, s: Snapshot)
    requires Stale(w, s)
    requires forall i :: 0 <= i < |w.charges| ==>
               w.charges[i].sub in w.subs && w.charges[i].terms == w.subs[w.charges[i].sub].terms
    ensures var after := Create(w.charges, honoured, s);
            forall i :: 0 <= i < |after| ==> after[i].sub in w.subs && after[i].terms == w.subs[after[i].sub].terms
  {
  }

  // ---------- whole runs ----------

  ghost predicate EnabledRun(w: World, honoured: bool, actions: seq<Action>)
    decreases |actions|
  {
    actions == [] || (Enabled(w, actions[0]) && EnabledRun(Act(w, honoured, actions[0]), honoured, actions[1..]))
  }

  ghost function ActAll(w: World, honoured: bool, actions: seq<Action>): World
    requires EnabledRun(w, honoured, actions)
    decreases |actions|
  {
    if actions == [] then w else ActAll(Act(w, honoured, actions[0]), honoured, actions[1..])
  }

  lemma {:induction false} RunIsSafe(w: World, honoured: bool, actions: seq<Action>)
    requires Scheduled(w) && Charged(w, honoured) && EnabledRun(w, honoured, actions)
    ensures Scheduled(ActAll(w, honoured, actions)) && Charged(ActAll(w, honoured, actions), honoured)
    decreases |actions|
  {
    hide Scheduled, Charged, Enabled, Act;
    if actions != [] {
      ActKeepsSchedule(w, honoured, actions[0]);
      ActKeepsCharged(w, honoured, actions[0]);
      RunIsSafe(Act(w, honoured, actions[0]), honoured, actions[1..]);
    }
  }

  lemma NoSubsIsSafe(honoured: bool)
    ensures Scheduled(NO_SUBS) && Charged(NO_SUBS, honoured)
  {
  }

  /** Schedule integrity: after any run of any workers, every subscription's next charge
      time is its cadence applied cycle-many times to its start, and so is every
      snapshot's. */
  lemma ScheduleIntegrity(honoured: bool, actions: seq<Action>, id: SubId)
    requires EnabledRun(NO_SUBS, honoured, actions)
    ensures var w := ActAll(NO_SUBS, honoured, actions);
            && (id in w.subs ==> OnSchedule(w.subs[id]))
            && forall worker :: worker in w.workers ==>
                 forall i :: 0 <= i < |w.workers[worker].batch| ==> OnSchedule(w.workers[worker].batch[i].sub)
  {
    hide ActAll, EnabledRun, OnSchedule;
    NoSubsIsSafe(honoured);
    RunIsSafe(NO_SUBS, honoured, actions);
    var w := ActAll(NO_SUBS, honoured, actions);
    forall worker, i | worker in w.workers && 0 <= i < |w.workers[worker].batch|
      ensures OnSchedule(w.workers[worker].batch[i].sub)
    {
      assert Stale(w, w.workers[worker].batch[i]);
    }
  }

  /** After any run, a worker that has booked its payment can move on: the step that
      follows a payment is never refused. */
  lemma AdvanceIsNeverRefused(honoured: bool, actions: seq<Action>, worker: WorkerId)
    requires EnabledRun(NO_SUBS, honoured, actions)
    requires Busy(ActAll(NO_SUBS, honoured, actions), worker)
    requires ActAll(NO_SUBS, honoured, actions).workers[worker].charged
    ensures Enabled(ActAll(NO_SUBS, honoured, actions), Advance(worker))
  {
    hide ActAll, EnabledRun;
    NoSubsIsSafe(honoured);
    RunIsSafe(NO_SUBS, honoured, actions);
    ScheduledHeads(ActAll(NO_SUBS, honoured, actions));
  }

  /** One payment for each cycle below the one a subscription stands at, at most one
      for that one, none beyond, none for anything else. */
  ghost predicate ExactCharges(w: World) {
    && (forall id, cycle: nat :: id in w.subs ==>
          && (cycle < w.subs[id].cycle ==> Count(w.charges, id, cycle) == 1)
          && (cycle == w.subs[id].cycle ==> Count(w.charges, id, cycle) <= 1)
          && (cycle > w.subs[id].cycle ==> Count(w.charges, id, cycle) == 0))
    && (forall id, cycle: nat :: id !in w.subs ==> Count(w.charges, id, cycle) == 0)
  }

  /** Exactly-once charging: with keys honoured, over any interleaving, crash and
      restart, every charge is exact. */
  lemma ExactlyOnce(actions: seq<Action>)
    requires EnabledRun(NO_SUBS, true, actions)
    ensures ExactCharges(ActAll(NO_SUBS, true, actions))
  {
    hide ActAll, EnabledRun, Count;
    NoSubsIsSafe(true);
    RunIsSafe(NO_SUBS, true, actions);
  }

  /** At-least-once charging: the shipped stores ignore the key; each cycle below k
      still has a payment, and none beyond k has. */
  lemma AtLeastOnce(actions: seq<Action>, id: SubId, cycle: nat)
    requires EnabledRun(NO_SUBS, false, actions)
    ensures var w := ActAll(NO_SUBS, false, actions);
            id in w.subs ==>
              && (cycle < w.subs[id].cycle ==> Count(w.charges, id, cycle) >= 1)
              && (cycle > w.subs[id].cycle ==> Count(w.charges, id, cycle) == 0)
  {
    hide ActAll, EnabledRun, Count;
    NoSubsIsSafe(false);
    RunIsSafe(NO_SUBS, false, actions);
  }

  // ---------- when the shipped stores charge exactly once ----------

  ghost predicate AtMostOnce(charges: seq<Charge>) {
    forall id, cycle: nat :: Count(charges, id, cycle) <= 1
  }

  /** The guard a key-honouring store would apply: this step finds its cycle's payment
      already there. */
  predicate Repeats(w: World, a: Action) {
    a.CreatePayment? && Enabled(w, a) && Has(w.charges, Head(w, a.worker).id, Head(w, a.worker).sub.cycle)
  }

  /** No step of the run meets the guard. */
  ghost predicate NeverRepeats(w: World, actions: seq<Action>)
    requires EnabledRun(w, false, actions)
    decreases |actions|
  {
    actions == [] || (!Repeats(w, actions[0]) && NeverRepeats(Act(w, false, actions[0]), actions[1..]))
  }

  /** One step on a shipped store doubles a charge exactly when it meets the guard. */
  lemma StepRepeatsIff(w: World, a: Action)
    requires Enabled(w, a) && AtMostOnce(w.charges)
    ensures AtMostOnce(Act(w, false, a).charges) <==> !Repeats(w, a)
  {
    hide Count, Has, Create, Calendar.Advance, ValidTime;
    if a.CreatePayment? {
      var s := Head(w, a.worker);
      var after := Create(w.charges, false, s);
      HasIsPositive(w.charges, s.id, s.sub.cycle);
      forall id, cycle: nat
        ensures Count(after, id, cycle)
             == Count(w.charges, id, cycle) + if id == s.id && cycle == s.sub.cycle then 1 else 0
      {
        CountCreate(w.charges, false, s, id, cycle);
      }
    }
  }

  lemma {:induction false} ChargesOnlyGrow(w: World, actions: seq<Action>, id: SubId, cycle: nat)
    requires EnabledRun(w, false, actions)
    ensures Count(w.charges, id, cycle) <= Count(ActAll(w, false, actions).charges, id, cycle)
    decreases |actions|
  {
    hide Count, Create, Calendar.Advance, ValidTime;
    if actions != [] {
      var a := actions[0];
      if a.CreatePayment? {
        CountCreate(w.charges, false, Head(w, a.worker), id, cycle);
      }
      ChargesOnlyGrow(Act(w, false, a), actions[1..], id, cycle);
    }
  }

  /** A run on a shipped store charges nothing twice exactly when none of its creates
      finds the payment of its cycle already there. */
  lemma {:induction false} AtMostOnceIff(w: World, actions: seq<Action>)
    requires EnabledRun(w, false, actions) && AtMostOnce(w.charges)
    ensures AtMostOnce(ActAll(w, false, actions).charges) <==> NeverRepeats(w, actions)
    decreases |actions|
  {
    hide Act, Enabled, Count, Repeats;
    if actions != [] {
      var mid := Act(w, false, actions[0]);
      StepRepeatsIff(w, actions[0]);
      if AtMostOnce(mid.charges) {
        AtMostOnceIff(mid, actions[1..]);
      } else {
        var id, cycle: nat :| Count(mid.charges, id, cycle) > 1;
        ChargesOnlyGrow(mid, actions[1..], id, cycle);
      }
    }
  }

  /** The shipped stores, over any run: charging is exact if and only if no create meets
      the guard. */
  lemma ShippedExactlyOnceIff(actions: seq<Action>)
    requires EnabledRun(NO_SUBS, false, actions)
    ensures ExactCharges(ActAll(NO_SUBS, false, actions)) <==> NeverRepeats(NO_SUBS, actions)
  {
    hide ActAll, EnabledRun, NeverRepeats, Scheduled;
    NoSubsIsSafe(false);
    RunIsSafe(NO_SUBS, false, actions);
    assert AtMostOnce(NO_SUBS.charges);
    AtMostOnceIff(NO_SUBS, actions);
    ExactIffAtMostOnce(ActAll(NO_SUBS, false, actions));
  }

  lemma ExactIffAtMostOnce(w: World)
    requires Charged(w, false)
    ensures ExactCharges(w) <==> AtMostOnce(w.charges)
  {
    hide Count;
  }

  /** One more step at the end of a run. */
  lemma {:induction false} OneMore(w: World, honoured: bool, actions: seq<Action>, a: Action)
    requires EnabledRun(w, honoured, actions) && Enabled(ActAll(w, honoured, actions), a)
    ensures EnabledRun(w, honoured, actions + [a])
    ensures ActAll(w, honoured, actions + [a]) == Act(ActAll(w, honoured, actions), honoured, a)
    decreases |actions|
  {
    hide Enabled, Act;
    if actions == [] {
      assert [] + [a] == [a] && [a][1..] == [];
    } else {
      assert (actions + [a])[0] == actions[0] && (actions + [a])[1..] == actions[1..] + [a];
      OneMore(Act(w, honoured, actions[0]), honoured, actions[1..], a);
    }
  }

  /** A worker that crashes between its two writes and starts over. */
  lemma ChargeAndCrash(actions: seq<Action>, s: Snapshot) returns (longer: seq<Action>)
    requires EnabledRun(NO_SUBS, false, actions)
    requires var w := ActAll(NO_SUBS, false, actions);
             w.workers == map[] && s.id in w.subs && w.subs[s.id] == s.sub && s.sub.status == Active
    ensures EnabledRun(NO_SUBS, false, longer)
    ensures ActAll(NO_SUBS, false, longer)
         == ActAll(NO_SUBS, false, actions).(
              charges := ActAll(NO_SUBS, false, actions).charges + [Charge(s.id, s.sub.cycle, s.sub.terms)])
  {
    hide EnabledRun, ActAll, ValidTime, Calendar.Advance, Has;
    var w := ActAll(NO_SUBS, false, actions);
    OneMore(NO_SUBS, false, actions, Fetch(0, [s]));
    var fetched := actions + [Fetch(0, [s])];
    assert Act(w, false, Fetch(0, [s])).workers == map[0 := Worker([s], false)];
    OneMore(NO_SUBS, false, fetched, CreatePayment(0));
    OneMore(NO_SUBS, false, fetched + [CreatePayment(0)], Crash(0));
    longer := fetched + [CreatePayment(0)] + [Crash(0)];
    assert ActAll(NO_SUBS, false, longer).workers == map[];
  }

  /** No bound holds without honoured keys: for every n some run of one worker, which
      keeps crashing between its two writes, charges the first cycle n times. */
  lemma {:induction false} DuplicatesWithoutKeys(n: nat, terms: PaymentInput, start: Time) returns (actions: seq<Action>)
    requires ValidTime(start)
    ensures EnabledRun(NO_SUBS, false, actions)
    ensures var w := ActAll(NO_SUBS, false, actions);
            && w.subs == map[0 := Sub(terms, Monthly, start, Active, start, 0)] && w.workers == map[]
            && Count(w.charges, 0, 0) == n
  {
    hide EnabledRun, ActAll, ValidTime, Calendar.Advance, Count;
    var s := Snapshot(0, Sub(terms, Monthly, start, Active, start, 0));
    if n == 0 {
      actions := [Subscribe(0, terms, Monthly, start)];
      NoActions();
      OneMore(NO_SUBS, false, [], actions[0]);
      assert [] + [actions[0]] == actions;
      NoCharges();
    } else {
      var shorter := DuplicatesWithoutKeys(n - 1, terms, start);
      actions := ChargeAndCrash(shorter, s);
      CountCreate(ActAll(NO_SUBS, false, shorter).charges, false, s, 0, 0);
    }
  }

  lemma NoActions()
    ensures EnabledRun(NO_SUBS, false, []) && ActAll(NO_SUBS, false, []) == NO_SUBS
  {
  }

  lemma NoCharges()
    ensures Count([], 0, 0) == 0
  {
  }

  // ---------- cancelled subscriptions ----------

  /** How many snapshots of a subscription a list holds. */
  function Copies(batch: seq<Snapshot>, id: SubId): nat {
    if batch == [] then 0 else (if batch[0].id == id then 1 else 0) + Copies(batch[1..], id)
  }

  /** Of those a worker holds, the ones it has not charged yet. */
  function ToCharge(worker: Worker, id: SubId): nat {
    Copies(if worker.charged && worker.batch != [] then worker.batch[1..] else worker.batch, id)
  }

  ghost function HeldBy(w: World, id: SubId): WorkerId -> int {
    (worker: WorkerId) => if worker in w.workers then ToCharge(w.workers[worker], id) else 0
  }

  /** The snapshots of a subscription that any worker still has to charge. */
  ghost function Held(w: World, id: SubId): int {
    Sum(w.workers.Keys, HeldBy(w, id))
  }

  function ChargesOf(charges: seq<Charge>, id: SubId): nat {
    if charges == [] then 0
    else ChargesOf(charges[..|charges| - 1], id) + if charges[|charges| - 1].sub == id then 1 else 0
  }

  /** A step that touches one worker moves the total by what it does to that worker. */
  lemma OneWorker(w: World, v: World, worker: WorkerId, id: SubId)
    requires forall other :: other != worker ==>
               && (other in v.workers <==> other in w.workers)
               && (other in w.workers ==> v.workers[other] == w.workers[other])
    ensures Held(v, id) == Held(w, id) + HeldBy(v, id)(worker) - HeldBy(w, id)(worker)
  {
    hide Sum, ToCharge;
    var all := w.workers.Keys + v.workers.Keys + {worker};
    SumExtraZeros(w.workers.Keys, all, HeldBy(w, id));
    SumExtraZeros(v.workers.Keys, all, HeldBy(v, id));
    SumUpdate(all, worker, HeldBy(w, id), HeldBy(v, id));
  }

  lemma {:induction false} ActiveOnly(w: World, batch: seq<Snapshot>, id: SubId)
    requires Current(w, batch) && id in w.subs && w.subs[id].status == Cancelled
    ensures Copies(batch, id) == 0
  {
    if batch != [] {
      assert forall i :: 0 <= i < |batch| - 1 ==> batch[1..][i] == batch[i + 1];
      assert batch[0].sub.status == Active && w.subs[batch[0].id] == batch[0].sub;
      ActiveOnly(w, batch[1..], id);
    }
  }

  lemma CreateAddsOne(charges: seq<Charge>, honoured: bool, s: Snapshot, id: SubId)
    ensures ChargesOf(Create(charges, honoured, s), id) <= ChargesOf(charges, id) + if s.id == id then 1 else 0
  {
    var c := Charge(s.id, s.sub.cycle, s.sub.terms);
    assert (charges + [c])[..|charges|] == charges;
  }

  /** The worker a step is about. */
  function Actor(a: Action): WorkerId {
    match a
    case Subscribe(_, _, _, _) => 0
    case Cancel(_) => 0
    case Fetch(worker, _) => worker
    case CreatePayment(worker) => worker
    case Advance(worker) => worker
    case Skip(worker) => worker
    case Crash(worker) => worker
  }

  lemma CancelledStep(w: World, honoured: bool, a: Action, id: SubId)
    requires Enabled(w, a) && id in w.subs && w.subs[id].status == Cancelled
    ensures var v := Act(w, honoured, a);
            && id in v.subs && v.subs[id].status == Cancelled
            && ChargesOf(v.charges, id) + Held(v, id) <= ChargesOf(w.charges, id) + Held(w, id)
    ensures a.Fetch? ==> forall i :: 0 <= i < |a.batch| ==> a.batch[i].id != id
  {
    hide Sum, Create, ValidTime, Calendar.Advance, ChargesOf, Held;
    var v := Act(w, honoured, a);
    OneWorker(w, v, Actor(a), id);
    if a.Fetch? {
      ActiveOnly(w, a.batch, id);
    } else if a.CreatePayment? {
      CreateAddsOne(w.charges, honoured, Head(w, a.worker), id);
    }
  }

  /** A batch fetched in the run shows the subscription. */
  predicate Fetches(a: Action, id: SubId) {
    a.Fetch? && exists i :: 0 <= i < |a.batch| && a.batch[i].id == id
  }

  /** Once cancelled, a subscription stays cancelled and is never fetched again; over any
      run it is charged at most once for each snapshot of it that a worker already held
      and had not charged, and with none held not at all. */
  lemma {:induction false} CancelledIsNotFetched(w: World, honoured: bool, actions: seq<Action>, id: SubId)
    requires EnabledRun(w, honoured, actions) && id in w.subs && w.subs[id].status == Cancelled
    ensures var v := ActAll(w, honoured, actions);
            && id in v.subs && v.subs[id].status == Cancelled
            && ChargesOf(v.charges, id) <= ChargesOf(w.charges, id) + Held(w, id)
    ensures forall k :: 0 <= k < |actions| ==> !Fetches(actions[k], id)
    decreases |actions|
  {
    hide Act, Enabled, Held, ChargesOf;
    if actions == [] {
      HeldIsNatural(w, id);
    } else {
      CancelledStep(w, honoured, actions[0], id);
      CancelledIsNotFetched(Act(w, honoured, actions[0]), honoured, actions[1..], id);
      assert forall k :: 0 < k < |actions| ==> actions[k] == actions[1..][k - 1];
    }
  }

  lemma HeldIsNatural(w: World, id: SubId)
    ensures Held(w, id) >= 0
  {
    hide Sum;
    SumNonNegative(w.workers.Keys, HeldBy(w, id));
  }
}
