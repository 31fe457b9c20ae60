/** The idempotency cache under concurrent requests.

    A request looks its key up, runs the handler unless a live record answers it, and
    then inserts a record. Requests interleave between those steps, die at any of them,
    and the clock moves. Records sit under the key header alone; bodies are compared,
    their hashes taken to be equal exactly when they are. */
module Replay {
  import opened Domain

  type Bytes = string
  type Key = string
  type RequestId = nat

  datatype Response = Response(status: nat, body: Bytes)

  /** A stored answer. The winner and its step are history only. */
  datatype Record = Record(request: Bytes, response: Response, expiresAt: Instant, winner: RequestId, step: nat)

  /** An unset expiry never expires. */
  const NEVER: Instant := 0

  predicate Expired(expiresAt: Instant, now: Instant) {
    expiresAt != NEVER && now > expiresAt
  }

  predicate Success(r: Response) {
    200 <= r.status < 300
  }

  // ---------- the decision every request takes ----------

  datatype Decision = RunHandler | ReplayIt(response: Response) | Conflict

  function Decide(found: Option<Record>, request: Bytes, now: Instant): Decision {
    match found
    case None => RunHandler
    case Some(rec) =>
      if Expired(rec.expiresAt, now) then RunHandler
      else if rec.request != request then Conflict
      else ReplayIt(rec.response)
  }

  // ---------- the protocol ----------

  /** Where a request stands; `looked` is the step of its lookup. */
  datatype Phase =
    | Ready
    | Running(looked: nat)
    | Answered(looked: nat, response: Response)
    | Finished(looked: nat, response: Response)
    | Dead(looked: nat)
    | Replayed(response: Response)
    | Refused

  datatype Request = Request(key: Key, body: Bytes, phase: Phase)

  datatype World = World(records: map<Key, Record>, requests: map<RequestId, Request>, now: Instant, step: nat)

  /** Vacuum is the document store's removal of expired records. */
  datatype Action =
    | Arrive(id: RequestId, key: Key, body: Bytes)
    | Lookup(id: RequestId)
    | Handle(id: RequestId, response: Response)
    | Put(id: RequestId, expiresAt: Instant, stored: bool)
    | Die(id: RequestId)
    | Vacuum(key: Key)
    | Wait(until: Instant)

  predicate In(w: World, id: RequestId, key: Key) {
    id in w.requests && w.requests[id].key == key
  }

  predicate Ran(p: Phase) {
    p.Running? || p.Answered? || p.Finished? || p.Dead?
  }

  predicate Enabled(w: World, a: Action) {
    match a
    case Arrive(id, _, _) => id !in w.requests
    case Lookup(id) => id in w.requests && w.requests[id].phase.Ready?
    case Handle(id, _) => id in w.requests && w.requests[id].phase.Running?
    case Put(id, _, _) => id in w.requests && w.requests[id].phase.Answered?
    case Die(id) => id in w.requests && (w.requests[id].phase.Running? || w.requests[id].phase.Answered?)
    case Vacuum(key) => key in w.records && Expired(w.records[key].expiresAt, w.now)
    case Wait(until) => w.now <= until
  }

  function Found(w: World, key: Key): Option<Record> {
    if key in w.records then Some(w.records[key]) else None
  }

  function PhaseAfter(d: Decision, step: nat): Phase {
    match d
    case RunHandler => Running(step)
    case ReplayIt(response) => Replayed(response)
    case Conflict => Refused
  }

  function Become(w: World, id: RequestId, p: Phase): map<RequestId, Request>
    requires id in w.requests
  {
    w.requests[id := w.requests[id].(phase := p)]
  }

  /** Only a successful response is kept, and only when the key has no record yet; an
      insert that finds one, or fails, changes nothing. */
  function Act(w: World, a: Action): World
    requires Enabled(w, a)
  {
    var v := w.(step := w.step + 1);
    match a
    case Arrive(id, key, body) => v.(requests := w.requests[id := Request(key, body, Ready)])
    case Lookup(id) =>
      var r := w.requests[id];
      v.(requests := Become(w, id, PhaseAfter(Decide(Found(w, r.key), r.body, w.now), w.step)))
    case Handle(id, response) => v.(requests := Become(w, id, Answered(w.requests[id].phase.looked, response)))
    case Put(id, expiresAt, stored) =>
      var r := w.requests[id];
      var response := r.phase.response;
      v.(requests := Become(w, id, Finished(r.phase.looked, response)),
         records := if stored && Success(response) && r.key !in w.records
                    then w.records[r.key := Record(r.body, response, expiresAt, id, w.step)] else w.records)
    case Die(id) => v.(requests := Become(w, id, Dead(w.requests[id].phase.looked)))
    case Vacuum(key) => v.(records := w.records - {key})
    case Wait(until) => v.(now := until)
  }

  // ---------- what every step keeps ----------

  /** A record is its winner's own successful response. */
  predicate Genuine(w: World, key: Key, rec: Record) {
    && In(w, rec.winner, key) && w.requests[rec.winner].body == rec.request && Success(rec.response)
    && w.requests[rec.winner].phase.Finished? && w.requests[rec.winner].phase.response == rec.response
    && rec.step < w.step
  }

  /** A request that ran the handler looked before the key's record was inserted, unless
      the record had expired. */
  predicate LookedEarly(w: World, id: RequestId)
    requires id in w.requests
  {
    var r := w.requests[id];
    Ran(r.phase) ==>
      && r.phase.looked < w.step
      && (r.key in w.records ==>
            r.phase.looked < w.records[r.key].step || Expired(w.records[r.key].expiresAt, w.now))
  }

  predicate Inv(w: World) {
    && (forall key :: key in w.records ==> Genuine(w, key, w.records[key]))
    && (forall id :: id in w.requests ==> LookedEarly(w, id))
  }

  lemma ActKeepsInv(w: World, a: Action)
    requires Inv(w) && Enabled(w, a)
    ensures Inv(Act(w, a))
  {
    hide Success, Expired;
    ExpiryIsFinal();
    var v := Act(w, a);
    forall key | key in v.records
      ensures Genuine(v, key, v.records[key])
    {
      if key in w.records && v.records[key] == w.records[key] {
        assert Genuine(w, key, w.records[key]);
      }
    }
    forall id | id in v.requests
      ensures LookedEarly(v, id)
    {
      assert id in w.requests ==> LookedEarly(w, id);
    }
  }

  lemma ExpiryIsFinal()
    ensures forall e, t, u :: Expired(e, t) && t <= u ==> Expired(e, u)
  {
  }

  // ---------- whole runs ----------

  ghost predicate EnabledRun(w: World, actions: seq<Action>)
    decreases |actions|
  {
    actions == [] || (Enabled(w, actions[0]) && EnabledRun(Act(w, actions[0]), actions[1..]))
  }

  ghost function ActAll(w: World, actions: seq<Action>): World
    requires EnabledRun(w, actions)
    decreases |actions|
  {
    if actions == [] then w else ActAll(Act(w, actions[0]), actions[1..])
  }

  lemma {:induction false} RunKeepsInv(w: World, actions: seq<Action>)
    requires Inv(w) && EnabledRun(w, actions)
    ensures Inv(ActAll(w, actions))
    decreases |actions|
  {
    hide Inv, Enabled, Act;
    if actions != [] {
      ActKeepsInv(w, actions[0]);
      RunKeepsInv(Act(w, actions[0]), actions[1..]);
    }
  }

  lemma {:induction false} ClockMovesForward(w: World, actions: seq<Action>)
    requires EnabledRun(w, actions)
    ensures w.now <= ActAll(w, actions).now
    decreases |actions|
  {
    if actions != [] {
      ClockMovesForward(Act(w, actions[0]), actions[1..]);
    }
  }

  /** How a request on a recorded key is answered when it looks while the record lives. */
  function AnswerFrom(rec: Record, body: Bytes): Phase {
    if body == rec.request then Replayed(rec.response) else Refused
  }

  predicate NotYetLooked(w: World, id: RequestId) {
    id !in w.requests || w.requests[id].phase.Ready?
  }

  /** Live-record replay. While a key's record is live, whatever else happens: the record
      is never overwritten or removed, and every request on the key that had not looked
      before still waits, or was answered without running the handler: with the winner's
      own status and bytes if its body is the same, with a conflict if not. */
  lemma {:induction false} LiveRecordReplay(w: World, actions: seq<Action>, key: Key, id: RequestId)
    requires Inv(w) && EnabledRun(w, actions) && key in w.records
    requires !Expired(w.records[key].expiresAt, ActAll(w, actions).now)
    ensures var v, rec := ActAll(w, actions), w.records[key];
            && key in v.records && v.records[key] == rec && Genuine(v, key, rec)
            && (NotYetLooked(w, id) && In(v, id, key) ==>
                  v.requests[id].phase == Ready || v.requests[id].phase == AnswerFrom(rec, v.requests[id].body))
    decreases |actions|
  {
    hide Success, Expired, Act, Enabled, Inv;
    if actions == [] {
      LiveRecordIsGenuine(w, key);
    } else {
      var mid := Act(w, actions[0]);
      ActKeepsInv(w, actions[0]);
      ClockMovesForward(w, actions);
      ClockMovesForward(mid, actions[1..]);
      ExpiryIsFinal();
      LiveRecordStep(w, actions[0], key, id);
      LiveRecordReplay(mid, actions[1..], key, id);
      if id in mid.requests {
        SettledStays(mid, actions[1..], id);
      }
    }
  }

  lemma LiveRecordIsGenuine(w: World, key: Key)
    requires Inv(w) && key in w.records
    ensures Genuine(w, key, w.records[key])
  {
  }

  lemma LiveRecordStep(w: World, a: Action, key: Key, id: RequestId)
    requires Enabled(w, a) && key in w.records && !Expired(w.records[key].expiresAt, w.now)
    ensures var v, rec := Act(w, a), w.records[key];
            && key in v.records && v.records[key] == rec
            && (NotYetLooked(w, id) && In(v, id, key) ==>
                  v.requests[id].phase == Ready || v.requests[id].phase == AnswerFrom(rec, v.requests[id].body))
            && (id in w.requests ==> id in v.requests && v.requests[id].key == w.requests[id].key)
  {
    hide Success, Expired;
  }

  /** A replayed or refused request stays as it is. */
  lemma {:induction false} SettledStays(w: World, actions: seq<Action>, id: RequestId)
    requires EnabledRun(w, actions) && id in w.requests
    ensures id in ActAll(w, actions).requests
    ensures var v := ActAll(w, actions);
            && v.requests[id].key == w.requests[id].key && v.requests[id].body == w.requests[id].body
            && (w.requests[id].phase.Replayed? || w.requests[id].phase.Refused? ==> v.requests[id] == w.requests[id])
    decreases |actions|
  {
    hide Success, Expired;
    if actions != [] {
      SettledStays(Act(w, actions[0]), actions[1..], id);
    }
  }

  function Runners(w: World, key: Key): set<RequestId> {
    set id | id in w.requests && In(w, id, key) && Ran(w.requests[id].phase)
  }

  function LookedBefore(w: World, key: Key, step: nat): set<RequestId> {
    set id | id in w.requests && In(w, id, key) && Ran(w.requests[id].phase) && w.requests[id].phase.looked < step
  }

  /** While a record is live, the requests on its key that ever ran the handler are
      those whose lookup came before the winner's insert: at most that many duplicates. */
  lemma DuplicatesPrecedeInsert(w: World, key: Key)
    requires Inv(w) && key in w.records && !Expired(w.records[key].expiresAt, w.now)
    ensures Runners(w, key) == LookedBefore(w, key, w.records[key].step)
    ensures w.records[key].winner in Runners(w, key)
  {
    hide Success, Expired;
    assert Genuine(w, key, w.records[key]);
    forall id | id in Runners(w, key)
      ensures id in LookedBefore(w, key, w.records[key].step)
    {
      assert LookedEarly(w, id);
    }
  }

  // ---------- expired records ----------

  predicate NoVacuum(actions: seq<Action>, key: Key) {
    forall i :: 0 <= i < |actions| ==> actions[i] != Vacuum(key)
  }

  /** On a store that keeps expired rows an expired key is not treated as new: the insert
      after expiry fails, the old record stays for good, and no later request on the key
      is ever answered from the cache. */
  lemma {:induction false} KeptExpiredRowNeverReplays(w: World, actions: seq<Action>, key: Key, id: RequestId)
    requires EnabledRun(w, actions) && NoVacuum(actions, key)
    requires key in w.records && Expired(w.records[key].expiresAt, w.now)
    ensures var v := ActAll(w, actions);
            && key in v.records && v.records[key] == w.records[key] && Expired(v.records[key].expiresAt, v.now)
            && (NotYetLooked(w, id) && In(v, id, key) ==> v.requests[id].phase == Ready || Ran(v.requests[id].phase))
    decreases |actions|
  {
    hide Success, Expired;
    if actions != [] {
      var mid := Act(w, actions[0]);
      ExpiryIsFinal();
      assert actions[0] != Vacuum(key);
      assert NoVacuum(actions[1..], key) by {
        assert forall i :: 0 <= i < |actions| - 1 ==> actions[1..][i] == actions[i + 1];
      }
      assert mid.records[key] == w.records[key];
      KeptExpiredRowNeverReplays(mid, actions[1..], key, id);
      if id in mid.requests {
        SettledStays(mid, actions[1..], id);
        if Ran(mid.requests[id].phase) {
          RunnersStay(mid, actions[1..], id);
        }
      }
    }
  }

  /** Who has run the handler stays someone who has. */
  lemma {:induction false} RunnersStay(w: World, actions: seq<Action>, id: RequestId)
    requires EnabledRun(w, actions) && id in w.requests && Ran(w.requests[id].phase)
    ensures id in ActAll(w, actions).requests && Ran(ActAll(w, actions).requests[id].phase)
    decreases |actions|
  {
    hide Success, Expired;
    if actions != [] {
      RunnersStay(Act(w, actions[0]), actions[1..], id);
    }
  }

  /** Records come in the order of the steps that insert them. */
  lemma {:induction false} RecordsNotOlder(w: World, actions: seq<Action>, key: Key, step: nat)
    requires EnabledRun(w, actions) && step <= w.step
    requires key in w.records ==> step <= w.records[key].step
    ensures var v := ActAll(w, actions); key in v.records ==> step <= v.records[key].step
    decreases |actions|
  {
    hide Success, Expired;
    if actions != [] {
      RecordsNotOlder(Act(w, actions[0]), actions[1..], key, step);
    }
  }

  /** Exactly a vacuum makes an expired key new: over any run its row is still there, as
      it was, if and only if the key was not vacuumed. Without that the row stays in the
      way of every insert. */
  lemma {:induction false} ExpiredRowStaysIff(w: World, actions: seq<Action>, key: Key)
    requires Inv(w) && EnabledRun(w, actions)
    requires key in w.records && Expired(w.records[key].expiresAt, w.now)
    ensures Found(ActAll(w, actions), key) == Some(w.records[key]) <==> NoVacuum(actions, key)
    decreases |actions|
  {
    hide Success, Expired;
    if actions != [] {
      var mid := Act(w, actions[0]);
      ActKeepsInv(w, actions[0]);
      ExpiryIsFinal();
      assert Genuine(w, key, w.records[key]);
      assert NoVacuum(actions, key) <==> actions[0] != Vacuum(key) && NoVacuum(actions[1..], key) by {
        assert forall i :: 0 < i < |actions| ==> actions[i] == actions[1..][i - 1];
        assert forall i :: 0 <= i < |actions| - 1 ==> actions[1..][i] == actions[i + 1];
      }
      if actions[0] == Vacuum(key) {
        RecordsNotOlder(mid, actions[1..], key, w.step);
      } else {
        assert mid.records[key] == w.records[key];
        ExpiredRowStaysIff(mid, actions[1..], key);
      }
    }
  }

  /** A request that looks an expired key up runs the handler whether or not the row was
      removed; but its successful insert leaves the key with a newer record exactly when
      the key was vacuumed before, and with its own exactly when no other came first. */
  lemma InsertRenewsIff(w: World, actions: seq<Action>, key: Key, id: RequestId, expiresAt: Instant)
    requires Inv(w) && EnabledRun(w, actions)
    requires key in w.records && Expired(w.records[key].expiresAt, w.now)
    requires var y := ActAll(w, actions);
             In(y, id, key) && y.requests[id].phase.Answered? && Success(y.requests[id].phase.response)
    ensures var y := ActAll(w, actions);
            var z := Act(y, Put(id, expiresAt, true));
            && key in z.records
            && (z.records[key] != w.records[key] <==> !NoVacuum(actions, key))
            && (z.records[key].step == y.step <==> key !in y.records)
            && (key !in y.records ==> z.records[key].winner == id)
  {
    hide Success, Expired, EnabledRun, ActAll;
    RunKeepsInv(w, actions);
    ExpiredRowStaysIff(w, actions, key);
    var y := ActAll(w, actions);
    assert key in y.records ==> Genuine(y, key, y.records[key]);
    assert Genuine(w, key, w.records[key]);
    if key !in y.records {
      RunCounts(w, actions);
    }
  }

  lemma {:induction false} RunCounts(w: World, actions: seq<Action>)
    requires EnabledRun(w, actions)
    ensures ActAll(w, actions).step == w.step + |actions|
    decreases |actions|
  {
    if actions != [] {
      RunCounts(Act(w, actions[0]), actions[1..]);
    }
  }

  /** A vacuumed key is new, from its next lookup on. Its row expired and gone at `x`, a
      request looks the key up, runs the handler, and inserts its successful response
      before anyone else does: as long as that record lives it stays, and every request
      on the key that had not looked before is answered from it. */
  lemma VacuumedKeyIsNew(w: World, before: seq<Action>, middle: seq<Action>, later: seq<Action>, key: Key,
                         id: RequestId, expiresAt: Instant, other: RequestId)
    requires Inv(w) && key in w.records && Expired(w.records[key].expiresAt, w.now)
    requires EnabledRun(w, before)
    requires var x := ActAll(w, before);
             && In(x, id, key) && x.requests[id].phase.Ready? && key !in x.records
             && EnabledRun(Act(x, Lookup(id)), middle)
    requires var y := ActAll(Act(ActAll(w, before), Lookup(id)), middle);
             && In(y, id, key) && y.requests[id].phase.Answered? && Success(y.requests[id].phase.response)
             && key !in y.records && EnabledRun(Act(y, Put(id, expiresAt, true)), later)
             && !Expired(expiresAt, ActAll(Act(y, Put(id, expiresAt, true)), later).now)
    ensures !NoVacuum(before, key)
    ensures Act(ActAll(w, before), Lookup(id)).requests[id].phase.Running?
    ensures var y := ActAll(Act(ActAll(w, before), Lookup(id)), middle);
            var z := Act(y, Put(id, expiresAt, true));
            var v, rec := ActAll(z, later), Record(y.requests[id].body, y.requests[id].phase.response, expiresAt, id, y.step);
            && key in v.records && v.records[key] == rec
            && (NotYetLooked(z, other) && In(v, other, key) ==>
                  v.requests[other].phase == Ready || v.requests[other].phase == AnswerFrom(rec, v.requests[other].body))
  {
    hide Success, Expired, EnabledRun, ActAll, Inv;
    ExpiredRowStaysIff(w, before, key);
    RunKeepsInv(w, before);
    var x := ActAll(w, before);
    ActKeepsInv(x, Lookup(id));
    RunKeepsInv(Act(x, Lookup(id)), middle);
    var y := ActAll(Act(x, Lookup(id)), middle);
    ActKeepsInv(y, Put(id, expiresAt, true));
    LiveRecordReplay(Act(y, Put(id, expiresAt, true)), later, key, other);
  }

  // ---------- from the start ----------

  lemma StartIsFine(now: Instant)
    ensures Inv(World(map[], map[], now, 0))
  {
  }

  /** In any run from an empty cache: a key with a live record has run the handler only
      for requests that looked before the winner's insert, and as long as the record
      lives it answers every later request on the key. */
  lemma ReplayFromTheStart(now: Instant, before: seq<Action>, later: seq<Action>, key: Key, id: RequestId)
    requires EnabledRun(World(map[], map[], now, 0), before)
    requires var w := ActAll(World(map[], map[], now, 0), before);
             && key in w.records && EnabledRun(w, later)
             && !Expired(w.records[key].expiresAt, ActAll(w, later).now)
    ensures var w := ActAll(World(map[], map[], now, 0), before);
            var v, rec := ActAll(w, later), w.records[key];
            && key in v.records && v.records[key] == rec
            && Runners(v, key) == LookedBefore(v, key, rec.step) && rec.winner in Runners(v, key)
            && (NotYetLooked(w, id) && In(v, id, key) ==>
                  v.requests[id].phase == Ready || v.requests[id].phase == AnswerFrom(rec, v.requests[id].body))
  {
    hide Success, Expired, EnabledRun, ActAll, Inv;
    StartIsFine(now);
    RunKeepsInv(World(map[], map[], now, 0), before);
    var w := ActAll(World(map[], map[], now, 0), before);
    RunKeepsInv(w, later);
    LiveRecordReplay(w, later, key, id);
    DuplicatesPrecedeInsert(ActAll(w, later), key);
  }

  // ---------- which answers are kept, and for how long ----------

  /** An insert on a free key keeps the response exactly when its status is in the 200s,
      with the request's own body; no other key and no existing record is touched. */
  lemma KeptIff2xx(w: World, id: RequestId, expiresAt: Instant)
    requires Enabled(w, Put(id, expiresAt, true))
    ensures var r, v := w.requests[id], Act(w, Put(id, expiresAt, true));
            var status := r.phase.response.status;
            && (forall key :: key in w.records ==> key in v.records && v.records[key] == w.records[key])
            && (forall key :: key in v.records && key != r.key ==> key in w.records)
            && (r.key !in w.records ==> (r.key in v.records <==> 200 <= status <= 299))
            && (r.key !in w.records && 200 <= status <= 299 ==>
                  v.records[r.key] == Record(r.body, r.phase.response, expiresAt, id, w.step))
  {
  }

  /** A handler's answer is the one its request finishes with, kept or not. */
  lemma HandledIsFinished(w: World, id: RequestId, response: Response, expiresAt: Instant, stored: bool)
    requires Enabled(w, Handle(id, response))
    ensures var v := Act(w, Handle(id, response));
            && Enabled(v, Put(id, expiresAt, stored))
            && v.requests[id].phase == Answered(w.requests[id].phase.looked, response)
            && v.records == w.records
            && Act(v, Put(id, expiresAt, stored)).requests[id].phase == Finished(w.requests[id].phase.looked, response)
            && (!stored ==> Act(v, Put(id, expiresAt, stored)).records == w.records)
  {
  }

  /** A finished request on the key whose own answer was in the 200s. */
  predicate AnsweredWell(w: World, id: RequestId, key: Key) {
    In(w, id, key) && w.requests[id].phase.Finished? && 200 <= w.requests[id].phase.response.status <= 299
  }

  /** Every answer not made by running the handler goes back to such a request: its
      response, when the bodies are the same, a conflict when they are not. */
  ghost predicate SecondHand(w: World, id: RequestId)
    requires id in w.requests
  {
    var r := w.requests[id];
    && (r.phase.Replayed? ==>
          exists winner :: AnsweredWell(w, winner, r.key) && w.requests[winner].body == r.body
                           && w.requests[winner].phase.response == r.phase.response)
    && (r.phase.Refused? ==> exists winner :: AnsweredWell(w, winner, r.key) && w.requests[winner].body != r.body)
  }

  ghost predicate AllSecondHand(w: World) {
    forall id :: id in w.requests ==> SecondHand(w, id)
  }

  lemma AnsweredWellStays(w: World, a: Action)
    requires Enabled(w, a)
    ensures forall id, key :: AnsweredWell(w, id, key) ==>
              AnsweredWell(Act(w, a), id, key) && Act(w, a).requests[id] == w.requests[id]
  {
    hide Success, Expired;
  }

  lemma LookupIsSecondHand(w: World, id: RequestId)
    requires Inv(w) && Enabled(w, Lookup(id))
    ensures SecondHand(Act(w, Lookup(id)), id)
  {
    hide Expired;
    AnsweredWellStays(w, Lookup(id));
    var key := w.requests[id].key;
    if key in w.records {
      assert Genuine(w, key, w.records[key]) && AnsweredWell(w, w.records[key].winner, key);
    }
  }

  lemma ActKeepsSecondHand(w: World, a: Action)
    requires Inv(w) && AllSecondHand(w) && Enabled(w, a)
    ensures AllSecondHand(Act(w, a))
  {
    hide Success, Expired, Inv, AnsweredWell, SecondHand;
    var v := Act(w, a);
    forall id | id in v.requests
      ensures SecondHand(v, id)
    {
      if a == Lookup(id) {
        LookupIsSecondHand(w, id);
      } else {
        SecondHandStays(w, a, id);
      }
    }
  }

  lemma SecondHandStays(w: World, a: Action, id: RequestId)
    requires Enabled(w, a) && id in Act(w, a).requests && a != Lookup(id)
    requires id in w.requests ==> SecondHand(w, id)
    ensures SecondHand(Act(w, a), id)
  {
    hide Success, Expired, AnsweredWell;
    AnsweredWellStays(w, a);
  }

  lemma {:induction false} RunKeepsSecondHand(w: World, actions: seq<Action>)
    requires Inv(w) && AllSecondHand(w) && EnabledRun(w, actions)
    ensures AllSecondHand(ActAll(w, actions))
    decreases |actions|
  {
    hide Inv, AllSecondHand, Enabled, Act;
    if actions != [] {
      ActKeepsInv(w, actions[0]);
      ActKeepsSecondHand(w, actions[0]);
      RunKeepsSecondHand(Act(w, actions[0]), actions[1..]);
    }
  }

  /** Over any run from an empty cache: a key has a record, and a request on it was
      replayed or refused, only if some request on it finished with a status in the 200s.
      As long as all its answers are outside, every lookup on it runs the handler. */
  lemma FailuresAreRetried(now: Instant, actions: seq<Action>, key: Key, id: RequestId)
    requires EnabledRun(World(map[], map[], now, 0), actions)
    ensures var w := ActAll(World(map[], map[], now, 0), actions);
            && (key in w.records ==> 200 <= w.records[key].response.status <= 299)
            && ((forall other :: In(w, other, key) && w.requests[other].phase.Finished? ==>
                   !(200 <= w.requests[other].phase.response.status <= 299)) ==>
                  && key !in w.records
                  && (In(w, id, key) ==> !w.requests[id].phase.Replayed? && !w.requests[id].phase.Refused?)
                  && (In(w, id, key) && w.requests[id].phase.Ready? ==>
                        Act(w, Lookup(id)).requests[id].phase.Running?))
  {
    hide ActAll, EnabledRun, Expired;
    var start := World(map[], map[], now, 0);
    StartIsFine(now);
    RunKeepsInv(start, actions);
    RunKeepsSecondHand(start, actions);
    var w := ActAll(start, actions);
    if key in w.records {
      assert Genuine(w, key, w.records[key]) && AnsweredWell(w, w.records[key].winner, key);
    }
    assert id in w.requests ==> SecondHand(w, id);
  }

  lemma {:induction false} RecordStays(w: World, actions: seq<Action>, key: Key)
    requires EnabledRun(w, actions) && NoVacuum(actions, key) && key in w.records
    ensures Found(ActAll(w, actions), key) == Some(w.records[key])
    decreases |actions|
  {
    hide Success, Expired;
    if actions != [] {
      assert actions[0] != Vacuum(key);
      assert forall i :: 0 <= i < |actions| - 1 ==> actions[1..][i] == actions[i + 1];
      RecordStays(Act(w, actions[0]), actions[1..], key);
    }
  }

  /** How long a kept answer is given. A response in the 200s is put on a free key at time
      t, to expire at t + ttl. Whatever follows, vacuums of the key apart, a request with
      the same body that looks at t + ttl or before gets it; one that looks later runs the
      handler (the expiry 0 standing for none). */
  lemma AnsweredUntilExpiry(w: World, id: RequestId, ttl: int, later: seq<Action>, other: RequestId)
    requires Enabled(w, Put(id, w.now + ttl, true)) && w.requests[id].key !in w.records
    requires 200 <= w.requests[id].phase.response.status <= 299
    requires EnabledRun(Act(w, Put(id, w.now + ttl, true)), later) && NoVacuum(later, w.requests[id].key)
    requires var v := ActAll(Act(w, Put(id, w.now + ttl, true)), later);
             && In(v, other, w.requests[id].key) && v.requests[other].phase.Ready?
             && v.requests[other].body == w.requests[id].body
    ensures var v := ActAll(Act(w, Put(id, w.now + ttl, true)), later);
            var phase := Act(v, Lookup(other)).requests[other].phase;
            if v.now <= w.now + ttl || w.now + ttl == 0 then phase == Replayed(w.requests[id].phase.response)
            else phase == Running(v.step)
  {
    hide EnabledRun, ActAll;
    KeptIff2xx(w, id, w.now + ttl);
    RecordStays(Act(w, Put(id, w.now + ttl, true)), later, w.requests[id].key);
  }
}
