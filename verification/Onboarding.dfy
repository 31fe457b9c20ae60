/** Implicit onboarding of merchants and customers behind per-process caches.

    Several processes share one database. A create looks at both parents, skips the
    ones its process has seen, and inserts its child row. The relational store writes
    parents and child in one transaction and remembers them after the commit; the
    document store upserts and remembers each parent on its own, before the child. */
module Onboarding {
  import opened Domain

  type ProcessId = nat
  type CreateId = nat

  /** A create in progress: parents still to look at, parent rows held back until the
      commit, and whether the child is in. */
  datatype Create = Create(process: ProcessId, merchant: string, customer: string,
                           left: set<ActorKey>, held: set<ActorKey>, done: bool)

  datatype World = World(actors: set<ActorKey>, children: set<(string, string)>,
                         seen: map<ProcessId, set<ActorKey>>, creates: map<CreateId, Create>)

  const NOTHING := World({}, {}, map[], map[])

  datatype Action =
    | Start(process: ProcessId)
    | Begin(id: CreateId, process: ProcessId, merchant: string, customer: string)
    | Look(id: CreateId, key: ActorKey)
    | Finish(id: CreateId)
    | Remember(id: CreateId, key: ActorKey)
    | Abort(id: CreateId)

  function Parents(merchant: string, customer: string): set<ActorKey> {
    {MerchantKey(merchant), CustomerKey(customer)}
  }

  function ParentsOf(c: Create): set<ActorKey> {
    Parents(c.merchant, c.customer)
  }

  /** Start is also a restart: the process forgets all it has seen. A create may be
      aborted at any point, by a rollback or a crash. */
  predicate Enabled(w: World, transactional: bool, a: Action) {
    match a
    case Start(_) => true
    case Begin(id, process, _, _) => id !in w.creates && process in w.seen
    case Look(id, key) => id in w.creates && key in w.creates[id].left && w.creates[id].process in w.seen
    case Finish(id) => id in w.creates && w.creates[id].left == {} && !w.creates[id].done
    case Remember(id, key) =>
      && id in w.creates && key in ParentsOf(w.creates[id]) - w.creates[id].left && w.creates[id].process in w.seen
      && (transactional ==> w.creates[id].done)
    case Abort(id) => id in w.creates
  }

  function Act(w: World, transactional: bool, cached: bool, a: Action): World
    requires Enabled(w, transactional, a)
  {
    match a
    case Start(process) => w.(seen := w.seen[process := {}])
    case Begin(id, process, m, c) =>
      w.(creates := w.creates[id := Create(process, m, c, Parents(m, c), {}, false)])
    case Look(id, key) =>
      var c := w.creates[id];
      var upserts := if cached && key in w.seen[c.process] then {} else {key};
      if transactional
      then w.(creates := w.creates[id := c.(left := c.left - {key}, held := c.held + upserts)])
      else w.(creates := w.creates[id := c.(left := c.left - {key})], actors := w.actors + upserts)
    case Finish(id) =>
      var c := w.creates[id];
      w.(actors := w.actors + c.held, children := w.children + {(c.merchant, c.customer)},
         creates := w.creates[id := c.(done := true)])
    case Remember(id, key) =>
      var p := w.creates[id].process;
      w.(seen := w.seen[p := w.seen[p] + {key}])
    case Abort(id) => w.(creates := w.creates - {id})
  }

  /** What a create has looked at is in the database, or held back by it. */
  predicate Covered(w: World, c: Create) {
    && c.left <= ParentsOf(c) && (c.done ==> c.left == {})
    && forall key :: key in ParentsOf(c) - c.left ==> key in w.actors || (!c.done && key in c.held)
  }

  /** Every seen actor is committed; every child row has its parents. */
  predicate Coherent(w: World) {
    && (forall p :: p in w.seen ==> w.seen[p] <= w.actors)
    && (forall child :: child in w.children ==> Parents(child.0, child.1) <= w.actors)
    && (forall id :: id in w.creates ==> Covered(w, w.creates[id]))
    && (forall id :: id in w.creates && w.creates[id].done ==> w.creates[id].held <= w.actors)
  }

  /** A document store holds nothing back. */
  predicate NothingHeld(w: World) {
    forall id :: id in w.creates ==> w.creates[id].held == {}
  }

  /** Finishing inserts the child and leaves both its parents committed; no other step
      inserts a child, and none removes a child or an actor. */
  lemma FinishInserts(w: World, transactional: bool, cached: bool, a: Action)
    requires Coherent(w) && (transactional || NothingHeld(w)) && Enabled(w, transactional, a)
    ensures var v := Act(w, transactional, cached, a);
            && w.actors <= v.actors
            && v.children == w.children + (if a.Finish? then {(w.creates[a.id].merchant, w.creates[a.id].customer)} else {})
            && (a.Finish? ==>
                  MerchantKey(w.creates[a.id].merchant) in v.actors && CustomerKey(w.creates[a.id].customer) in v.actors)
  {
    if a.Finish? {
      assert Covered(w, w.creates[a.id]);
    }
  }

  lemma ActKeepsCoherent(w: World, transactional: bool, cached: bool, a: Action)
    requires Coherent(w) && Enabled(w, transactional, a)
    ensures transactional || NothingHeld(w) ==> Coherent(Act(w, transactional, cached, a))
    ensures !transactional && NothingHeld(w) ==> NothingHeld(Act(w, transactional, cached, a))
  {
    var v := Act(w, transactional, cached, a);
    forall id | id in v.creates
      ensures Covered(v, v.creates[id])
    {
      assert id in w.creates ==> Covered(w, w.creates[id]);
    }
    if a.Finish? || a.Remember? {
      assert Covered(w, w.creates[a.id]);
    }
  }

  // ---------- against the store without a cache ----------

  /** The same creates at the same points; the cached one may hold back less, but only
      by actors that are in the database already. */
  predicate SameCreate(w: World, c: Create, u: Create) {
    && u == c.(held := u.held) && c.held <= u.held && u.held <= c.held + w.actors
  }

  predicate Agree(w: World, u: World) {
    && u.actors == w.actors && u.children == w.children && u.seen == w.seen
    && u.creates.Keys == w.creates.Keys
    && forall id :: id in w.creates ==> SameCreate(w, w.creates[id], u.creates[id])
  }

  lemma ActKeepsAgreement(w: World, u: World, transactional: bool, a: Action)
    requires Coherent(w) && Agree(w, u) && Enabled(w, transactional, a)
    ensures Enabled(u, transactional, a)
    ensures Agree(Act(w, transactional, true, a), Act(u, transactional, false, a))
  {
    if !a.Start? && !a.Begin? {
      assert SameCreate(w, w.creates[a.id], u.creates[a.id]);
    }
    var w', u' := Act(w, transactional, true, a), Act(u, transactional, false, a);
    assert w'.actors == u'.actors;
    forall id | id in w'.creates
      ensures SameCreate(w', w'.creates[id], u'.creates[id])
    {
      assert id in w.creates ==> SameCreate(w, w.creates[id], u.creates[id]);
    }
  }

  // ---------- whole runs ----------

  ghost predicate EnabledRun(w: World, transactional: bool, cached: bool, actions: seq<Action>)
    decreases |actions|
  {
    actions == []
    || (Enabled(w, transactional, actions[0])
        && EnabledRun(Act(w, transactional, cached, actions[0]), transactional, cached, actions[1..]))
  }

  ghost function ActAll(w: World, transactional: bool, cached: bool, actions: seq<Action>): World
    requires EnabledRun(w, transactional, cached, actions)
    decreases |actions|
  {
    if actions == [] then w
    else ActAll(Act(w, transactional, cached, actions[0]), transactional, cached, actions[1..])
  }

  lemma {:induction false} RunKeepsAgreement(w: World, u: World, transactional: bool, actions: seq<Action>)
    requires Coherent(w) && (transactional || NothingHeld(w)) && Agree(w, u) && EnabledRun(w, transactional, true, actions)
    ensures EnabledRun(u, transactional, false, actions)
    ensures Coherent(ActAll(w, transactional, true, actions))
    ensures Agree(ActAll(w, transactional, true, actions), ActAll(u, transactional, false, actions))
    decreases |actions|
  {
    hide Act, Enabled, Coherent, Agree, NothingHeld;
    if actions != [] {
      ActKeepsCoherent(w, transactional, true, actions[0]);
      ActKeepsAgreement(w, u, transactional, actions[0]);
      RunKeepsAgreement(Act(w, transactional, true, actions[0]), Act(u, transactional, false, actions[0]),
                        transactional, actions[1..]);
    }
  }

  /** Onboarding caches are coherent. Over any run of several processes, with creates
      rolled back or cut off anywhere and processes restarted: every seen actor is in
      the database, every child row has its parents, and the actor tables are those the
      same run leaves on a store that upserts both parents every time. */
  lemma CachesAreCoherent(transactional: bool, actions: seq<Action>)
    requires EnabledRun(NOTHING, transactional, true, actions)
    ensures EnabledRun(NOTHING, transactional, false, actions)
    ensures var w, u := ActAll(NOTHING, transactional, true, actions), ActAll(NOTHING, transactional, false, actions);
            && (forall p :: p in w.seen ==> w.seen[p] <= w.actors)
            && (forall child :: child in w.children ==> Parents(child.0, child.1) <= w.actors)
            && w.actors == u.actors && w.children == u.children
  {
    hide Act, Enabled;
    RunKeepsAgreement(NOTHING, NOTHING, transactional, actions);
  }

  /** Some child row refers to this actor. */
  predicate Needed(children: set<(string, string)>, key: ActorKey) {
    exists child :: child in children && key in Parents(child.0, child.1)
  }

  predicate NoOrphans(w: World) {
    && (forall key :: key in w.actors ==> Needed(w.children, key))
    && (forall id :: id in w.creates ==> w.creates[id].held <= ParentsOf(w.creates[id]))
  }

  /** In transactions parents and child arrive together: no rolled-back create leaves
      an actor behind. */
  lemma {:induction false} TransactionsLeaveNoOrphans(w: World, cached: bool, actions: seq<Action>)
    requires Coherent(w) && NoOrphans(w) && EnabledRun(w, true, cached, actions)
    ensures NoOrphans(ActAll(w, true, cached, actions))
    decreases |actions|
  {
    hide Coherent, NoOrphans, Act, Enabled;
    if actions != [] {
      ActKeepsCoherent(w, true, cached, actions[0]);
      ActLeavesNoOrphans(w, cached, actions[0]);
      TransactionsLeaveNoOrphans(Act(w, true, cached, actions[0]), cached, actions[1..]);
    }
  }

  lemma ActLeavesNoOrphans(w: World, cached: bool, a: Action)
    requires Coherent(w) && NoOrphans(w) && Enabled(w, true, a)
    ensures NoOrphans(Act(w, true, cached, a))
  {
    hide Needed, Parents;
    var v := Act(w, true, cached, a);
    if a.Look? {
      assert Covered(w, w.creates[a.id]);
    }
    if a.Finish? {
      var child := (w.creates[a.id].merchant, w.creates[a.id].customer);
      forall key | key in v.actors
        ensures Needed(v.children, key)
      {
        NeededWith(w.children, child, key);
      }
    }
  }

  lemma NeededWith(children: set<(string, string)>, child: (string, string), key: ActorKey)
    ensures Needed(children, key) || key in Parents(child.0, child.1) ==> Needed(children + {child}, key)
  {
    assert child in children + {child};
  }

  /** The document store may leave one: a crash between the upsert and the insert. */
  lemma UpsertsMayLeaveOrphans(m: string, c: string)
    ensures var actions := [Start(0), Begin(0, 0, m, c), Look(0, MerchantKey(m)), Abort(0)];
            EnabledRun(NOTHING, false, true, actions) && !NoOrphans(ActAll(NOTHING, false, true, actions))
  {
    var w1 := Act(NOTHING, false, true, Start(0));
    var w2 := Act(w1, false, true, Begin(0, 0, m, c));
    var w3 := Act(w2, false, true, Look(0, MerchantKey(m)));
    var w4 := Act(w3, false, true, Abort(0));
    var actions := [Start(0), Begin(0, 0, m, c), Look(0, MerchantKey(m)), Abort(0)];
    assert actions[3..][1..] == [] && actions[2..][1..] == actions[3..] && actions[1..][1..] == actions[2..];
    OneStep(w3, actions[3..], w4);
    OneStep(w2, actions[2..], w3);
    OneStep(w1, actions[1..], w2);
    OneStep(NOTHING, actions, w1);
    assert MerchantKey(m) in w4.actors && !Needed(w4.children, MerchantKey(m));
  }

  lemma OneStep(w: World, actions: seq<Action>, v: World)
    requires actions != [] && Enabled(w, false, actions[0]) && v == Act(w, false, true, actions[0])
    requires EnabledRun(v, false, true, actions[1..])
    ensures EnabledRun(w, false, true, actions)
    ensures ActAll(w, false, true, actions) == ActAll(v, false, true, actions[1..])
  {
  }
}
