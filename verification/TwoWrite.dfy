/** Settlement on the document store as it really happens: the status flip and the
    balance increment are two writes to two documents. Any number of callers
    interleave, and a crash may drop any increment still outstanding. */
module TwoWrite {
  import opened Domain
  import opened Ledger
  import opened Sums
  import opened Balances
  import opened Documents
  import M = Money

  type FlightId = nat

  /** What a won flip entitles its caller to post, once. */
  datatype Source = OfPayment(payment: PaymentId) | OfRefund(refund: RefundId)

  datatype Phase = Outstanding | Applied | Lost

  datatype Flight = Flight(source: Source, posting: Posting, phase: Phase)

  /** The documents, and one flight for each flip ever won. */
  datatype World = World(payments: PaymentDocs, merchants: MerchantDocs, flights: map<FlightId, Flight>)

  const NEW_WORLD := World(map[], map[], map[])

  /** One atomic step: a document write of some call; the increment of a flight; the
      upsert of a merchant; a crash that takes the increments of some callers along. */
  datatype Action =
    | DocumentWrite(call: Call, flight: FlightId)
    | Increment(flight: FlightId)
    | OnboardMerchant(merchant: string)
    | Crash(victims: set<FlightId>)

  predicate Settles(call: Call) {
    call.Settle? || call.SettleRefund?
  }

  function SourceOf(call: Call): Source
    requires Settles(call)
  {
    if call.Settle? then OfPayment(call.payment) else OfRefund(call.refund)
  }

  function Drop(f: Flight): Flight {
    if f.phase == Outstanding then f.(phase := Lost) else f
  }

  ghost function Act(w: World, a: Action): World {
    match a
    case DocumentWrite(call, flight) =>
      var write := DocWrite(w.payments, call);
      if write.posting.Some? && Settles(call)
      then World(write.payments, w.merchants,
                 w.flights[flight := Flight(SourceOf(call), write.posting.value, Outstanding)])
      else w.(payments := write.payments)
    case Increment(flight) =>
      if flight !in w.flights then w
      else World(w.payments, Inc(w.merchants, w.flights[flight].posting),
                 w.flights[flight := w.flights[flight].(phase := Applied)])
    case OnboardMerchant(merchant) => w.(merchants := Onboard(w.merchants, merchant))
    case Crash(victims) =>
      w.(flights := map id | id in w.flights :: if id in victims then Drop(w.flights[id]) else w.flights[id])
  }

  /** No call but the two settlements leaves anything to post. */
  lemma OnlySettlingPosts(payments: PaymentDocs, call: Call)
    ensures DocWrite(payments, call).posting.Some? ==> Settles(call)
  {
  }

  // ---------- the abstract ledger alongside ----------

  /** The ledger sees a document write as the whole call, and nothing else. */
  datatype Abstract = Abstract(c: Core, booked: set<PaymentId>)

  predicate Seen(a: Action) {
    a.DocumentWrite? && PositiveFee(a.call)
  }

  function Follow(l: Abstract, a: Action): Abstract {
    if Seen(a) then Abstract(Step(l.c, a.call).0, BookedAfter(l.c, l.booked, a.call)) else l
  }

  /** A caller increments for its own flight, while outstanding; ids are new. */
  predicate Enabled(w: World, l: Abstract, a: Action) {
    match a
    case DocumentWrite(call, flight) => Fresh(l.c, call) && flight !in w.flights
    case Increment(flight) => flight in w.flights && w.flights[flight].phase == Outstanding
    case OnboardMerchant(_) => true
    case Crash(_) => true
  }

  // ---------- sums over flights ----------

  ghost function FlightPart(flights: map<FlightId, Flight>, phases: set<Phase>, part: Part, scope: Scope): FlightId -> int {
    (id: FlightId) =>
      if id in flights && flights[id].phase in phases then PostedPart(part, scope, Some(flights[id].posting)) else 0
  }

  ghost function FlightSum(flights: map<FlightId, Flight>, phases: set<Phase>, part: Part, scope: Scope): int {
    Sum(flights.Keys, FlightPart(flights, phases, part, scope))
  }

  lemma Launch(flights: map<FlightId, Flight>, id: FlightId, f: Flight, phases: set<Phase>, part: Part, scope: Scope)
    requires id !in flights
    ensures FlightSum(flights[id := f], phases, part, scope) == FlightSum(flights, phases, part, scope)
              + (if f.phase in phases then PostedPart(part, scope, Some(f.posting)) else 0)
  {
    hide Sum, PostedPart;
    var after := flights[id := f];
    assert after.Keys == flights.Keys + {id};
    SumInsert(flights.Keys, id, FlightPart(after, phases, part, scope));
    SumCongruent(flights.Keys, FlightPart(after, phases, part, scope), FlightPart(flights, phases, part, scope));
  }

  lemma Land(flights: map<FlightId, Flight>, id: FlightId, part: Part, scope: Scope)
    requires id in flights && flights[id].phase == Outstanding
    ensures var after := flights[id := flights[id].(phase := Applied)];
            && FlightSum(after, {Applied}, part, scope)
                 == FlightSum(flights, {Applied}, part, scope) + PostedPart(part, scope, Some(flights[id].posting))
            && FlightSum(after, {Outstanding, Applied, Lost}, part, scope)
                 == FlightSum(flights, {Outstanding, Applied, Lost}, part, scope)
  {
    hide Sum, PostedPart;
    var after := flights[id := flights[id].(phase := Applied)];
    var all := {Outstanding, Applied, Lost};
    assert after.Keys == flights.Keys;
    SumUpdate(flights.Keys, id, FlightPart(flights, {Applied}, part, scope), FlightPart(after, {Applied}, part, scope));
    SumCongruent(flights.Keys, FlightPart(flights, all, part, scope), FlightPart(after, all, part, scope));
  }

  lemma DropKeepsSums(w: World, victims: set<FlightId>, part: Part, scope: Scope)
    ensures var after := Act(w, Crash(victims)).flights;
            && FlightSum(after, {Applied}, part, scope) == FlightSum(w.flights, {Applied}, part, scope)
            && FlightSum(after, {Outstanding, Applied, Lost}, part, scope)
                 == FlightSum(w.flights, {Outstanding, Applied, Lost}, part, scope)
  {
    hide Sum, PostedPart;
    var after := Act(w, Crash(victims)).flights;
    var all := {Outstanding, Applied, Lost};
    assert after.Keys == w.flights.Keys;
    SumCongruent(w.flights.Keys, FlightPart(w.flights, {Applied}, part, scope), FlightPart(after, {Applied}, part, scope));
    SumCongruent(w.flights.Keys, FlightPart(w.flights, all, part, scope), FlightPart(after, all, part, scope));
  }

  lemma PhasesAddUp(flights: map<FlightId, Flight>, part: Part, scope: Scope)
    ensures FlightSum(flights, {Outstanding, Applied, Lost}, part, scope)
         == FlightSum(flights, {Applied}, part, scope) + FlightSum(flights, {Outstanding, Lost}, part, scope)
  {
    hide Sum, PostedPart;
    SumAdd(flights.Keys, FlightPart(flights, {Applied}, part, scope),
           FlightPart(flights, {Outstanding, Lost}, part, scope),
           FlightPart(flights, {Outstanding, Applied, Lost}, part, scope));
  }

  // ---------- the invariant ----------

  ghost function SettledSources(l: Abstract): set<Source> {
    (set id | id in l.booked :: OfPayment(id))
    + (set rid | rid in l.c.refunds && l.c.refunds[rid].status == RefundSettled :: OfRefund(rid))
  }

  /** Every settled payment and every settled refund has exactly one flight. */
  ghost predicate OneFlightEach(w: World, l: Abstract) {
    && (forall s :: s in SettledSources(l) <==> exists id :: id in w.flights && w.flights[id].source == s)
    && (forall i, j :: i in w.flights && j in w.flights && w.flights[i].source == w.flights[j].source ==> i == j)
  }

  /** The merchant documents hold exactly what the applied flights posted, and all
      flights together make up the ledger. */
  ghost predicate FlightsBalance(w: World, l: Abstract, cells: Cells) {
    forall part, scope ::
      && CellSum(cells, part, scope) == FlightSum(w.flights, {Applied}, part, scope)
      && LedgerSum(l.c, l.booked, part, scope) == FlightSum(w.flights, {Outstanding, Applied, Lost}, part, scope)
  }

  ghost predicate Inv(w: World, l: Abstract, cells: Cells) {
    && Accounted(l.c) && BookedFits(l.c, l.booked) && Matches(l.c, w.payments)
    && CellsMatch(cells, w.merchants) && FlightsBalance(w, l, cells) && OneFlightEach(w, l)
  }

  function CellsAfter(w: World, cells: Cells, a: Action): Cells {
    if a.Increment? && a.flight in w.flights then Post(cells, w.flights[a.flight].posting) else cells
  }

  lemma WriteKeepsInv(w: World, l: Abstract, cells: Cells, call: Call, flight: FlightId)
    requires Inv(w, l, cells) && Fresh(l.c, call) && flight !in w.flights && PositiveFee(call)
    ensures var a := DocumentWrite(call, flight);
            Inv(Act(w, a), Follow(l, a), cells)
  {
    hide Accounted, BookedFits, Matches, CellsMatch, CellSum, LedgerSum, FlightSum, PostedPart, DocWrite, Step, BookedAfter;
    OnlySettlingPosts(w.payments, call);
    var a := DocumentWrite(call, flight);
    var w', l' := Act(w, a), Follow(l, a);
    StepKeepsAccounts(l.c, call);
    StepKeepsBooked(l.c, l.booked, call);
    DocWriteAgrees(l.c, w.payments, call);
    var posting := PostingOf(l.c, call);
    forall part, scope
      ensures CellSum(cells, part, scope) == FlightSum(w'.flights, {Applied}, part, scope)
      ensures LedgerSum(l'.c, l'.booked, part, scope) == FlightSum(w'.flights, {Outstanding, Applied, Lost}, part, scope)
    {
      StepMovesLedger(l.c, l.booked, call, part, scope);
      if posting.Some? {
        var f := Flight(SourceOf(call), posting.value, Outstanding);
        Launch(w.flights, flight, f, {Applied}, part, scope);
        Launch(w.flights, flight, f, {Outstanding, Applied, Lost}, part, scope);
      } else {
        NothingPosted(part, scope);
      }
    }
    SourcesAfter(l, call);
    if posting.Some? {
      OneMoreFlight(w, l, w', l', flight, SourceOf(call));
    } else {
      assert SettledSources(l') == SettledSources(l);
    }
  }

  lemma NothingPosted(part: Part, scope: Scope)
    ensures PostedPart(part, scope, None) == 0
  {
  }

  /** A posting call settles something not settled before; other calls settle nothing. */
  lemma SourcesAfter(l: Abstract, call: Call)
    requires BookedFits(l.c, l.booked) && Fresh(l.c, call)
    ensures var l' := Abstract(Step(l.c, call).0, BookedAfter(l.c, l.booked, call));
            if PostingOf(l.c, call).Some? then
              && SourceOf(call) !in SettledSources(l)
              && SettledSources(l') == SettledSources(l) + {SourceOf(call)}
            else SettledSources(l') == SettledSources(l)
  {
  }

  lemma OneMoreFlight(w: World, l: Abstract, w': World, l': Abstract, flight: FlightId, s: Source)
    requires OneFlightEach(w, l) && flight !in w.flights && s !in SettledSources(l)
    requires w'.flights.Keys == w.flights.Keys + {flight} && w'.flights[flight].source == s
    requires forall id :: id in w.flights ==> w'.flights[id] == w.flights[id]
    requires SettledSources(l') == SettledSources(l) + {s}
    ensures OneFlightEach(w', l')
  {
    hide SettledSources;
  }

  lemma IncrementKeepsInv(w: World, l: Abstract, cells: Cells, flight: FlightId)
    requires Inv(w, l, cells) && flight in w.flights && w.flights[flight].phase == Outstanding
    ensures Inv(Act(w, Increment(flight)), l, CellsAfter(w, cells, Increment(flight)))
  {
    hide Accounted, BookedFits, Matches, CellSum, LedgerSum, FlightSum, PostedPart, Post, Inc, CellsMatch, SettledSources;
    var w', p := Act(w, Increment(flight)), w.flights[flight].posting;
    IncPosts(cells, w.merchants, p);
    forall part, scope
      ensures CellSum(Post(cells, p), part, scope) == FlightSum(w'.flights, {Applied}, part, scope)
      ensures LedgerSum(l.c, l.booked, part, scope) == FlightSum(w'.flights, {Outstanding, Applied, Lost}, part, scope)
    {
      PostMovesItsCell(cells, p, part, scope);
      Land(w.flights, flight, part, scope);
    }
    assert OneFlightEach(w', l) by {
      SameSources(w, w', l);
    }
  }

  lemma SameSources(w: World, w': World, l: Abstract)
    requires OneFlightEach(w, l) && w'.flights.Keys == w.flights.Keys
    requires forall id :: id in w.flights ==> w'.flights[id].source == w.flights[id].source
    ensures OneFlightEach(w', l)
  {
    hide SettledSources;
    forall s
      ensures s in SettledSources(l) <==> exists id :: id in w'.flights && w'.flights[id].source == s
    {
      if s in SettledSources(l) {
        var id :| id in w.flights && w.flights[id].source == s;
        assert w'.flights[id].source == s;
      }
    }
  }

  /** Whatever step is taken, the invariant is kept. */
  lemma ActKeepsInv(w: World, l: Abstract, cells: Cells, a: Action)
    requires Inv(w, l, cells) && Enabled(w, l, a)
    ensures Inv(Act(w, a), Follow(l, a), CellsAfter(w, cells, a))
  {
    hide Accounted, BookedFits, Matches, CellSum, LedgerSum, FlightSum, SettledSources, Step, BookedAfter;
    match a
    case DocumentWrite(call, flight) =>
      OnlySettlingPosts(w.payments, call);
      if PositiveFee(call) {
        WriteKeepsInv(w, l, cells, call, flight);
      }
    case Increment(flight) => IncrementKeepsInv(w, l, cells, flight);
    case OnboardMerchant(_) =>
    case Crash(victims) =>
      forall part, scope
        ensures CellSum(cells, part, scope) == FlightSum(Act(w, a).flights, {Applied}, part, scope)
        ensures LedgerSum(l.c, l.booked, part, scope) == FlightSum(Act(w, a).flights, {Outstanding, Applied, Lost}, part, scope)
      {
        DropKeepsSums(w, victims, part, scope);
      }
      SameSources(w, Act(w, a), l);
  }

  /** Whether the increment of a flight has been made. */
  function Made(w: World, id: FlightId): nat {
    if id in w.flights && w.flights[id].phase == Applied then 1 else 0
  }

  lemma StepMakesOne(w: World, l: Abstract, a: Action, id: FlightId)
    requires Enabled(w, l, a)
    ensures Made(Act(w, a), id) == Made(w, id) + if a == Increment(id) then 1 else 0
    ensures id in w.flights ==>
              && id in Act(w, a).flights
              && Act(w, a).flights[id].source == w.flights[id].source && Act(w, a).flights[id].posting == w.flights[id].posting
  {
    hide DocWrite;
  }

  // ---------- whole runs ----------

  ghost function ActAll(w: World, actions: seq<Action>): World
    decreases |actions|
  {
    if actions == [] then w else ActAll(Act(w, actions[0]), actions[1..])
  }

  ghost predicate EnabledRun(w: World, l: Abstract, actions: seq<Action>)
    decreases |actions|
  {
    actions == [] || (Enabled(w, l, actions[0]) && EnabledRun(Act(w, actions[0]), Follow(l, actions[0]), actions[1..]))
  }

  /** The calls of a run, in the order of their document writes. */
  function CallsOf(actions: seq<Action>): seq<Call> {
    if actions == [] then []
    else (if Seen(actions[0]) then [actions[0].call] else []) + CallsOf(actions[1..])
  }

  lemma {:induction false} RunKeepsInv(w: World, l: Abstract, cells: Cells, actions: seq<Action>) returns (final: Cells)
    requires Inv(w, l, cells) && EnabledRun(w, l, actions)
    ensures Inv(ActAll(w, actions), Abstract(Run(l.c, CallsOf(actions)), BookedRun(l.c, l.booked, CallsOf(actions))), final)
    decreases |actions|
  {
    hide Inv, Act, Step, BookedAfter, Enabled;
    if actions == [] {
      final := cells;
    } else {
      var a := actions[0];
      ActKeepsInv(w, l, cells, a);
      final := RunKeepsInv(Act(w, a), Follow(l, a), CellsAfter(w, cells, a), actions[1..]);
      if Seen(a) {
        assert CallsOf(actions)[1..] == CallsOf(actions[1..]);
      } else {
        assert CallsOf(actions) == CallsOf(actions[1..]);
      }
    }
  }

  // ---------- no increment is made twice ----------

  /** How often a run increments for a flight. */
  function Increments(actions: seq<Action>, id: FlightId): nat {
    if actions == [] then 0 else (if actions[0] == Increment(id) then 1 else 0) + Increments(actions[1..], id)
  }

  lemma {:induction false} RunMakes(w: World, l: Abstract, actions: seq<Action>, id: FlightId)
    requires EnabledRun(w, l, actions)
    ensures Made(ActAll(w, actions), id) == Made(w, id) + Increments(actions, id)
    ensures id in w.flights ==>
              && id in ActAll(w, actions).flights && ActAll(w, actions).flights[id].source == w.flights[id].source
              && ActAll(w, actions).flights[id].posting == w.flights[id].posting
    decreases |actions|
  {
    hide Act, Enabled, Follow, Made;
    if actions != [] {
      StepMakesOne(w, l, actions[0], id);
      RunMakes(Act(w, actions[0]), Follow(l, actions[0]), actions[1..], id);
    }
  }

  /** Whatever interleaves and crashes, a run increments for each flight as often as it
      ends up applied, at most once; and each settled payment or refund has one flight,
      so no credit and no debit is ever posted twice. */
  lemma IncrementsAreMadeOnce(actions: seq<Action>, id: FlightId)
    requires EnabledRun(NEW_WORLD, Abstract(EMPTY, {}), actions)
    ensures var w, calls := ActAll(NEW_WORLD, actions), CallsOf(actions);
            && Increments(actions, id) == (if id in w.flights && w.flights[id].phase == Applied then 1 else 0)
            && OneFlightEach(w, Abstract(Run(EMPTY, calls), BookedRun(EMPTY, {}, calls)))
  {
    hide ActAll, EnabledRun, Increments, OneFlightEach, Accounted, BookedFits, Matches, CellsMatch, FlightsBalance;
    RunMakes(NEW_WORLD, Abstract(EMPTY, {}), actions, id);
    var cells: Cells := map[];
    NewWorldInv(cells);
    var _ := RunKeepsInv(NEW_WORLD, Abstract(EMPTY, {}), cells, actions);
  }

  /** A part of one cell of the merchant documents; a missing cell holds nothing. */
  function DocPart(merchants: MerchantDocs, part: Part, m: string, currency: Currency): int {
    if m in merchants && currency in merchants[m] then PartOf(part, merchants[m][currency]) else 0
  }

  /** Two-write settlement is safe. Over every interleaving, with any crashes, what a
      merchant's cell holds plus what is outstanding or lost for it is the abstract
      ledger after the same calls, in net amounts, fees and total alike; each settled
      payment and refund has exactly one flight; so with nothing outstanding or lost
      the cell is the ledger. */
  lemma TwoWriteSettlementIsSafe(actions: seq<Action>, part: Part, m: string, currency: Currency)
    requires EnabledRun(NEW_WORLD, Abstract(EMPTY, {}), actions)
    ensures var w, calls, scope := ActAll(NEW_WORLD, actions), CallsOf(actions), OneCell(m, currency);
            var l := Abstract(Run(EMPTY, calls), BookedRun(EMPTY, {}, calls));
            && DocPart(w.merchants, part, m, currency) + FlightSum(w.flights, {Outstanding, Lost}, part, scope)
                 == LedgerSum(l.c, l.booked, part, scope)
            && OneFlightEach(w, l)
            && ((forall id :: id in w.flights ==> w.flights[id].phase == Applied) ==>
                  DocPart(w.merchants, part, m, currency) == LedgerSum(l.c, l.booked, part, scope))
  {
    hide Act, Step, LedgerSum, FlightSum, OneFlightEach, Enabled;
    var cells: Cells := map[];
    NewWorldInv(cells);
    var final := RunKeepsInv(NEW_WORLD, Abstract(EMPTY, {}), cells, actions);
    var w, scope := ActAll(NEW_WORLD, actions), OneCell(m, currency);
    PhasesAddUp(w.flights, part, scope);
    OneCellSum(final, part, m, currency);
    assert (m, currency) in final <==> m in w.merchants && currency in w.merchants[m];
    if forall id :: id in w.flights ==> w.flights[id].phase == Applied {
      NothingLeft(w.flights, part, scope);
    }
  }

  lemma NothingLeft(flights: map<FlightId, Flight>, part: Part, scope: Scope)
    requires forall id :: id in flights ==> flights[id].phase == Applied
    ensures FlightSum(flights, {Outstanding, Lost}, part, scope) == 0
  {
    hide Sum;
    SumZero(flights.Keys, FlightPart(flights, {Outstanding, Lost}, part, scope));
  }

  lemma NewWorldInv(cells: Cells)
    requires cells == map[]
    ensures Inv(NEW_WORLD, Abstract(EMPTY, {}), cells)
  {
    hide Sum;
    var l := Abstract(EMPTY, {});
    forall part, scope
      ensures CellSum(cells, part, scope) == FlightSum(NEW_WORLD.flights, {Applied}, part, scope)
      ensures LedgerSum(EMPTY, {}, part, scope) == FlightSum(NEW_WORLD.flights, {Outstanding, Applied, Lost}, part, scope)
    {
      SumZero(cells.Keys, CellPart(cells, part, scope));
      SumZero<PaymentId>({}, Credit(EMPTY.payments, part, scope));
      SumZero(EMPTY.refunds.Keys, Debit(EMPTY, part, scope));
      SumZero(NEW_WORLD.flights.Keys, FlightPart(NEW_WORLD.flights, {Applied}, part, scope));
      SumZero(NEW_WORLD.flights.Keys, FlightPart(NEW_WORLD.flights, {Outstanding, Applied, Lost}, part, scope));
    }
  }

  /** The use cases promise that no crash leaves a balance out of step. One does: cut
      off between its two writes, a settlement leaves the payment settled and its
      credit missing, for good. */
  lemma CrashLosesTheCredit(input: PaymentInput, id: PaymentId, now: Instant)
    requires ValidInput(input) && InitialStatus(input.via, input.amount) == Captured
    ensures var actions := [DocumentWrite(Create(input, id, now), 0), DocumentWrite(Settle(id, now), 0), Crash({0})];
            var w := ActAll(NEW_WORLD, actions);
            && EnabledRun(NEW_WORLD, Abstract(EMPTY, {}), actions)
            && id in w.payments && w.payments[id].status == Settled
            && DocPart(w.merchants, NetPart, input.merchant, input.currency) == 0
            && FlightSum(w.flights, {Outstanding, Lost}, NetPart, OneCell(input.merchant, input.currency)) == M.Net(input.amount) > 0
  {
    hide M.GripeFee, ActAll, EnabledRun, FlightSum;
    M.FeeShape(input.amount, input.amount);
    var create, settle := DocumentWrite(Create(input, id, now), 0), DocumentWrite(Settle(id, now), 0);
    var l0 := Abstract(EMPTY, {});
    var w1 := Act(NEW_WORLD, create);
    var w2 := Act(w1, settle);
    ThreeSteps(NEW_WORLD, l0, create, settle, Crash({0}));
    var p := DocCredit(w1.payments[id]);
    assert w2.flights == map[0 := Flight(OfPayment(id), p, Outstanding)];
    OneFlightSum(Act(w2, Crash({0})).flights, Flight(OfPayment(id), p, Lost), NetPart, OneCell(input.merchant, input.currency));
  }

  lemma ThreeSteps(w: World, l: Abstract, a: Action, b: Action, c: Action)
    requires Enabled(w, l, a) && Enabled(Act(w, a), Follow(l, a), b)
    requires Enabled(Act(Act(w, a), b), Follow(Follow(l, a), b), c)
    ensures EnabledRun(w, l, [a, b, c])
    ensures ActAll(w, [a, b, c]) == Act(Act(Act(w, a), b), c)
  {
    hide Act, Enabled, Follow;
    assert [a, b, c][1..] == [b, c] && [b, c][1..] == [c] && [c][1..] == [];
    assert ActAll(Act(Act(w, a), b), [c]) == Act(Act(Act(w, a), b), c);
    assert EnabledRun(Act(Act(w, a), b), Follow(Follow(l, a), b), [c]);
    assert ActAll(Act(w, a), [b, c]) == Act(Act(Act(w, a), b), c);
    assert EnabledRun(Act(w, a), Follow(l, a), [b, c]);
  }

  lemma OneFlightSum(flights: map<FlightId, Flight>, f: Flight, part: Part, scope: Scope)
    requires flights == map[0 := f] && f.phase == Lost
    ensures FlightSum(flights, {Outstanding, Lost}, part, scope) == PostedPart(part, scope, Some(f.posting))
  {
    hide Sum, PostedPart;
    var g := FlightPart(flights, {Outstanding, Lost}, part, scope);
    assert flights.Keys == {0};
    SumRemove(flights.Keys, 0, g);
    SumZero(flights.Keys - {0}, g);
  }
}
