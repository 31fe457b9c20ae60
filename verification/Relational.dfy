/** The normalised tables, and what one call does to all of them at once. */
module Relational {
  import opened Domain
  import opened Ledger
  import opened Money
  import opened Sums
  import opened Balances

  /** Committed rows: payments and refunds, merchant_balances, merchants, customers. */
  datatype Tables = Tables(core: Core, cells: Cells, merchants: set<string>, customers: set<string>)

  const NO_ROWS := Tables(EMPTY, map[], {}, {})

  /** What one committed call does to all the tables at once. */
  function Apply(t: Tables, call: Call): (Tables, Reply) {
    var (core, reply) := Step(t.core, call);
    var onboards := call.Create? && ValidInput(call.input);
    (Tables(core, PostAll(t.cells, PostingOf(t.core, call)),
            if onboards then t.merchants + {call.input.merchant} else t.merchants,
            if onboards then t.customers + {call.input.customer} else t.customers),
     reply)
  }

  /** Every reference between tables resolves. */
  ghost predicate ReferencesHold(t: Tables) {
    && (forall id :: id in t.core.payments ==>
          t.core.payments[id].merchant in t.merchants && t.core.payments[id].customer in t.customers)
    && (forall key :: key in t.cells ==> key.0 in t.merchants && key.1.Valid())
  }

  /** The whole invariant: accounting, references, and cells that agree with history. */
  ghost predicate Sound(t: Tables, booked: set<PaymentId>) {
    && Accounted(t.core) && BookedFits(t.core, booked) && Conserved(t.core, booked, t.cells) && ReferencesHold(t)
  }

  lemma PostingReferences(t: Tables, call: Call)
    requires Accounted(t.core) && ReferencesHold(t) && PostingOf(t.core, call).Some?
    ensures PostingOf(t.core, call).value.merchant in t.merchants && PostingOf(t.core, call).value.currency.Valid()
  {
    hide Sum, RefundTotal, Net, GripeFee, Blank;
    var id := if call.Settle? then call.payment else t.core.refunds[call.refund].payment;
    assert RowAccounted(t.core, id);
  }

  lemma ApplyKeepsReferences(t: Tables, call: Call)
    requires Accounted(t.core) && ReferencesHold(t) && Fresh(t.core, call)
    ensures ReferencesHold(Apply(t, call).0)
  {
    hide Accounted, PostingOf;
    StepPreserves(t.core, call);
    var after := Apply(t, call).0;
    forall id | id in after.core.payments
      ensures after.core.payments[id].merchant in after.merchants && after.core.payments[id].customer in after.customers
    {
      if id in t.core.payments {
        assert RowPreserved(t.core.payments[id], after.core.payments[id]);
      }
    }
    if PostingOf(t.core, call).Some? {
      PostingReferences(t, call);
    }
  }

  lemma ApplyKeepsSound(t: Tables, booked: set<PaymentId>, call: Call)
    requires Sound(t, booked) && Fresh(t.core, call)
    ensures Sound(Apply(t, call).0, BookedAfter(t.core, booked, call))
  {
    hide Accounted, BookedFits, Conserved, ReferencesHold, Step;
    StepKeepsAccounts(t.core, call);
    StepKeepsBooked(t.core, booked, call);
    StepConserves(t.core, booked, t.cells, call);
    ApplyKeepsReferences(t, call);
  }

  function RunTables(t: Tables, calls: seq<Call>): Tables
    decreases |calls|
  {
    if calls == [] then t else RunTables(Apply(t, calls[0]).0, calls[1..])
  }

  lemma EmptyIsSound()
    ensures Sound(NO_ROWS, {})
  {
    hide Sum;
    var cells: Cells := map[];
    forall part, scope
      ensures CellSum(cells, part, scope) == LedgerSum(EMPTY, {}, part, scope)
    {
      SumZero(cells.Keys, CellPart(cells, part, scope));
      SumZero<PaymentId>({}, Credit(EMPTY.payments, part, scope));
      SumZero(EMPTY.refunds.Keys, Debit(EMPTY, part, scope));
    }
  }

  lemma {:induction false} RunKeepsSound(t: Tables, booked: set<PaymentId>, calls: seq<Call>)
    requires Sound(t, booked) && FreshRun(t.core, calls)
    ensures Sound(RunTables(t, calls), BookedRun(t.core, booked, calls))
    ensures RunTables(t, calls).core == Run(t.core, calls)
    decreases |calls|
  {
    hide Sound, Step;
    if calls != [] {
      ApplyKeepsSound(t, booked, calls[0]);
      RunKeepsSound(Apply(t, calls[0]).0, BookedAfter(t.core, booked, calls[0]), calls[1..]);
    }
  }

  /** Ledger conservation. After any run from the empty store, each cell holds exactly
      the net amounts of the payments ever settled less those of the settled refunds;
      fees likewise; their total is the gross difference, without remainder. A cell
      nothing was booked to does not count. */
  lemma LedgerConservation(calls: seq<Call>, merchant: string, currency: Currency)
    requires FreshRun(EMPTY, calls)
    ensures var c, booked, cells := Run(EMPTY, calls), BookedRun(EMPTY, {}, calls), RunTables(NO_ROWS, calls).cells;
            var cell := if (merchant, currency) in cells then cells[(merchant, currency)] else Balance(0, 0);
            var scope := OneCell(merchant, currency);
            && cell.balance == LedgerSum(c, booked, NetPart, scope)
            && cell.fees == LedgerSum(c, booked, FeePart, scope)
            && cell.balance + cell.fees == LedgerSum(c, booked, GrossPart, scope)
  {
    hide Sum, LedgerSum;
    EmptyIsSound();
    RunKeepsSound(NO_ROWS, {}, calls);
    var cells := RunTables(NO_ROWS, calls).cells;
    OneCellSum(cells, NetPart, merchant, currency);
    OneCellSum(cells, FeePart, merchant, currency);
    OneCellSum(cells, GrossPart, merchant, currency);
  }

  /** A call touches no cell but the one of its payment, and only settling a payment
      or a refund touches one at all. */
  lemma OtherCellsUntouched(t: Tables, call: Call, key: CellKey)
    requires PostingOf(t.core, call).None?
          || key != (PostingOf(t.core, call).value.merchant, PostingOf(t.core, call).value.currency)
    ensures key in Apply(t, call).0.cells <==> key in t.cells
    ensures key in t.cells ==> Apply(t, call).0.cells[key] == t.cells[key]
    ensures !call.Settle? && !call.SettleRefund? ==> Apply(t, call).0.cells == t.cells
  {
  }

  lemma ParentExists(c: Core, rid: RefundId)
    requires Accounted(c) && rid in c.refunds
    ensures c.refunds[rid].payment in c.payments
  {
    assert RefundKept(c, rid);
  }
}
