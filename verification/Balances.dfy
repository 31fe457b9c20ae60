/** Ledger cells, and the ledger recomputed from history.

    A store keeps one cell per (merchant, currency) and posts to it when a payment
    or a refund settles. Independently of any cell, what a merchant is owed is a sum
    over the payments that were ever settled and the refunds that are settled. */
module Balances {
  import opened Domain
  import opened Ledger
  import opened Money
  import opened Sums

  type CellKey = (string, Currency)
  type Cells = map<CellKey, Balance>

  datatype Posting = Posting(merchant: string, currency: Currency, balance: int, fees: int)

  /** The three quantities booked: the merchant's share, the fee, and their total. */
  datatype Part = NetPart | FeePart | GrossPart

  /** One cell, or all cells of a currency. */
  datatype Scope = OneCell(merchant: string, currency: Currency) | EveryMerchant(currency: Currency)

  predicate InScope(scope: Scope, merchant: string, currency: Currency) {
    scope.currency == currency && (scope.OneCell? ==> scope.merchant == merchant)
  }

  function Share(part: Part, amount: nat): int {
    match part
    case NetPart => Net(amount)
    case FeePart => GripeFee(amount)
    case GrossPart => amount
  }

  function PartOf(part: Part, b: Balance): int {
    match part
    case NetPart => b.balance
    case FeePart => b.fees
    case GrossPart => b.balance + b.fees
  }

  // ---------- what a call posts ----------

  function CreditFor(row: PaymentRow): Posting {
    Posting(row.merchant, row.currency, Net(row.amount), GripeFee(row.amount))
  }

  function DebitFor(r: RefundRow, parent: PaymentRow): Posting {
    Posting(parent.merchant, parent.currency, -Net(r.amount), -(GripeFee(r.amount) as int))
  }

  function PostingOf(c: Core, call: Call): Option<Posting> {
    match call
    case Settle(id, _) =>
      if id in c.payments && Settleable(c.payments[id].status) then Some(CreditFor(c.payments[id])) else None
    case SettleRefund(rid, _) =>
      if rid in c.refunds && c.refunds[rid].status == Created && c.refunds[rid].payment in c.payments
      then Some(DebitFor(c.refunds[rid], c.payments[c.refunds[rid].payment])) else None
    case _ => None
  }

  lemma SharesOfPostings(row: PaymentRow, r: RefundRow, part: Part)
    ensures PartOf(part, Balance(CreditFor(row).balance, CreditFor(row).fees)) == Share(part, row.amount)
    ensures PartOf(part, Balance(DebitFor(r, row).balance, DebitFor(r, row).fees)) == -Share(part, r.amount)
  {
  }

  lemma SharesOfAmount(amount: nat)
    ensures Share(GrossPart, amount) == Share(NetPart, amount) + Share(FeePart, amount)
  {
  }

  /** Upserts one cell. */
  function Post(cells: Cells, p: Posting): Cells {
    var key := (p.merchant, p.currency);
    var was := if key in cells then cells[key] else Balance(0, 0);
    cells[key := Balance(was.balance + p.balance, was.fees + p.fees)]
  }

  function PostAll(cells: Cells, p: Option<Posting>): Cells {
    if p.Some? then Post(cells, p.value) else cells
  }

  function PostedPart(part: Part, scope: Scope, p: Option<Posting>): int {
    if p.Some? && InScope(scope, p.value.merchant, p.value.currency)
    then PartOf(part, Balance(p.value.balance, p.value.fees)) else 0
  }

  // ---------- sums over cells ----------

  ghost function CellPart(cells: Cells, part: Part, scope: Scope): CellKey -> int {
    (key: CellKey) => if key in cells && InScope(scope, key.0, key.1) then PartOf(part, cells[key]) else 0
  }

  ghost function CellSum(cells: Cells, part: Part, scope: Scope): int {
    Sum(cells.Keys, CellPart(cells, part, scope))
  }

  lemma PostMovesItsCell(cells: Cells, p: Posting, part: Part, scope: Scope)
    ensures CellSum(Post(cells, p), part, scope) == CellSum(cells, part, scope) + PostedPart(part, scope, Some(p))
  {
    hide Sum;
    var key := (p.merchant, p.currency);
    var after := Post(cells, p);
    var f, g := CellPart(cells, part, scope), CellPart(after, part, scope);
    if key in cells {
      assert after.Keys == cells.Keys;
      SumUpdate(cells.Keys, key, f, g);
    } else {
      assert after.Keys == cells.Keys + {key};
      SumInsert(cells.Keys, key, g);
      SumCongruent(cells.Keys, f, g);
    }
  }

  /** A one-cell sum is that cell's value, or nothing when the cell is missing. */
  lemma OneCellSum(cells: Cells, part: Part, merchant: string, currency: Currency)
    ensures CellSum(cells, part, OneCell(merchant, currency))
         == if (merchant, currency) in cells then PartOf(part, cells[(merchant, currency)]) else 0
  {
    hide Sum;
    var key := (merchant, currency);
    var f := CellPart(cells, part, OneCell(merchant, currency));
    if key in cells {
      SumRemove(cells.Keys, key, f);
      SumZero(cells.Keys - {key}, f);
    } else {
      SumZero(cells.Keys, f);
    }
  }

  // ---------- the ledger recomputed from history ----------

  ghost function Credit(payments: map<PaymentId, PaymentRow>, part: Part, scope: Scope): PaymentId -> int {
    (id: PaymentId) =>
      if id in payments && InScope(scope, payments[id].merchant, payments[id].currency)
      then Share(part, payments[id].amount) else 0
  }

  ghost function Debit(c: Core, part: Part, scope: Scope): RefundId -> int {
    (rid: RefundId) =>
      if && rid in c.refunds && c.refunds[rid].status == RefundSettled && c.refunds[rid].payment in c.payments
         && InScope(scope, c.payments[c.refunds[rid].payment].merchant, c.payments[c.refunds[rid].payment].currency)
      then Share(part, c.refunds[rid].amount) else 0
  }

  /** Over the payments that were ever settled, less the settled refunds. A payment
      that was settled and then fully refunded no longer says so: `booked` does. */
  ghost function LedgerSum(c: Core, booked: set<PaymentId>, part: Part, scope: Scope): int {
    Sum(booked, Credit(c.payments, part, scope)) - Sum(c.refunds.Keys, Debit(c, part, scope))
  }

  function BookedAfter(c: Core, booked: set<PaymentId>, call: Call): set<PaymentId> {
    if call.Settle? && PostingOf(c, call).Some? then booked + {call.payment} else booked
  }

  function BookedRun(c: Core, booked: set<PaymentId>, calls: seq<Call>): set<PaymentId>
    decreases |calls|
  {
    if calls == [] then booked
    else BookedRun(Step(c, calls[0]).0, BookedAfter(c, booked, calls[0]), calls[1..])
  }

  /** `booked` names existing payments, among them all that read settled, and only
      ones that read settled or refunded. */
  predicate BookedFits(c: Core, booked: set<PaymentId>) {
    && (forall id :: id in booked ==>
          id in c.payments && (c.payments[id].status == Settled || c.payments[id].status == Refunded))
    && (forall id :: id in c.payments && c.payments[id].status == Settled ==> id in booked)
  }

  lemma StepKeepsBooked(c: Core, booked: set<PaymentId>, call: Call)
    requires BookedFits(c, booked) && Fresh(c, call)
    ensures BookedFits(Step(c, call).0, BookedAfter(c, booked, call))
  {
  }

  lemma SameCredits(before: Core, after: Core, booked: set<PaymentId>, part: Part, scope: Scope)
    requires Preserves(before, after) && forall id :: id in booked ==> id in before.payments
    ensures Sum(booked, Credit(after.payments, part, scope)) == Sum(booked, Credit(before.payments, part, scope))
  {
    hide Sum;
    forall id | id in booked
      ensures Credit(after.payments, part, scope)(id) == Credit(before.payments, part, scope)(id)
    {
      assert RowPreserved(before.payments[id], after.payments[id]);
    }
    SumCongruent(booked, Credit(before.payments, part, scope), Credit(after.payments, part, scope));
  }

  /** Adding a refund that is not settled, or none, leaves the debits alone. */
  lemma SameDebits(before: Core, after: Core, part: Part, scope: Scope)
    requires Accounted(before) && Preserves(before, after)
    requires forall rid :: rid in after.refunds && after.refunds[rid].status == RefundSettled
               ==> rid in before.refunds && before.refunds[rid].status == RefundSettled
    ensures Sum(after.refunds.Keys, Debit(after, part, scope)) == Sum(before.refunds.Keys, Debit(before, part, scope))
  {
    hide Sum, RowAccounted;
    var f, g := Debit(before, part, scope), Debit(after, part, scope);
    forall rid | rid in before.refunds
      ensures f(rid) == g(rid)
    {
      assert RefundKept(before, rid) && RefundPreserved(before.refunds[rid], after.refunds[rid]);
      assert RowPreserved(before.payments[before.refunds[rid].payment], after.payments[before.refunds[rid].payment]);
    }
    SumCongruent(before.refunds.Keys, f, g);
    SumExtraZeros(before.refunds.Keys, after.refunds.Keys, g);
  }

  lemma NewDebit(c: Core, rid: RefundId, part: Part, scope: Scope)
    requires rid in c.refunds && c.refunds[rid].status == Created && c.refunds[rid].payment in c.payments
    ensures Sum(SettleRefundStep(c, rid).0.refunds.Keys, Debit(SettleRefundStep(c, rid).0, part, scope))
         == Sum(c.refunds.Keys, Debit(c, part, scope)) - PostedPart(part, scope, PostingOf(c, SettleRefund(rid, 0)))
  {
    hide Sum, GripeFee;
    var after := SettleRefundStep(c, rid).0;
    var f, g := Debit(c, part, scope), Debit(after, part, scope);
    assert after.refunds.Keys == c.refunds.Keys;
    SharesOfPostings(c.payments[c.refunds[rid].payment], c.refunds[rid], part);
    assert f(rid) == 0 && g(rid) == -PostedPart(part, scope, PostingOf(c, SettleRefund(rid, 0)));
    SumUpdate(c.refunds.Keys, rid, f, g);
  }

  lemma NewCredit(c: Core, booked: set<PaymentId>, id: PaymentId, now: Instant, part: Part, scope: Scope)
    requires id !in booked && PostingOf(c, Settle(id, now)).Some?
    ensures var payments := SettleStep(c, id, now).0.payments;
            Sum(booked + {id}, Credit(payments, part, scope))
            == Sum(booked, Credit(payments, part, scope)) + PostedPart(part, scope, PostingOf(c, Settle(id, now)))
  {
    hide Sum, GripeFee;
    var payments := SettleStep(c, id, now).0.payments;
    SharesOfPostings(c.payments[id], RefundRow(id, 0, Created, 0), part);
    SumInsert(booked, id, Credit(payments, part, scope));
  }

  /** Every call moves the recomputed ledger by exactly what it posts, in the posted
      cell and nowhere else. */
  lemma StepMovesLedger(c: Core, booked: set<PaymentId>, call: Call, part: Part, scope: Scope)
    requires Accounted(c) && BookedFits(c, booked) && Fresh(c, call)
    ensures LedgerSum(Step(c, call).0, BookedAfter(c, booked, call), part, scope)
         == LedgerSum(c, booked, part, scope) + PostedPart(part, scope, PostingOf(c, call))
  {
    hide Sum, Accounted, Credit, Debit, GripeFee, Preserves;
    var after := Step(c, call).0;
    StepPreserves(c, call);
    SameCredits(c, after, booked, part, scope);
    if call.SettleRefund? && PostingOf(c, call).Some? {
      NewDebit(c, call.refund, part, scope);
    } else {
      SameDebits(c, after, part, scope);
      if call.Settle? && PostingOf(c, call).Some? {
        NewCredit(c, booked, call.payment, call.now, part, scope);
      }
    }
  }

  /** Merchant share and fee make up the gross amounts, with no remainder. */
  lemma SharesAddUp(c: Core, booked: set<PaymentId>, scope: Scope)
    ensures LedgerSum(c, booked, NetPart, scope) + LedgerSum(c, booked, FeePart, scope)
         == LedgerSum(c, booked, GrossPart, scope)
  {
    hide Sum, GripeFee;
    SumAdd(booked, Credit(c.payments, NetPart, scope), Credit(c.payments, FeePart, scope),
           Credit(c.payments, GrossPart, scope));
    forall rid | rid in c.refunds
      ensures Debit(c, GrossPart, scope)(rid) == Debit(c, NetPart, scope)(rid) + Debit(c, FeePart, scope)(rid)
    {
      SharesOfAmount(c.refunds[rid].amount);
    }
    SumAdd(c.refunds.Keys, Debit(c, NetPart, scope), Debit(c, FeePart, scope), Debit(c, GrossPart, scope));
  }

  /** The cells agree with the recomputed ledger on every scope and every part. */
  ghost predicate Conserved(c: Core, booked: set<PaymentId>, cells: Cells) {
    forall part, scope :: CellSum(cells, part, scope) == LedgerSum(c, booked, part, scope)
  }

  lemma StepConserves(c: Core, booked: set<PaymentId>, cells: Cells, call: Call)
    requires Accounted(c) && BookedFits(c, booked) && Fresh(c, call) && Conserved(c, booked, cells)
    ensures Conserved(Step(c, call).0, BookedAfter(c, booked, call), PostAll(cells, PostingOf(c, call)))
  {
    hide Accounted, BookedFits, CellSum, LedgerSum, Step, Post;
    forall part, scope
      ensures CellSum(PostAll(cells, PostingOf(c, call)), part, scope)
           == LedgerSum(Step(c, call).0, BookedAfter(c, booked, call), part, scope)
    {
      StepMovesLedger(c, booked, call, part, scope);
      if PostingOf(c, call).Some? {
        PostMovesItsCell(cells, PostingOf(c, call).value, part, scope);
      }
    }
  }

  // ---------- what the balance reads return ----------

  function CurrencyRank(c: Currency): nat {
    match c
    case EUR => 0
    case GBP => 1
    case USD => 2
    case OtherCurrency(_) => 3
  }

  const CURRENCIES: seq<Currency> := [EUR, GBP, USD]

  /** The codes the currencies are stored under. */
  function Code(c: Currency): string {
    match c
    case EUR => "EUR"
    case GBP => "GBP"
    case USD => "USD"
    case OtherCurrency(code) => code
  }

  /** The order of strings, character by character. */
  predicate Before(a: string, b: string) {
    b != "" && (a == "" || a[0] < b[0] || (a[0] == b[0] && Before(a[1..], b[1..])))
  }

  /** The rank orders the currencies as their codes do, and the list holds them all. */
  lemma RankIsCodeOrder(a: Currency, b: Currency)
    requires a.Valid() && b.Valid()
    ensures CurrencyRank(a) < CurrencyRank(b) <==> Before(Code(a), Code(b))
    ensures a in CURRENCIES && a == CURRENCIES[CurrencyRank(a)]
  {
    assert "EUR"[0] == 'E' && "GBP"[0] == 'G' && "USD"[0] == 'U';
    if a == b {
      assert !Before(Code(a)[1..][1..][1..], Code(b)[1..][1..][1..]);
    }
  }

  /** One row per cell of the merchant, ascending by currency code. */
  ghost predicate IsBalanceList(rows: seq<(Currency, Balance)>, cells: Cells, merchant: string) {
    && (forall row :: row in rows <==> (merchant, row.0) in cells && cells[(merchant, row.0)] == row.1)
    && (forall i, j :: 0 <= i < j < |rows| ==> CurrencyRank(rows[i].0) < CurrencyRank(rows[j].0))
  }

  /** One row per currency in use, ascending, with the fees of all merchants. */
  ghost predicate IsRevenueReport(rows: seq<(Currency, int)>, cells: Cells) {
    && (forall row :: row in rows <==>
          (exists key :: key in cells && key.1 == row.0) && row.1 == CellSum(cells, FeePart, EveryMerchant(row.0)))
    && (forall i, j :: 0 <= i < j < |rows| ==> CurrencyRank(rows[i].0) < CurrencyRank(rows[j].0))
  }
}
