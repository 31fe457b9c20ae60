/** Everything a caller can ask a store about payments, and both stores' answers to it:
    the calls on payments, listings, a merchant's balances and the revenue report. */
module Requests {
  import opened Domain
  import opened Ledger
  import opened Sums
  import opened Balances
  import opened Relational
  import opened Documents
  import opened Agreement
  import opened Listing
  import opened ListingStores
  import MongoStore

  datatype Request =
    | OfCall(call: Call)
    | ListPayments(scope: string, filters: Filters, cursor: Cursor)
    | MerchantBalances(merchant: string)
    | RevenueReport

  /** Payments in answers come without their update time. */
  datatype Answer =
    | Replied(reply: Reply)
    | Listed(page: Result<(seq<Payment>, Cursor)>)
    | BalanceRows(balances: seq<(Currency, Balance)>)
    | RevenueRows(revenue: seq<(Currency, int)>)

  // ---------- what each store answers ----------

  ghost function PageAnswer(t: Table, scope: string, f: Filters, cursor: Cursor): Answer {
    match ListPage(t, scope, f, cursor)
    case Err(e) => Listed(Err(e))
    case Ok(page) => Listed(Ok((ViewsOf(t, page.items), page.next)))
  }

  function ViewsOf(t: Table, ids: seq<PaymentId>): seq<Payment> {
    if ids == [] then []
    else (if ids[0] in t then [t[ids[0]].(updatedAt := 0)] else []) + ViewsOf(t, ids[1..])
  }

  /** One row for each currency that has a value, in the order of CURRENCIES. */
  ghost function Rows<T(!new)>(value: Currency -> Option<T>, i: nat): seq<(Currency, T)>
    requires i <= |CURRENCIES|
    decreases |CURRENCIES| - i
  {
    if i == |CURRENCIES| then []
    else
      (match value(CURRENCIES[i]) case None => [] case Some(v) => [(CURRENCIES[i], v)]) + Rows(value, i + 1)
  }

  ghost function CellAt(cells: Cells, merchant: string): Currency -> Option<Balance> {
    (cur: Currency) => if (merchant, cur) in cells then Some(cells[(merchant, cur)]) else None
  }

  ghost function DocCellAt(merchants: MerchantDocs, merchant: string): Currency -> Option<Balance> {
    (cur: Currency) =>
      if merchant in merchants && cur in merchants[merchant] then Some(merchants[merchant][cur]) else None
  }

  ghost function FeesAt(cells: Cells): Currency -> Option<int> {
    (cur: Currency) =>
      if exists key :: key in cells && key.1 == cur then Some(CellSum(cells, FeePart, EveryMerchant(cur))) else None
  }

  ghost function DocFees(merchants: MerchantDocs, cur: Currency): string -> int {
    (m: string) => if m in merchants && cur in merchants[m] then merchants[m][cur].fees else 0
  }

  ghost function DocFeesAt(merchants: MerchantDocs): Currency -> Option<int> {
    (cur: Currency) =>
      if exists m :: m in merchants && cur in merchants[m]
      then Some(Sum(merchants.Keys, DocFees(merchants, cur))) else None
  }

  ghost function TableAnswer(t: Tables, r: Request): Answer {
    match r
    case OfCall(call) => Replied(Erase(Apply(t, call).1))
    case ListPayments(scope, f, cursor) => PageAnswer(RowTable(t.core), scope, f, cursor)
    case MerchantBalances(merchant) => BalanceRows(Rows(CellAt(t.cells, merchant), 0))
    case RevenueReport => RevenueRows(Rows(FeesAt(t.cells), 0))
  }

  ghost function DocAnswer(d: Docs, r: Request): Answer {
    match r
    case OfCall(call) => Replied(Erase(ApplyDocs(d, call).1))
    case ListPayments(scope, f, cursor) => PageAnswer(DocTable(d.payments), scope, f, cursor)
    case MerchantBalances(merchant) => BalanceRows(Rows(DocCellAt(d.merchants, merchant), 0))
    case RevenueReport => RevenueRows(Rows(DocFeesAt(d.merchants), 0))
  }

  // ---------- the rows are the lists the stores are proved to return ----------

  lemma RankOfListed(cur: Currency, i: nat)
    requires i < |CURRENCIES|
    ensures CurrencyRank(CURRENCIES[i]) == i
    ensures CurrencyRank(cur) == i <==> cur == CURRENCIES[i]
  {
  }

  lemma {:induction false} RowsHave<T(!new)>(value: Currency -> Option<T>, i: nat, row: (Currency, T))
    requires i <= |CURRENCIES|
    ensures row in Rows(value, i) <==> i <= CurrencyRank(row.0) < |CURRENCIES| && value(row.0) == Some(row.1)
    decreases |CURRENCIES| - i
  {
    hide CurrencyRank;
    if i < |CURRENCIES| {
      RankOfListed(row.0, i);
      RowsHave(value, i + 1, row);
    }
  }

  lemma {:induction false} RowsAscend<T(!new)>(value: Currency -> Option<T>, i: nat)
    requires i <= |CURRENCIES|
    ensures Ascending(Rows(value, i))
    decreases |CURRENCIES| - i
  {
    hide CurrencyRank;
    if i < |CURRENCIES| {
      var rest := Rows(value, i + 1);
      RowsAscend(value, i + 1);
      RankOfListed(CURRENCIES[i], i);
      if value(CURRENCIES[i]).Some? {
        forall k | 0 <= k < |rest|
          ensures CurrencyRank(CURRENCIES[i]) < CurrencyRank(rest[k].0)
        {
          RowsHave(value, i + 1, rest[k]);
        }
      } else {
        assert Rows(value, i) == rest;
      }
    }
  }

  lemma RowsOf<T(!new)>(value: Currency -> Option<T>)
    ensures Ascending(Rows(value, 0))
    ensures forall row :: row in Rows(value, 0) <==> CurrencyRank(row.0) < |CURRENCIES| && value(row.0) == Some(row.1)
  {
    hide CurrencyRank, Rows;
    RowsAscend(value, 0);
    forall row
      ensures row in Rows(value, 0) <==> 0 <= CurrencyRank(row.0) < |CURRENCIES| && value(row.0) == Some(row.1)
    {
      RowsHave(value, 0, row);
    }
  }

  /** A balance list of the cells is the answer given here, whichever store made it. */
  lemma BalanceListIsAnswer(t: Tables, merchant: string, list: seq<(Currency, Balance)>)
    requires ReferencesHold(t) && IsBalanceList(list, t.cells, merchant)
    ensures TableAnswer(t, MerchantBalances(merchant)) == BalanceRows(list)
  {
    RowsOf(CellAt(t.cells, merchant));
    BalanceListIsUnique(list, Rows(CellAt(t.cells, merchant), 0), t.cells, merchant);
  }

  lemma ReportRow(t: Tables, row: (Currency, int))
    requires ReferencesHold(t)
    ensures CurrencyRank(row.0) < |CURRENCIES| && FeesAt(t.cells)(row.0) == Some(row.1) <==>
              (exists key :: key in t.cells && key.1 == row.0) && row.1 == CellSum(t.cells, FeePart, EveryMerchant(row.0))
  {
    hide CellSum;
  }

  lemma RowsAreReport(t: Tables)
    requires ReferencesHold(t)
    ensures IsRevenueReport(Rows(FeesAt(t.cells), 0), t.cells)
  {
    hide Rows, CellSum, FeesAt, CurrencyRank, ReferencesHold;
    RowsOf(FeesAt(t.cells));
    forall row
      ensures row in Rows(FeesAt(t.cells), 0) <==>
                (exists key :: key in t.cells && key.1 == row.0) && row.1 == CellSum(t.cells, FeePart, EveryMerchant(row.0))
    {
      ReportRow(t, row);
    }
  }

  /** And so is a revenue report. */
  lemma ReportIsAnswer(t: Tables, list: seq<(Currency, int)>)
    requires ReferencesHold(t) && IsRevenueReport(list, t.cells)
    ensures TableAnswer(t, RevenueReport) == RevenueRows(list)
  {
    hide Rows, CellSum, FeesAt, IsRevenueReport;
    RowsAreReport(t);
    RevenueReportIsUnique(list, Rows(FeesAt(t.cells), 0), t.cells);
  }

  // ---------- request by request ----------

  lemma {:induction false} SameRows<T(!new)>(f: Currency -> Option<T>, g: Currency -> Option<T>, i: nat)
    requires i <= |CURRENCIES| && forall cur :: f(cur) == g(cur)
    ensures Rows(f, i) == Rows(g, i)
    decreases |CURRENCIES| - i
  {
    if i < |CURRENCIES| {
      SameRows(f, g, i + 1);
    }
  }

  lemma {:induction false} SameViewsOf(t: Table, u: Table, ids: seq<PaymentId>)
    requires t.Keys == u.Keys && forall id :: id in t ==> t[id].(updatedAt := 0) == u[id].(updatedAt := 0)
    ensures ViewsOf(t, ids) == ViewsOf(u, ids)
  {
    if ids != [] {
      SameViewsOf(t, u, ids[1..]);
    }
  }

  /** Grouping one currency's cells by merchant document. */
  lemma {:induction false} FeesByMerchant(cells: Cells, merchants: MerchantDocs, ms: set<string>, cur: Currency)
    requires CellsMatch(cells, merchants) && ms <= merchants.Keys
    ensures Sum(MongoStore.KeysOf(cells, ms), CellPart(cells, FeePart, EveryMerchant(cur)))
         == Sum(ms, DocFees(merchants, cur))
  {
    hide Sum, CellPart, CellsMatch;
    if ms == {} {
      assert MongoStore.KeysOf(cells, ms) == {};
      SumZero(MongoStore.KeysOf(cells, ms), CellPart(cells, FeePart, EveryMerchant(cur)));
      SumZero(ms, DocFees(merchants, cur));
    } else {
      var m :| m in ms;
      MongoStore.DropMerchant(cells, merchants, ms, m, cur);
      SumRemove(ms, m, DocFees(merchants, cur));
      FeesByMerchant(cells, merchants, ms - {m}, cur);
    }
  }

  lemma SameFeesAt(cells: Cells, merchants: MerchantDocs, cur: Currency)
    requires CellsMatch(cells, merchants)
    ensures FeesAt(cells)(cur) == DocFeesAt(merchants)(cur)
  {
    hide Sum;
    FeesByMerchant(cells, merchants, merchants.Keys, cur);
    assert MongoStore.KeysOf(cells, merchants.Keys) == cells.Keys;
    assert CellSum(cells, FeePart, EveryMerchant(cur)) == Sum(merchants.Keys, DocFees(merchants, cur));
    if key :| key in cells && key.1 == cur {
      assert key.0 in merchants && cur in merchants[key.0];
    }
    if m :| m in merchants && cur in merchants[m] {
      assert (m, cur) in cells;
    }
  }

  lemma ReadsAgree(t: Tables, d: Docs, r: Request)
    requires Related(t, d) && !r.OfCall?
    ensures TableAnswer(t, r) == DocAnswer(d, r)
  {
    hide Matches, ListPage, Sum, CellSum, FeesAt, DocFeesAt;
    match r
    case ListPayments(scope, f, cursor) =>
      ListingsAgree(t.core, d.payments, scope, f, cursor);
      SameIds(t.core, d.payments);
      var page := ListPage(RowTable(t.core), scope, f, cursor);
      if page.Ok? {
        SameViewsOf(RowTable(t.core), DocTable(d.payments), page.value.items);
      }
    case MerchantBalances(merchant) =>
      SameRows(CellAt(t.cells, merchant), DocCellAt(d.merchants, merchant), 0);
    case RevenueReport =>
      forall cur
        ensures FeesAt(t.cells)(cur) == DocFeesAt(d.merchants)(cur)
      {
        SameFeesAt(t.cells, d.merchants, cur);
      }
      SameRows(FeesAt(t.cells), DocFeesAt(d.merchants), 0);
  }

  predicate Positive(r: Request) {
    r.OfCall? ==> PositiveFee(r.call)
  }

  // ---------- whole runs ----------

  function ServeTables(t: Tables, r: Request): Tables {
    if r.OfCall? then Apply(t, r.call).0 else t
  }

  ghost function ServeDocs(d: Docs, r: Request): Docs {
    if r.OfCall? then ApplyDocs(d, r.call).0 else d
  }

  ghost function TableAnswers(t: Tables, rs: seq<Request>): seq<Answer>
    decreases |rs|
  {
    if rs == [] then [] else [TableAnswer(t, rs[0])] + TableAnswers(ServeTables(t, rs[0]), rs[1..])
  }

  ghost function DocAnswers(d: Docs, rs: seq<Request>): seq<Answer>
    decreases |rs|
  {
    if rs == [] then [] else [DocAnswer(d, rs[0])] + DocAnswers(ServeDocs(d, rs[0]), rs[1..])
  }

  function CallsOf(rs: seq<Request>): seq<Call> {
    if rs == [] then [] else (if rs[0].OfCall? then [rs[0].call] else []) + CallsOf(rs[1..])
  }

  predicate AllPositive(rs: seq<Request>) {
    forall i :: 0 <= i < |rs| ==> Positive(rs[i])
  }

  lemma OneRequest(t: Tables, d: Docs, booked: set<PaymentId>, r: Request)
    requires Sound(t, booked) && Related(t, d) && (r.OfCall? ==> Fresh(t.core, r.call))
    ensures TableAnswer(t, r) == DocAnswer(d, r) <==> Positive(r)
    ensures Positive(r) ==> Related(ServeTables(t, r), ServeDocs(d, r))
    ensures Sound(ServeTables(t, r), if r.OfCall? then BookedAfter(t.core, booked, r.call) else booked)
    ensures r.OfCall? ==> ServeTables(t, r).core == Step(t.core, r.call).0
  {
    hide Related, Apply, ApplyDocs, Accounted, ReferencesHold, Conserved, BookedFits;
    if r.OfCall? {
      CallAgreesIff(t, d, r.call);
      ApplyKeepsSound(t, booked, r.call);
      ApplySteps(t, r.call);
    } else {
      ReadsAgree(t, d, r);
    }
  }

  /** The two stores agree. Over any run of requests with the same ids and clock, all
      answers are equal, listed payments, cursors, balances and revenue included, up to
      updated_at, if and only if every network fee in the run is positive; and then the
      stores still hold the same data. */
  lemma {:induction false} StoresAgreeIff(t: Tables, d: Docs, booked: set<PaymentId>, rs: seq<Request>)
    requires Sound(t, booked) && Related(t, d) && FreshRun(t.core, CallsOf(rs))
    ensures TableAnswers(t, rs) == DocAnswers(d, rs) <==> AllPositive(rs)
    ensures AllPositive(rs) ==> Related(RunTables(t, CallsOf(rs)), RunDocs(d, CallsOf(rs)))
    decreases |rs|
  {
    hide Related, Sound, TableAnswer, DocAnswer, Apply, ApplyDocs, Step, Fresh, Positive, BookedAfter;
    if rs != [] {
      var r, rest := rs[0], rs[1..];
      assert CallsOf(rs) == (if r.OfCall? then [r.call] else []) + CallsOf(rest);
      if r.OfCall? {
        assert CallsOf(rs)[0] == r.call && CallsOf(rs)[1..] == CallsOf(rest);
      } else {
        assert CallsOf(rs) == CallsOf(rest);
      }
      OneRequest(t, d, booked, r);
      assert AllPositive(rs) <==> Positive(r) && AllPositive(rest) by {
        assert forall i :: 0 < i < |rs| ==> rs[i] == rest[i - 1];
        assert forall i :: 0 <= i < |rest| ==> rest[i] == rs[i + 1];
      }
      assert TableAnswers(t, rs)[0] == TableAnswer(t, r);
      assert TableAnswers(t, rs)[1..] == TableAnswers(ServeTables(t, r), rest);
      assert DocAnswers(d, rs)[0] == DocAnswer(d, r) && DocAnswers(d, rs)[1..] == DocAnswers(ServeDocs(d, r), rest);
      if Positive(r) {
        StoresAgreeIff(ServeTables(t, r), ServeDocs(d, r),
                       if r.OfCall? then BookedAfter(t.core, booked, r.call) else booked, rest);
      }
    }
  }

  /** From empty stores. */
  lemma StoresAgreeFromEmptyIff(rs: seq<Request>)
    requires FreshRun(EMPTY, CallsOf(rs))
    ensures TableAnswers(NO_ROWS, rs) == DocAnswers(NO_DOCS, rs) <==>
              forall i :: 0 <= i < |rs| && rs[i].OfCall? && rs[i].call.NetworkFee? ==> rs[i].call.fee >= 1
    ensures AllPositive(rs) ==> Related(RunTables(NO_ROWS, CallsOf(rs)), RunDocs(NO_DOCS, CallsOf(rs)))
  {
    hide Related, Sound;
    EmptyIsSound();
    EmptyStoresAreRelated();
    StoresAgreeIff(NO_ROWS, NO_DOCS, {}, rs);
  }
}
