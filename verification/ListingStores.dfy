/** How each store answers a listing: build a query step by step, take one row more
    than a page, cut it off and remember where the page ended. */
module ListingStores {
  import opened Domain
  import opened Listing
  import L = Ledger
  import D = Documents

  // ---------- ORDER BY created_at DESC, id DESC LIMIT n ----------

  lemma NewestFirst(t: Table, ids: set<PaymentId>, top: PaymentId)
    requires ids <= t.Keys && IsNewest(t, ids, top)
    ensures Sorted(t, ids) == [top] + Sorted(t, ids - {top})
  {
    hide Sorted, Newer;
    var rest := Sorted(t, ids - {top});
    var s := [top] + rest;
    forall i, j | 0 <= i < j < |s|
      ensures Newer(t, s[i], s[j])
    {
      assert s[j] == rest[j - 1] && rest[j - 1] in rest;
      assert i > 0 ==> s[i] == rest[i - 1];
    }
    ListsUnique(t, ids, s);
  }

  method TakeNewest(t: Table, ids: set<PaymentId>, limit: nat) returns (rows: seq<PaymentId>)
    requires ids <= t.Keys
    ensures rows == if |ids| <= limit then Sorted(t, ids) else Sorted(t, ids)[..limit]
  {
    hide Sorted, IsNewest, Lists;
    rows := [];
    var rest := ids;
    assert rows + Sorted(t, rest) == Sorted(t, ids);
    while rest != {} && |rows| < limit
      invariant rest <= ids && |rows| <= limit
      invariant rows + Sorted(t, rest) == Sorted(t, ids)
      decreases rest
    {
      NewestExists(t, rest);
      var top :| top in rest && IsNewest(t, rest, top);
      NewestFirst(t, rest, top);
      assert rows + Sorted(t, rest) == rows + [top] + Sorted(t, rest - {top});
      rows := rows + [top];
      rest := rest - {top};
    }
    if rest == {} {
      assert Sorted(t, {}) == [];
    }
  }

  /** One row more than a page shows whether more follow. */
  method Cut(t: Table, scope: string, f: Filters, cursor: Cursor, rows: seq<PaymentId>) returns (page: Page)
    requires cursor != Garbage
    requires var all := Sorted(t, Remaining(t, scope, f, cursor));
             rows == if |all| <= PAGE_MAX + 1 then all else all[..PAGE_MAX + 1]
    ensures Ok(page) == ListPage(t, scope, f, cursor)
  {
    hide Sorted, Remaining, Lists;
    var next, items := Start, rows;
    if |items| > PAGE_MAX {
      var last := items[PAGE_MAX - 1];
      next := After(t[last].createdAt, last);
      items := items[..PAGE_MAX];
      assert items == Sorted(t, Remaining(t, scope, f, cursor))[..PAGE_MAX];
    }
    page := Page(items, next);
  }

  // ---------- the relational query: a list of conditions ----------

  datatype Cond =
    | MerchantIs(merchant: string)
    | StatusIs(status: Status)
    | MethodIs(via: PaymentMethod)
    | CurrencyIs(currency: Currency)
    | CreatedFrom(from: Instant)
    | CreatedTo(to: Instant)
    | AmountFrom(min: int)
    | AmountTo(max: int)
    | KeyBefore(createdAt: Instant, id: PaymentId)

  predicate Holds(c: Cond, id: PaymentId, p: Payment) {
    match c
    case MerchantIs(m) => p.merchant == m
    case StatusIs(s) => p.status == s
    case MethodIs(v) => p.via == v
    case CurrencyIs(cur) => p.currency == cur
    case CreatedFrom(from) => p.createdAt >= from
    case CreatedTo(to) => p.createdAt <= to
    case AmountFrom(min) => p.amount >= min
    case AmountTo(max) => p.amount <= max
    case KeyBefore(createdAt, last) => p.createdAt < createdAt || (p.createdAt == createdAt && id < last)
  }

  predicate AllHold(where: seq<Cond>, id: PaymentId, p: Payment) {
    forall c :: c in where ==> Holds(c, id, p)
  }

  /** The conditions a filter asks for: equal fields, then bounds. */
  function Fields(scope: string, f: Filters): seq<Cond> {
    (if scope != "" then [MerchantIs(scope)] else if f.merchant != "" then [MerchantIs(f.merchant)] else [])
    + (if f.status.Some? then [StatusIs(f.status.value)] else [])
    + (if f.via.Some? then [MethodIs(f.via.value)] else [])
    + (if f.currency.Some? then [CurrencyIs(f.currency.value)] else [])
  }

  function Bounds(f: Filters): seq<Cond> {
    (if f.from.Some? then [CreatedFrom(f.from.value)] else [])
    + (if f.to.Some? then [CreatedTo(f.to.value)] else [])
    + (if f.minMinor > 0 then [AmountFrom(f.minMinor)] else [])
    + (if f.maxMinor > 0 then [AmountTo(f.maxMinor)] else [])
  }

  lemma AllHoldConcat(a: seq<Cond>, b: seq<Cond>, id: PaymentId, p: Payment)
    ensures AllHold(a + b, id, p) <==> AllHold(a, id, p) && AllHold(b, id, p)
  {
    assert forall c :: c in a + b <==> c in a || c in b;
  }

  lemma FourHold(a: seq<Cond>, b: seq<Cond>, c: seq<Cond>, d: seq<Cond>, id: PaymentId, p: Payment)
    requires |a| <= 1 && |b| <= 1 && |c| <= 1 && |d| <= 1
    ensures AllHold(a + b + c + d, id, p) <==>
              && (a == [] || Holds(a[0], id, p)) && (b == [] || Holds(b[0], id, p))
              && (c == [] || Holds(c[0], id, p)) && (d == [] || Holds(d[0], id, p))
  {
    hide Holds;
    AllHoldConcat(a + b + c, d, id, p);
    AllHoldConcat(a + b, c, id, p);
    AllHoldConcat(a, b, id, p);
  }

  /** The conditions hold of exactly the payments that pass the filter. */
  lemma WhereMeansPasses(scope: string, f: Filters, id: PaymentId, p: Payment)
    ensures AllHold(Fields(scope, f) + Bounds(f), id, p) <==> Passes(scope, f, p)
  {
    hide AllHold;
    AllHoldConcat(Fields(scope, f), Bounds(f), id, p);
    FourHold(if scope != "" then [MerchantIs(scope)] else if f.merchant != "" then [MerchantIs(f.merchant)] else [],
             if f.status.Some? then [StatusIs(f.status.value)] else [],
             if f.via.Some? then [MethodIs(f.via.value)] else [],
             if f.currency.Some? then [CurrencyIs(f.currency.value)] else [], id, p);
    FourHold(if f.from.Some? then [CreatedFrom(f.from.value)] else [],
             if f.to.Some? then [CreatedTo(f.to.value)] else [],
             if f.minMinor > 0 then [AmountFrom(f.minMinor)] else [],
             if f.maxMinor > 0 then [AmountTo(f.maxMinor)] else [], id, p);
  }

  lemma AtMostOneHolds(w: seq<Cond>, id: PaymentId, p: Payment)
    requires |w| <= 1
    ensures AllHold(w, id, p) <==> w == [] || Holds(w[0], id, p)
  {
  }

  method BuildWhere(scope: string, f: Filters) returns (where: seq<Cond>)
    ensures where == Fields(scope, f)
  {
    where := [];
    if scope != "" {
      where := where + [MerchantIs(scope)];
    } else if f.merchant != "" {
      where := where + [MerchantIs(f.merchant)];
    }
    if f.status.Some? {
      where := where + [StatusIs(f.status.value)];
    }
    if f.via.Some? {
      where := where + [MethodIs(f.via.value)];
    }
    if f.currency.Some? {
      where := where + [CurrencyIs(f.currency.value)];
    }
  }

  method AddBounds(f: Filters, where: seq<Cond>) returns (r: seq<Cond>)
    ensures r == where + Bounds(f)
  {
    var bounds: seq<Cond> := [];
    if f.from.Some? {
      bounds := bounds + [CreatedFrom(f.from.value)];
    }
    if f.to.Some? {
      bounds := bounds + [CreatedTo(f.to.value)];
    }
    if f.minMinor > 0 {
      bounds := bounds + [AmountFrom(f.minMinor)];
    }
    if f.maxMinor > 0 {
      bounds := bounds + [AmountTo(f.maxMinor)];
    }
    assert bounds == Bounds(f);
    r := where + bounds;
  }

  method PgListPayments(t: Table, scope: string, f: Filters, cursor: Cursor) returns (r: Result<Page>)
    ensures r == ListPage(t, scope, f, cursor)
  {
    hide AllHold, Fields, Bounds, Sorted, Passes, Lists;
    var where := BuildWhere(scope, f);
    where := AddBounds(f, where);
    match cursor {
      case Start =>
      case After(createdAt, last) => where := where + [KeyBefore(createdAt, last)];
      case Garbage => return Err(InvalidState);
    }
    var ids := set id | id in t && AllHold(where, id, t[id]);
    forall id | id in t
      ensures AllHold(where, id, t[id]) <==> Passes(scope, f, t[id]) && Past(cursor, id, t[id])
    {
      WhereMeansPasses(scope, f, id, t[id]);
      if cursor.After? {
        AllHoldConcat(Fields(scope, f) + Bounds(f), [KeyBefore(cursor.createdAt, cursor.id)], id, t[id]);
        AtMostOneHolds([KeyBefore(cursor.createdAt, cursor.id)], id, t[id]);
      }
    }
    assert ids == Remaining(t, scope, f, cursor);
    var rows := TakeNewest(t, ids, PAGE_MAX + 1);
    var page := Cut(t, scope, f, cursor, rows);
    r := Ok(page);
  }

  // ---------- the document query: one entry per field ----------

  datatype Range = Range(gte: Option<int>, lte: Option<int>)

  datatype Query = Query(
    merchant: Option<string>, status: Option<Status>, via: Option<PaymentMethod>, currency: Option<Currency>,
    created: Option<Range>, amount: Option<Range>, before: Option<(Instant, PaymentId)>)

  predicate InRange(r: Option<Range>, x: int) {
    r.Some? ==> (r.value.gte.Some? ==> r.value.gte.value <= x) && (r.value.lte.Some? ==> x <= r.value.lte.value)
  }

  predicate Admits(q: Query, id: PaymentId, p: Payment) {
    && (q.merchant.Some? ==> p.merchant == q.merchant.value)
    && (q.status.Some? ==> p.status == q.status.value)
    && (q.via.Some? ==> p.via == q.via.value)
    && (q.currency.Some? ==> p.currency == q.currency.value)
    && InRange(q.created, p.createdAt) && InRange(q.amount, p.amount)
    && (q.before.Some? ==>
          p.createdAt < q.before.value.0 || (p.createdAt == q.before.value.0 && id < q.before.value.1))
  }

  /** The document query of a filter: both bounds of a field share one entry. */
  function QueryFor(scope: string, f: Filters): Query {
    Query(
      if scope != "" then Some(scope) else if f.merchant != "" then Some(f.merchant) else None,
      f.status, f.via, f.currency,
      if f.from.Some? || f.to.Some? then Some(Range(f.from, f.to)) else None,
      if f.minMinor > 0 || f.maxMinor > 0
      then Some(Range(if f.minMinor > 0 then Some(f.minMinor) else None, if f.maxMinor > 0 then Some(f.maxMinor) else None))
      else None,
      None)
  }

  /** The query admits exactly the payments that pass the filter. */
  lemma QueryMeansPasses(scope: string, f: Filters, id: PaymentId, p: Payment)
    ensures Admits(QueryFor(scope, f), id, p) <==> Passes(scope, f, p)
  {
  }

  lemma QueryHasNoCursor(scope: string, f: Filters)
    ensures QueryFor(scope, f).before.None?
  {
  }

  method BuildQuery(scope: string, f: Filters) returns (q: Query)
    ensures q == QueryFor(scope, f)
  {
    q := Query(None, None, None, None, None, None, None);
    if scope != "" {
      q := q.(merchant := Some(scope));
    } else if f.merchant != "" {
      q := q.(merchant := Some(f.merchant));
    }
    if f.status.Some? {
      q := q.(status := f.status);
    }
    if f.via.Some? {
      q := q.(via := f.via);
    }
    if f.currency.Some? {
      q := q.(currency := f.currency);
    }
    if f.from.Some? || f.to.Some? {
      var created := Range(None, None);
      if f.from.Some? {
        created := created.(gte := f.from);
      }
      if f.to.Some? {
        created := created.(lte := f.to);
      }
      q := q.(created := Some(created));
    }
    if f.minMinor > 0 || f.maxMinor > 0 {
      var amount := Range(None, None);
      if f.minMinor > 0 {
        amount := amount.(gte := Some(f.minMinor));
      }
      if f.maxMinor > 0 {
        amount := amount.(lte := Some(f.maxMinor));
      }
      q := q.(amount := Some(amount));
    }
  }

  method MongoListPayments(t: Table, scope: string, f: Filters, cursor: Cursor) returns (r: Result<Page>)
    ensures r == ListPage(t, scope, f, cursor)
  {
    hide Sorted, Passes, InRange, Lists, QueryFor;
    var q := BuildQuery(scope, f);
    ghost var base := q;
    assert base.before.None? by {
      QueryHasNoCursor(scope, f);
    }
    match cursor {
      case Start =>
      case After(createdAt, last) => q := q.(before := Some((createdAt, last)));
      case Garbage => return Err(InvalidState);
    }
    var ids := set id | id in t && Admits(q, id, t[id]);
    forall id | id in t
      ensures Admits(q, id, t[id]) <==> Passes(scope, f, t[id]) && Past(cursor, id, t[id])
    {
      QueryMeansPasses(scope, f, id, t[id]);
      assert Admits(q, id, t[id]) <==> Admits(base, id, t[id]) && Past(cursor, id, t[id]);
    }
    assert ids == Remaining(t, scope, f, cursor);
    var rows := TakeNewest(t, ids, PAGE_MAX + 1);
    var page := Cut(t, scope, f, cursor, rows);
    r := Ok(page);
  }

  // ---------- the two stores list alike ----------

  function RowTable(c: L.Core): Table {
    map id | id in c.payments :: L.AsPayment(id, c.payments[id])
  }

  function DocTable(payments: D.PaymentDocs): Table {
    map id | id in payments :: D.DocPayment(id, payments[id])
  }

  lemma SameKeysSortAlike(t: Table, u: Table, ids: set<PaymentId>)
    requires ids <= t.Keys && ids <= u.Keys
    requires forall id :: id in ids ==> t[id].createdAt == u[id].createdAt
    ensures Sorted(t, ids) == Sorted(u, ids)
  {
    hide Sorted;
    var s := Sorted(t, ids);
    forall i, j | 0 <= i < j < |s|
      ensures Newer(u, s[i], s[j])
    {
      assert s[i] in s && s[j] in s && Newer(t, s[i], s[j]);
    }
    assert forall i :: 0 <= i < |s| ==> s[i] in s;
    ListsUnique(u, ids, s);
  }

  /** Over matching data both stores answer every listing with the same page: the same
      payments, the same up to updated_at, and the same cursor. */
  lemma ListingsAgree(c: L.Core, payments: D.PaymentDocs, scope: string, f: Filters, cursor: Cursor)
    requires D.Matches(c, payments)
    ensures ListPage(RowTable(c), scope, f, cursor) == ListPage(DocTable(payments), scope, f, cursor)
    ensures forall id :: id in c.payments ==>
              id in payments
              && RowTable(c)[id].(updatedAt := 0) == DocTable(payments)[id].(updatedAt := 0)
  {
    hide Sorted, Passes, Past, D.Matches;
    var t, u := RowTable(c), DocTable(payments);
    SameIds(c, payments);
    forall id | id in c.payments
      ensures id in payments && t[id].(updatedAt := 0) == u[id].(updatedAt := 0)
      ensures Passes(scope, f, t[id]) == Passes(scope, f, u[id]) && Past(cursor, id, t[id]) == Past(cursor, id, u[id])
    {
      SameViews(c, payments, id);
      UpdateTimeIsIgnored(scope, f, cursor, id, t[id], u[id]);
    }
    assert Remaining(t, scope, f, cursor) == Remaining(u, scope, f, cursor);
    SameKeysSortAlike(t, u, Remaining(t, scope, f, cursor));
  }

  lemma SameIds(c: L.Core, payments: D.PaymentDocs)
    requires D.Matches(c, payments)
    ensures c.payments.Keys == payments.Keys
  {
  }

  lemma SameViews(c: L.Core, payments: D.PaymentDocs, id: PaymentId)
    requires D.Matches(c, payments) && id in c.payments
    ensures id in payments
    ensures L.AsPayment(id, c.payments[id]).(updatedAt := 0) == D.DocPayment(id, payments[id]).(updatedAt := 0)
  {
    hide D.Matches;
    D.MatchesRow(c, payments, id);
  }

  lemma UpdateTimeIsIgnored(scope: string, f: Filters, cursor: Cursor, id: PaymentId, p: Payment, q: Payment)
    requires p.(updatedAt := 0) == q.(updatedAt := 0)
    ensures Passes(scope, f, p) == Passes(scope, f, q) && Past(cursor, id, p) == Past(cursor, id, q)
  {
  }
}
