/** Keyset pagination over payments, newest first. */
module Listing {
  import opened Domain

  /** Payments as readers see them, by id. */
  type Table = map<PaymentId, Payment>

  const PAGE_MAX := 50

  /** An absent option, an empty merchant or a bound of zero does not filter. */
  datatype Filters = Filters(
    status: Option<Status>, via: Option<PaymentMethod>, currency: Option<Currency>, merchant: string,
    from: Option<Instant>, to: Option<Instant>, minMinor: int, maxMinor: int)

  /** An opaque token: none yet, one this store gave out, or garbage. */
  datatype Cursor = Start | After(createdAt: Instant, id: PaymentId) | Garbage

  datatype Page = Page(items: seq<PaymentId>, next: Cursor)

  predicate Passes(scope: string, f: Filters, p: Payment) {
    && (if scope != "" then p.merchant == scope else f.merchant != "" ==> p.merchant == f.merchant)
    && (f.status.Some? ==> p.status == f.status.value)
    && (f.via.Some? ==> p.via == f.via.value)
    && (f.currency.Some? ==> p.currency == f.currency.value)
    && (f.from.Some? ==> p.createdAt >= f.from.value)
    && (f.to.Some? ==> p.createdAt <= f.to.value)
    && (f.minMinor > 0 ==> p.amount >= f.minMinor)
    && (f.maxMinor > 0 ==> p.amount <= f.maxMinor)
  }

  predicate Past(cursor: Cursor, id: PaymentId, p: Payment) {
    match cursor
    case Start => true
    case After(createdAt, last) => p.createdAt < createdAt || (p.createdAt == createdAt && id < last)
    case Garbage => false
  }

  /** The rows still to come. */
  function Remaining(t: Table, scope: string, f: Filters, cursor: Cursor): (r: set<PaymentId>)
    ensures r <= t.Keys
  {
    set id | id in t && Passes(scope, f, t[id]) && Past(cursor, id, t[id])
  }

  // ---------- the simple form: sort and filter ----------

  /** Strictly newest first, ties on the time broken by the greater id. */
  predicate Newer(t: Table, a: PaymentId, b: PaymentId)
    requires a in t && b in t
  {
    t[a].createdAt > t[b].createdAt || (t[a].createdAt == t[b].createdAt && a > b)
  }

  predicate Descending(t: Table, s: seq<PaymentId>) {
    && (forall i :: 0 <= i < |s| ==> s[i] in t)
    && (forall i, j :: 0 <= i < j < |s| ==> Newer(t, s[i], s[j]))
  }

  /** s lists exactly these rows, each once, newest first. */
  ghost predicate Lists(t: Table, ids: set<PaymentId>, s: seq<PaymentId>) {
    Descending(t, s) && (forall id :: id in s <==> id in ids)
  }

  predicate IsNewest(t: Table, ids: set<PaymentId>, top: PaymentId)
    requires ids <= t.Keys
  {
    top in ids && forall id :: id in ids && id != top ==> Newer(t, top, id)
  }

  lemma {:induction false} NewestExists(t: Table, ids: set<PaymentId>)
    requires ids != {} && ids <= t.Keys
    ensures exists top :: top in ids && IsNewest(t, ids, top)
  {
    var some :| some in ids;
    if ids == {some} {
      assert IsNewest(t, ids, some);
    } else {
      NewestExists(t, ids - {some});
      var best :| best in ids - {some} && IsNewest(t, ids - {some}, best);
      var top := if Newer(t, some, best) then some else best;
      forall id | id in ids && id != top
        ensures Newer(t, top, id)
      {
        assert id != some ==> id == best || Newer(t, best, id);
      }
      assert IsNewest(t, ids, top);
    }
  }

  /** Rows sorted newest first. */
  ghost function Sorted(t: Table, ids: set<PaymentId>): (s: seq<PaymentId>)
    requires ids <= t.Keys
    ensures Lists(t, ids, s) && |s| == |ids|
    ensures forall i :: 0 <= i < |s| ==> s[i] in t
  {
    if ids == {} then []
    else
      NewestExists(t, ids);
      var top :| IsNewest(t, ids, top);
      [top] + Sorted(t, ids - {top})
  }

  /** There is only one such list. */
  lemma ListsUnique(t: Table, ids: set<PaymentId>, s: seq<PaymentId>)
    requires Lists(t, ids, s) && ids <= t.Keys
    ensures s == Sorted(t, ids)
  {
    SameListing(t, s, Sorted(t, ids));
  }

  lemma {:induction false} SameListing(t: Table, s: seq<PaymentId>, r: seq<PaymentId>)
    requires Descending(t, s) && Descending(t, r) && forall id :: id in s <==> id in r
    ensures s == r
    decreases |s|
  {
    assert |s| > 0 ==> s[0] in r;
    assert |r| > 0 ==> r[0] in s;
    if s != [] {
      assert s[0] == r[0];
      assert forall id :: id in s[1..] <==> id in s && id != s[0];
      assert forall id :: id in r[1..] <==> id in r && id != r[0];
      SameListing(t, s[1..], r[1..]);
    }
  }

  // ---------- one page ----------

  /** The first PAGE_MAX remaining rows, and a cursor at the last of them when more
      follow. */
  ghost function ListPage(t: Table, scope: string, f: Filters, cursor: Cursor): Result<Page> {
    if cursor == Garbage then Err(InvalidState)
    else
      var all := Sorted(t, Remaining(t, scope, f, cursor));
      if |all| <= PAGE_MAX then Ok(Page(all, Start))
      else Ok(Page(all[..PAGE_MAX], CursorAt(t, all[PAGE_MAX - 1])))
  }

  function CursorAt(t: Table, id: PaymentId): Cursor
    requires id in t
  {
    After(t[id].createdAt, id)
  }

  lemma SuffixListsRest(t: Table, scope: string, f: Filters, cursor: Cursor, all: seq<PaymentId>, i: nat)
    requires cursor != Garbage && i < |all| && Lists(t, Remaining(t, scope, f, cursor), all)
    ensures Lists(t, Remaining(t, scope, f, CursorAt(t, all[i])), all[i + 1..])
  {
    hide Passes;
    var next, rest := CursorAt(t, all[i]), all[i + 1..];
    assert forall k :: 0 <= k < i ==> Newer(t, all[k], all[i]);
    forall id | id in rest
      ensures id in Remaining(t, scope, f, next)
    {
      var j :| i + 1 <= j < |all| && all[j] == id;
      assert all[j] in all && Newer(t, all[i], all[j]);
    }
    forall id | id in Remaining(t, scope, f, next)
      ensures id in rest
    {
      assert all[i] in all;
      PastIsTransitive(t, cursor, all[i], id);
      assert id in all;
      var j :| 0 <= j < |all| && all[j] == id;
      assert rest[j - i - 1] == id;
    }
  }

  /** What remains after a cursor at row i of a listing is the rest of the listing. */
  lemma RestOfListing(t: Table, scope: string, f: Filters, cursor: Cursor, i: nat)
    requires cursor != Garbage && i < |Sorted(t, Remaining(t, scope, f, cursor))|
    ensures var all := Sorted(t, Remaining(t, scope, f, cursor));
            Sorted(t, Remaining(t, scope, f, CursorAt(t, all[i]))) == all[i + 1..]
  {
    hide Passes, Past, Sorted, Lists;
    var all := Sorted(t, Remaining(t, scope, f, cursor));
    SuffixListsRest(t, scope, f, cursor, all, i);
    ListsUnique(t, Remaining(t, scope, f, CursorAt(t, all[i])), all[i + 1..]);
  }

  lemma PastIsTransitive(t: Table, cursor: Cursor, a: PaymentId, b: PaymentId)
    requires a in t && b in t && Past(cursor, a, t[a]) && Past(CursorAt(t, a), b, t[b])
    ensures Past(cursor, b, t[b])
  {
  }

  // ---------- the walk ----------

  /** The pages read by following the cursors to the end. */
  ghost function Walk(t: Table, scope: string, f: Filters, cursor: Cursor): seq<seq<PaymentId>>
    requires cursor != Garbage
    decreases |Remaining(t, scope, f, cursor)|
  {
    var page := ListPage(t, scope, f, cursor).value;
    if page.next == Start then [page.items]
    else
      RestOfListing(t, scope, f, cursor, PAGE_MAX - 1);
      [page.items] + Walk(t, scope, f, page.next)
  }

  function Concat(pages: seq<seq<PaymentId>>): seq<PaymentId> {
    if pages == [] then [] else pages[0] + Concat(pages[1..])
  }

  /** Keyset walking refines sort-and-filter: the pages concatenate to exactly the
      matching rows, newest first, each once, in max(1, ceil(n / 50)) pages. */
  lemma {:induction false} WalkIsSortedFilter(t: Table, scope: string, f: Filters, cursor: Cursor)
    requires cursor != Garbage
    ensures var n := |Remaining(t, scope, f, cursor)|;
            && Concat(Walk(t, scope, f, cursor)) == Sorted(t, Remaining(t, scope, f, cursor))
            && |Walk(t, scope, f, cursor)| == if n == 0 then 1 else (n + 49) / 50
    decreases |Remaining(t, scope, f, cursor)|
  {
    hide Remaining, Sorted, Lists;
    var all := Sorted(t, Remaining(t, scope, f, cursor));
    var pages := Walk(t, scope, f, cursor);
    if |all| <= PAGE_MAX {
      assert pages == [all] && pages[1..] == [];
    } else {
      RestOfListing(t, scope, f, cursor, PAGE_MAX - 1);
      var next := CursorAt(t, all[PAGE_MAX - 1]);
      WalkIsSortedFilter(t, scope, f, next);
      assert pages[0] == all[..PAGE_MAX] && pages[1..] == Walk(t, scope, f, next);
    }
  }

  /** What a walk returns, field by field: the caller's merchant scope, if any, wins over
      the merchant filter; then the four values and the four bounds; newest first, the
      greater id first among equal times. */
  lemma WalkReturns(t: Table, scope: string, f: Filters)
    ensures var all := Concat(Walk(t, scope, f, Start));
            && (forall id :: id in all <==>
                  && id in t
                  && (scope != "" ==> t[id].merchant == scope)
                  && (scope == "" && f.merchant != "" ==> t[id].merchant == f.merchant)
                  && (f.status == None || f.status == Some(t[id].status))
                  && (f.via == None || f.via == Some(t[id].via))
                  && (f.currency == None || f.currency == Some(t[id].currency))
                  && (f.from.Some? ==> f.from.value <= t[id].createdAt)
                  && (f.to.Some? ==> t[id].createdAt <= f.to.value)
                  && (f.minMinor > 0 ==> f.minMinor <= t[id].amount)
                  && (f.maxMinor > 0 ==> t[id].amount <= f.maxMinor))
            && (forall i, j :: 0 <= i < j < |all| ==>
                  && all[i] in t && all[j] in t
                  && (t[all[i]].createdAt > t[all[j]].createdAt
                      || (t[all[i]].createdAt == t[all[j]].createdAt && all[i] > all[j])))
  {
    hide Walk, Concat, Sorted;
    WalkIsSortedFilter(t, scope, f, Start);
    SortedHas(t, Remaining(t, scope, f, Start));
  }

  /** A merchant sees its own payments only, whatever merchant its filter names; without
      a filter it sees all of them, and an admin sees every payment there is. */
  lemma WhoseListing(t: Table, merchant: string, f: Filters, id: PaymentId)
    requires merchant != ""
    ensures id in Concat(Walk(t, merchant, f, Start)) ==> id in t && t[id].merchant == merchant
    ensures var none := Filters(None, None, None, "", None, None, 0, 0);
            && (id in Concat(Walk(t, merchant, none, Start)) <==> id in t && t[id].merchant == merchant)
            && (id in Concat(Walk(t, "", none, Start)) <==> id in t)
  {
    hide Walk, Concat;
    var none := Filters(None, None, None, "", None, None, 0, 0);
    WalkReturns(t, merchant, f);
    WalkReturns(t, merchant, none);
    WalkReturns(t, "", none);
  }

  // ---------- the walk while payments are created ----------

  predicate SameKey(p: Payment, q: Payment) {
    && q.createdAt == p.createdAt && q.merchant == p.merchant && q.via == p.via
    && q.currency == p.currency && q.amount == p.amount
  }

  /** Rows are added, none removed, and the immutable fields stay. */
  predicate Grows(t: Table, u: Table) {
    forall id :: id in t ==> id in u && SameKey(t[id], u[id])
  }

  predicate Growing(tables: seq<Table>) {
    forall i, j :: 0 <= i <= j < |tables| ==> Grows(tables[i], tables[j])
  }

  /** One page from each table in turn; done once a page comes without a cursor. */
  ghost function WalkOver(tables: seq<Table>, scope: string, f: Filters, cursor: Cursor): (seq<PaymentId>, bool)
    requires cursor != Garbage
    decreases |tables|
  {
    if tables == [] then ([], false)
    else
      var page := ListPage(tables[0], scope, f, cursor).value;
      if page.next == Start then (page.items, true)
      else
        var (rest, done) := WalkOver(tables[1..], scope, f, page.next);
        (page.items + rest, done)
  }

  /** With filters on immutable fields and rows inserted between pages, no payment is
      returned twice, every returned payment matches, and a finished walk has returned
      every matching payment that was there at the first page. */
  lemma {:induction false} WalkSurvivesInserts(tables: seq<Table>, scope: string, f: Filters, cursor: Cursor)
    requires tables != [] && Growing(tables) && f.status.None? && cursor != Garbage
    ensures var (ids, done) := WalkOver(tables, scope, f, cursor);
            var final := tables[|tables| - 1];
            && Descending(final, ids)
            && (forall id :: id in ids ==> id in Remaining(final, scope, f, cursor))
            && (done ==> forall id :: id in Remaining(tables[0], scope, f, cursor) ==> id in ids)
    decreases |tables|
  {
    hide Passes, Sorted, Lists, Past, Remaining, Newer, Descending, Grows, Growing;
    var t, final := tables[0], tables[|tables| - 1];
    GrowingParts(tables);
    var all := Sorted(t, Remaining(t, scope, f, cursor));
    ListingCarriesOver(t, final, scope, f, cursor, all);
    SortedHas(t, Remaining(t, scope, f, cursor));
    if |all| > PAGE_MAX {
      var items, next := all[..PAGE_MAX], CursorAt(t, all[PAGE_MAX - 1]);
      PrefixDescends(final, all, PAGE_MAX);
      assert items + [] == items;
      if |tables| > 1 {
        var rest := WalkOver(tables[1..], scope, f, next).0;
        WalkSurvivesInserts(tables[1..], scope, f, next);
        assert CursorAt(final, items[PAGE_MAX - 1]) == next by {
          assert all[PAGE_MAX - 1] in all;
        }
        forall id | id in rest
          ensures id in Remaining(final, scope, f, cursor)
        {
          assert all[PAGE_MAX - 1] in all;
          RemainingIsTransitive(final, scope, f, cursor, all[PAGE_MAX - 1], id);
        }
        JoinDescending(final, scope, f, items, rest);
        RestOfListing(t, scope, f, cursor, PAGE_MAX - 1);
        SortedHas(t, Remaining(t, scope, f, next));
        forall id | id in Remaining(t, scope, f, cursor)
          ensures id in items || id in Remaining(tables[1], scope, f, next)
        {
          assert all == items + all[PAGE_MAX..];
          if id !in items {
            CarriesOver(t, tables[1], scope, f, next, id);
          }
        }
      }
    }
  }

  lemma GrowingParts(tables: seq<Table>)
    requires tables != [] && Growing(tables)
    ensures Grows(tables[0], tables[|tables| - 1])
    ensures |tables| > 1 ==> Grows(tables[0], tables[1]) && Growing(tables[1..])
  {
  }

  lemma SortedHas(t: Table, ids: set<PaymentId>)
    requires ids <= t.Keys
    ensures forall id :: id in Sorted(t, ids) <==> id in ids
  {
  }

  lemma RemainingIsTransitive(t: Table, scope: string, f: Filters, cursor: Cursor, a: PaymentId, id: PaymentId)
    requires a in Remaining(t, scope, f, cursor) && id in Remaining(t, scope, f, CursorAt(t, a))
    ensures id in Remaining(t, scope, f, cursor)
  {
    PastIsTransitive(t, cursor, a, id);
  }

  lemma PrefixDescends(t: Table, s: seq<PaymentId>, n: nat)
    requires Descending(t, s) && n <= |s|
    ensures Descending(t, s[..n])
  {
  }

  /** A page followed by rows past its last one. */
  lemma JoinDescending(t: Table, scope: string, f: Filters, s: seq<PaymentId>, r: seq<PaymentId>)
    requires Descending(t, s) && Descending(t, r) && s != []
    requires forall id :: id in r ==> id in Remaining(t, scope, f, CursorAt(t, s[|s| - 1]))
    ensures Descending(t, s + r)
  {
    forall i, j | 0 <= i < |s| && 0 <= j < |r|
      ensures Newer(t, s[i], r[j])
    {
      assert r[j] in r;
      assert i < |s| - 1 ==> Newer(t, s[i], s[|s| - 1]);
    }
  }

  lemma CarriesOver(t: Table, u: Table, scope: string, f: Filters, cursor: Cursor, id: PaymentId)
    requires Grows(t, u) && f.status.None? && id in Remaining(t, scope, f, cursor)
    ensures id in Remaining(u, scope, f, cursor)
  {
    assert SameKey(t[id], u[id]);
  }

  lemma ListingCarriesOver(t: Table, u: Table, scope: string, f: Filters, cursor: Cursor, s: seq<PaymentId>)
    requires Grows(t, u) && f.status.None? && Lists(t, Remaining(t, scope, f, cursor), s)
    ensures Descending(u, s)
    ensures forall id :: id in s ==> id in Remaining(u, scope, f, cursor) && CursorAt(u, id) == CursorAt(t, id)
  {
    hide Passes;
    forall i | 0 <= i < |s|
      ensures s[i] in u && SameKey(t[s[i]], u[s[i]]) && s[i] in Remaining(u, scope, f, cursor)
    {
      assert s[i] in s;
      CarriesOver(t, u, scope, f, cursor, s[i]);
    }
    forall i, j | 0 <= i < j < |s|
      ensures Newer(u, s[i], s[j])
    {
      assert Newer(t, s[i], s[j]);
    }
  }
}
