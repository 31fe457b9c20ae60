/** The two stores give the same answers. */
module Agreement {
  import opened Domain
  import opened Ledger
  import opened Balances
  import opened Documents
  import opened Relational

  // ---------- whole stores ----------

  /** Document store and tables hold the same data, up to updated_at: documents match
      rows, flattened balance maps are the balance rows, and the actors are the same. */
  ghost predicate Related(t: Tables, d: Docs) {
    && Matches(t.core, d.payments)
    && CellsMatch(t.cells, d.merchants)
    && t.merchants == d.merchants.Keys
    && t.customers == d.customers
  }

  lemma RelatedAfter(t: Tables, d: Docs, call: Call)
    requires Accounted(t.core) && ReferencesHold(t) && Related(t, d) && Fresh(t.core, call) && PositiveFee(call)
    ensures Related(Apply(t, call).0, ApplyDocs(d, call).0)
    ensures Erase(ApplyDocs(d, call).1) == Erase(Apply(t, call).1)
  {
    hide Accounted, ReferencesHold, Matches, DocWrite, Step, Post, Inc, PostingOf;
    DocWriteAgrees(t.core, d.payments, call);
    assert call.Create? ==> PostingOf(t.core, call).None? by {
      CreatePostsNothing(t.core, call);
    }
    if PostingOf(t.core, call).Some? {
      PostingReferences(t, call);
      IncPosts(t.cells, d.merchants, PostingOf(t.core, call).value);
    }
  }

  lemma CreatePostsNothing(c: Core, call: Call)
    ensures call.Create? ==> PostingOf(c, call).None?
  {
  }

  /** Call by call, the replies agree exactly when the call is not a network fee of
      zero or less: the document store refuses those, the relational one does not. */
  lemma CallAgreesIff(t: Tables, d: Docs, call: Call)
    requires Accounted(t.core) && ReferencesHold(t) && Related(t, d) && Fresh(t.core, call)
    ensures Erase(Apply(t, call).1) == Erase(ApplyDocs(d, call).1) <==> (call.NetworkFee? ==> call.fee >= 1)
    ensures PositiveFee(call) ==> Related(Apply(t, call).0, ApplyDocs(d, call).0)
  {
    hide Accounted, ReferencesHold, Related;
    if PositiveFee(call) {
      RelatedAfter(t, d, call);
    }
  }

  ghost function RunDocs(d: Docs, calls: seq<Call>): Docs
    decreases |calls|
  {
    if calls == [] then d else RunDocs(ApplyDocs(d, calls[0]).0, calls[1..])
  }

  lemma ApplySteps(t: Tables, call: Call)
    ensures Apply(t, call).0.core == Step(t.core, call).0
  {
  }

  lemma EmptyStoresAreRelated()
    ensures Related(NO_ROWS, NO_DOCS)
  {
  }

  /** Both balance reads are determined by the cells. */
  lemma BalanceListIsUnique(
      xs: seq<(Currency, Balance)>, ys: seq<(Currency, Balance)>, cells: Cells, merchant: string)
    requires IsBalanceList(xs, cells, merchant) && IsBalanceList(ys, cells, merchant)
    ensures xs == ys
  {
    SortedRowsUnique(xs, ys);
  }

  lemma RevenueReportIsUnique(xs: seq<(Currency, int)>, ys: seq<(Currency, int)>, cells: Cells)
    requires IsRevenueReport(xs, cells) && IsRevenueReport(ys, cells)
    ensures xs == ys
  {
    hide CellSum;
    SortedRowsUnique(xs, ys);
  }

  predicate Ascending<T>(xs: seq<(Currency, T)>) {
    forall i, j :: 0 <= i < j < |xs| ==> CurrencyRank(xs[i].0) < CurrencyRank(xs[j].0)
  }

  lemma {:induction false} SortedRowsUnique<T(!new)>(xs: seq<(Currency, T)>, ys: seq<(Currency, T)>)
    requires Ascending(xs) && Ascending(ys)
    requires forall row :: row in xs <==> row in ys
    ensures xs == ys
    decreases |xs|
  {
    assert |xs| > 0 ==> xs[0] in ys;
    assert |ys| > 0 ==> ys[0] in xs;
    if xs != [] {
      assert xs[0] == ys[0];
      forall row
        ensures row in xs[1..] <==> row in ys[1..]
      {
        assert row in xs[1..] <==> row in xs && row != xs[0];
        assert row in ys[1..] <==> row in ys && row != ys[0];
      }
      SortedRowsUnique(xs[1..], ys[1..]);
    }
  }
}
