/** The documents of the document store: one document per payment with its refunds embedded, one
    document per merchant with its balances, and one atomic write per document. */
module Documents {
  import opened Domain
  import opened Ledger
  import opened Money
  import opened Sums
  import opened Balances

  datatype RefundElem = RefundElem(id: RefundId, amount: nat, status: RefundStatus, createdAt: Instant)

  /** A network fee of zero means it is not set. */
  datatype PaymentDoc = PaymentDoc(
    merchant: string, customer: string, amount: nat, currency: Currency, via: PaymentMethod,
    status: Status, refunded: nat, networkFee: int, createdAt: Instant, updatedAt: Instant,
    refunds: seq<RefundElem>)

  type PaymentDocs = map<PaymentId, PaymentDoc>
  type MerchantDocs = map<string, map<Currency, Balance>>

  datatype Docs = Docs(payments: PaymentDocs, merchants: MerchantDocs, customers: set<string>)

  const NO_DOCS := Docs(map[], map[], {})

  function DocPayment(id: PaymentId, doc: PaymentDoc): Payment {
    Payment(id, doc.merchant, doc.customer, doc.amount, doc.currency, doc.via, doc.status, doc.refunded,
            doc.networkFee, doc.createdAt, doc.updatedAt)
  }

  function ElemRefund(e: RefundElem, id: PaymentId, parent: PaymentDoc): Refund {
    Refund(e.id, id, parent.merchant, e.amount, parent.currency, e.status, e.createdAt)
  }

  function NewDoc(input: PaymentInput, now: Instant): PaymentDoc
    requires ValidInput(input)
  {
    PaymentDoc(input.merchant, input.customer, input.amount, input.currency, input.via,
               InitialStatus(input.via, input.amount), 0, 0, now, now, [])
  }

  // ---------- embedded refunds ----------

  predicate Has(refunds: seq<RefundElem>, rid: RefundId) {
    exists i :: 0 <= i < |refunds| && refunds[i].id == rid
  }

  /** The position of the first embedded refund with this id that is still open, or
      the length when there is none. */
  function FirstOpen(refunds: seq<RefundElem>, rid: RefundId): (i: nat)
    ensures i <= |refunds|
    ensures i < |refunds| ==> refunds[i].id == rid && refunds[i].status == Created
    ensures forall k :: 0 <= k < i ==> refunds[k].id != rid || refunds[k].status != Created
  {
    if refunds == [] then 0
    else if refunds[0].id == rid && refunds[0].status == Created then 0
    else 1 + FirstOpen(refunds[1..], rid)
  }

  predicate OpenIn(payments: PaymentDocs, id: PaymentId, rid: RefundId) {
    id in payments && FirstOpen(payments[id].refunds, rid) < |payments[id].refunds|
  }

  function Flip(refunds: seq<RefundElem>, i: nat): seq<RefundElem>
    requires i < |refunds|
  {
    refunds[i := refunds[i].(status := RefundSettled)]
  }

  // ---------- one write to one payment document ----------

  datatype Write = Write(payments: PaymentDocs, reply: Reply, posting: Option<Posting>)

  function Refuse(payments: PaymentDocs, e: Error): Write {
    Write(payments, PaymentReply(Err(e)), None)
  }

  function RefuseRefund(payments: PaymentDocs, e: Error): Write {
    Write(payments, RefundReply(Err(e)), None)
  }

  function Replace(payments: PaymentDocs, id: PaymentId, doc: PaymentDoc, posting: Option<Posting>): Write {
    Write(payments[id := doc], PaymentReply(Ok(DocPayment(id, doc))), posting)
  }

  function DocCredit(doc: PaymentDoc): Posting {
    Posting(doc.merchant, doc.currency, Net(doc.amount), GripeFee(doc.amount))
  }

  function ElemDebit(e: RefundElem, doc: PaymentDoc): Posting {
    Posting(doc.merchant, doc.currency, -Net(e.amount), -(GripeFee(e.amount) as int))
  }

  function WithRefund(doc: PaymentDoc, amount: nat, rid: RefundId, now: Instant): PaymentDoc {
    doc.(refunded := doc.refunded + amount,
         status := if doc.refunded + amount == doc.amount then Refunded else doc.status,
         refunds := doc.refunds + [RefundElem(rid, amount, Created, now)],
         updatedAt := now)
  }

  ghost function SettleRefundWrite(payments: PaymentDocs, rid: RefundId, now: Instant): Write {
    if exists id :: OpenIn(payments, id, rid) then
      var id :| OpenIn(payments, id, rid);
      var doc := payments[id];
      var i := FirstOpen(doc.refunds, rid);
      var doc' := doc.(refunds := Flip(doc.refunds, i), updatedAt := now);
      Write(payments[id := doc'], RefundReply(Ok(ElemRefund(doc'.refunds[i], id, doc'))), Some(ElemDebit(doc.refunds[i], doc)))
    else if exists id :: id in payments && Has(payments[id].refunds, rid) then RefuseRefund(payments, InvalidState)
    else RefuseRefund(payments, NotFound)
  }

  /** The document write of a call, and what it leaves to be added to a balance. */
  ghost function DocWrite(payments: PaymentDocs, call: Call): Write {
    match call
    case Create(input, id, now) =>
      if !ValidInput(input) then Refuse(payments, InvalidState)
      else Replace(payments, id, NewDoc(input, now), None)
    case Capture(id, now) =>
      if id !in payments then Refuse(payments, NotFound)
      else if payments[id].status != Authorized then Refuse(payments, InvalidState)
      else Replace(payments, id, payments[id].(status := Captured, updatedAt := now), None)
    case Settle(id, now) =>
      if id !in payments then Refuse(payments, NotFound)
      else if !Settleable(payments[id].status) then Refuse(payments, InvalidState)
      else Replace(payments, id, payments[id].(status := Settled, updatedAt := now), Some(DocCredit(payments[id])))
    case GiveBack(id, amount, rid, now) =>
      if amount <= 0 then RefuseRefund(payments, InvalidState)
      else if id !in payments then RefuseRefund(payments, NotFound)
      else if !Refundable(payments[id].status) then RefuseRefund(payments, InvalidState)
      else if payments[id].refunded + amount > payments[id].amount then RefuseRefund(payments, OverRefund)
      else
        var doc := WithRefund(payments[id], amount, rid, now);
        Write(payments[id := doc], RefundReply(Ok(ElemRefund(RefundElem(rid, amount, Created, now), id, doc))), None)
    case SettleRefund(rid, now) => SettleRefundWrite(payments, rid, now)
    case NetworkFee(id, fee, now) =>
      if fee <= 0 then Refuse(payments, InvalidState)
      else if id !in payments then Refuse(payments, NotFound)
      else if payments[id].networkFee == 0 then
        Replace(payments, id, payments[id].(networkFee := fee, updatedAt := now), None)
      else Replace(payments, id, payments[id], None)
    case Get(id, actor) =>
      if id !in payments then Refuse(payments, NotFound)
      else if !MayRead(actor, payments[id].merchant, payments[id].customer) then Refuse(payments, Forbidden)
      else Replace(payments, id, payments[id], None)
  }

  // ---------- merchant documents ----------

  /** One increment of two counters of a merchant document, creating what is missing. */
  function Inc(merchants: MerchantDocs, p: Posting): MerchantDocs {
    var balances := if p.merchant in merchants then merchants[p.merchant] else map[];
    var was := if p.currency in balances then balances[p.currency] else Balance(0, 0);
    merchants[p.merchant := balances[p.currency := Balance(was.balance + p.balance, was.fees + p.fees)]]
  }

  function IncAll(merchants: MerchantDocs, p: Option<Posting>): MerchantDocs {
    if p.Some? then Inc(merchants, p.value) else merchants
  }

  /** Upsert that only sets on insert. */
  function Onboard(merchants: MerchantDocs, merchant: string): MerchantDocs {
    if merchant in merchants then merchants else merchants[merchant := map[]]
  }

  /** A call whose writes all happen, with no other call in between. */
  ghost function ApplyDocs(d: Docs, call: Call): (Docs, Reply) {
    var w := DocWrite(d.payments, call);
    var onboards := call.Create? && ValidInput(call.input);
    (Docs(w.payments,
          IncAll(if onboards then Onboard(d.merchants, call.input.merchant) else d.merchants, w.posting),
          if onboards then d.customers + {call.input.customer} else d.customers),
     w.reply)
  }

  // ---------- documents against rows ----------

  predicate RowMatches(row: PaymentRow, doc: PaymentDoc) {
    && doc.merchant == row.merchant && doc.customer == row.customer && doc.amount == row.amount
    && doc.currency == row.currency && doc.via == row.via && doc.status == row.status
    && doc.refunded == row.refunded && doc.createdAt == row.createdAt
    && (if row.networkFee.Some? then 0 < row.networkFee.value == doc.networkFee else doc.networkFee == 0)
  }

  predicate ElemMatches(c: Core, id: PaymentId, e: RefundElem) {
    e.id in c.refunds && c.refunds[e.id] == RefundRow(id, e.amount, e.status, e.createdAt)
  }

  predicate DistinctIds(refunds: seq<RefundElem>) {
    forall i, j :: 0 <= i < j < |refunds| ==> refunds[i].id != refunds[j].id
  }

  predicate DocMatches(c: Core, id: PaymentId, doc: PaymentDoc) {
    && id in c.payments && RowMatches(c.payments[id], doc) && DistinctIds(doc.refunds)
    && forall i :: 0 <= i < |doc.refunds| ==> ElemMatches(c, id, doc.refunds[i])
  }

  predicate Embedded(payments: PaymentDocs, id: PaymentId, rid: RefundId) {
    id in payments && Has(payments[id].refunds, rid)
  }

  /** The documents hold the rows: every payment row is a document, up to updated_at,
      and the refunds table is the embedded refunds, flattened. */
  predicate Matches(c: Core, payments: PaymentDocs) {
    && c.payments.Keys == payments.Keys
    && (forall id :: id in payments ==> DocMatches(c, id, payments[id]))
    && (forall rid :: rid in c.refunds ==> Embedded(payments, c.refunds[rid].payment, rid))
  }

  /** The balance maps of all merchants are these cells. */
  ghost predicate CellsMatch(cells: Cells, merchants: MerchantDocs) {
    forall key: CellKey ::
      && (key in cells <==> key.0 in merchants && key.1 in merchants[key.0])
      && (key in cells ==> cells[key] == merchants[key.0][key.1])
  }

  /** Replies up to updated_at. */
  function Erase(r: Reply): Reply {
    match r
    case PaymentReply(Ok(p)) => PaymentReply(Ok(p.(updatedAt := 0)))
    case _ => r
  }

  predicate PositiveFee(call: Call) {
    call.NetworkFee? ==> call.fee > 0
  }

  // ---------- one document write against one row transition ----------

  lemma RowWriteMatches(c: Core, payments: PaymentDocs, id: PaymentId, row: PaymentRow, doc: PaymentDoc)
    requires Matches(c, payments) && id in payments
    requires RowMatches(row, doc) && doc.refunds == payments[id].refunds
    ensures Matches(c.(payments := c.payments[id := row]), payments[id := doc])
  {
    hide RowMatches;
    var c', payments' := c.(payments := c.payments[id := row]), payments[id := doc];
    forall p | p in payments'
      ensures DocMatches(c', p, payments'[p])
    {
      assert DocMatches(c, p, payments[p]);
      assert forall e :: ElemMatches(c', p, e) <==> ElemMatches(c, p, e);
    }
    forall rid | rid in c'.refunds
      ensures Embedded(payments', c'.refunds[rid].payment, rid)
    {
      assert Embedded(payments, c.refunds[rid].payment, rid);
    }
  }

  lemma CreateMatches(c: Core, payments: PaymentDocs, input: PaymentInput, id: PaymentId, now: Instant)
    requires Matches(c, payments) && id !in c.payments && ValidInput(input)
    ensures Matches(CreateStep(c, input, id, now).0, payments[id := NewDoc(input, now)])
  {
    hide RowMatches, ValidInput;
    var c', payments' := CreateStep(c, input, id, now).0, payments[id := NewDoc(input, now)];
    assert RowMatches(NewRow(input, now), NewDoc(input, now)) by {
      RowMatchesNew(input, now);
    }
    forall p | p in payments'
      ensures DocMatches(c', p, payments'[p])
    {
      if p != id {
        assert DocMatches(c, p, payments[p]);
        assert forall e :: ElemMatches(c', p, e) <==> ElemMatches(c, p, e);
      }
    }
    forall rid | rid in c'.refunds
      ensures Embedded(payments', c'.refunds[rid].payment, rid)
    {
      assert Embedded(payments, c.refunds[rid].payment, rid);
    }
  }

  lemma RowMatchesNew(input: PaymentInput, now: Instant)
    requires ValidInput(input)
    ensures RowMatches(NewRow(input, now), NewDoc(input, now))
  {
  }

  lemma GiveBackMatches(c: Core, payments: PaymentDocs, id: PaymentId, amount: nat, rid: RefundId, now: Instant)
    requires Matches(c, payments) && rid !in c.refunds
    requires GiveBackStep(c, id, amount, rid, now).1.Ok?
    ensures id in payments
    ensures Matches(GiveBackStep(c, id, amount, rid, now).0, payments[id := WithRefund(payments[id], amount, rid, now)])
  {
    hide Has;
    var c' := GiveBackStep(c, id, amount, rid, now).0;
    var payments' := payments[id := WithRefund(payments[id], amount, rid, now)];
    assert DocMatches(c, id, payments[id]);
    forall p | p in payments'
      ensures DocMatches(c', p, payments'[p])
    {
      assert DocMatches(c, p, payments[p]);
      assert forall e: RefundElem :: ElemMatches(c, p, e) ==> ElemMatches(c', p, e);
    }
    forall r | r in c'.refunds
      ensures Embedded(payments', c'.refunds[r].payment, r)
    {
      var before, after := payments[id].refunds, payments'[id].refunds;
      HasAppended(before, after[|before|], r);
      if r != rid {
        assert Embedded(payments, c.refunds[r].payment, r);
      }
    }
  }

  lemma HasAppended(refunds: seq<RefundElem>, e: RefundElem, rid: RefundId)
    ensures Has(refunds, rid) || e.id == rid ==> Has(refunds + [e], rid)
  {
    assert (refunds + [e])[|refunds|] == e;
    if Has(refunds, rid) {
      var i :| 0 <= i < |refunds| && refunds[i].id == rid;
      assert (refunds + [e])[i].id == rid;
    }
  }

  lemma HasFlipped(refunds: seq<RefundElem>, i: nat, rid: RefundId)
    requires i < |refunds|
    ensures Has(refunds, rid) ==> Has(Flip(refunds, i), rid)
  {
    if Has(refunds, rid) {
      var k :| 0 <= k < |refunds| && refunds[k].id == rid;
      assert Flip(refunds, i)[k].id == rid;
    }
  }

  lemma FlipMatches(c: Core, payments: PaymentDocs, id: PaymentId, i: nat, rid: RefundId, now: Instant)
    requires Matches(c, payments) && id in payments && i < |payments[id].refunds|
    requires payments[id].refunds[i].id == rid
    ensures rid in c.refunds && c.refunds[rid].payment == id
    ensures Matches(c.(refunds := c.refunds[rid := c.refunds[rid].(status := RefundSettled)]),
                    payments[id := payments[id].(refunds := Flip(payments[id].refunds, i), updatedAt := now)])
  {
    var doc := payments[id];
    assert DocMatches(c, id, doc) && ElemMatches(c, id, doc.refunds[i]);
    var c' := c.(refunds := c.refunds[rid := c.refunds[rid].(status := RefundSettled)]);
    var payments' := payments[id := doc.(refunds := Flip(doc.refunds, i), updatedAt := now)];
    forall p | p in payments'
      ensures DocMatches(c', p, payments'[p])
    {
      assert DocMatches(c, p, payments[p]);
      forall k | 0 <= k < |payments[p].refunds|
        ensures ElemMatches(c', p, payments'[p].refunds[k])
      {
        assert ElemMatches(c, p, payments[p].refunds[k]);
      }
    }
    forall r | r in c'.refunds
      ensures Embedded(payments', c'.refunds[r].payment, r)
    {
      assert Embedded(payments, c.refunds[r].payment, r);
      HasFlipped(doc.refunds, i, r);
    }
  }

  /** The element a refund's row is embedded as, in the row's payment and nowhere else. */
  lemma WhereEmbedded(c: Core, payments: PaymentDocs, rid: RefundId) returns (id: PaymentId, i: nat)
    requires Matches(c, payments) && rid in c.refunds
    ensures id == c.refunds[rid].payment && id in payments && i < |payments[id].refunds|
    ensures payments[id].refunds[i] == RefundElem(rid, c.refunds[rid].amount, c.refunds[rid].status, c.refunds[rid].createdAt)
    ensures forall p, k :: p in payments && 0 <= k < |payments[p].refunds| && payments[p].refunds[k].id == rid ==> p == id && k == i
  {
    id := c.refunds[rid].payment;
    assert Embedded(payments, id, rid);
    i :| 0 <= i < |payments[id].refunds| && payments[id].refunds[i].id == rid;
    assert DocMatches(c, id, payments[id]) && ElemMatches(c, id, payments[id].refunds[i]);
    forall p, k | p in payments && 0 <= k < |payments[p].refunds| && payments[p].refunds[k].id == rid
      ensures p == id && k == i
    {
      assert DocMatches(c, p, payments[p]) && ElemMatches(c, p, payments[p].refunds[k]);
    }
  }

  lemma NowhereEmbedded(c: Core, payments: PaymentDocs, rid: RefundId)
    requires Matches(c, payments) && rid !in c.refunds
    ensures forall p :: p in payments ==> !Has(payments[p].refunds, rid)
    ensures forall p :: !OpenIn(payments, p, rid)
  {
    forall p, k | p in payments && 0 <= k < |payments[p].refunds|
      ensures payments[p].refunds[k].id != rid
    {
      assert DocMatches(c, p, payments[p]) && ElemMatches(c, p, payments[p].refunds[k]);
    }
  }

  lemma SettleRefundAgrees(c: Core, payments: PaymentDocs, rid: RefundId, now: Instant)
    requires Matches(c, payments)
    ensures var w := SettleRefundWrite(payments, rid, now);
            && Matches(SettleRefundStep(c, rid).0, w.payments)
            && w.reply == RefundReply(SettleRefundStep(c, rid).1)
            && w.posting == PostingOf(c, SettleRefund(rid, now))
  {
    hide Matches;
    if rid !in c.refunds {
      NowhereEmbedded(c, payments, rid);
    } else {
      var id, i := WhereEmbedded(c, payments, rid);
      assert id in c.payments && RowMatches(c.payments[id], payments[id]) by {
        MatchesRow(c, payments, id);
      }
      var refunds := payments[id].refunds;
      if c.refunds[rid].status == Created {
        assert FirstOpen(refunds, rid) == i;
        assert OpenIn(payments, id, rid);
        FlipMatches(c, payments, id, i, rid, now);
      } else {
        assert forall p :: !OpenIn(payments, p, rid);
        assert Has(refunds, rid);
      }
    }
  }

  lemma MatchesRow(c: Core, payments: PaymentDocs, id: PaymentId)
    requires Matches(c, payments)
    ensures id in c.payments <==> id in payments
    ensures id in payments ==> RowMatches(c.payments[id], payments[id])
  {
    if id in payments {
      assert DocMatches(c, id, payments[id]);
    }
  }

  /** A document write answers as the row transition does, posts the same amounts to
      the same cell, and keeps documents and rows matching. */
  lemma DocWriteAgrees(c: Core, payments: PaymentDocs, call: Call)
    requires Matches(c, payments) && Fresh(c, call) && PositiveFee(call)
    ensures var w := DocWrite(payments, call);
            && Matches(Step(c, call).0, w.payments)
            && Erase(w.reply) == Erase(Step(c, call).1)
            && w.posting == PostingOf(c, call)
  {
    hide Matches;
    var w := DocWrite(payments, call);
    match call
    case Create(input, id, now) =>
      if ValidInput(input) {
        CreateMatches(c, payments, input, id, now);
      }
    case SettleRefund(rid, now) =>
      SettleRefundAgrees(c, payments, rid, now);
    case GiveBack(id, amount, rid, now) =>
      MatchesRow(c, payments, id);
      if GiveBackStep(c, id, amount, rid, now).1.Ok? {
        GiveBackMatches(c, payments, id, amount, rid, now);
      }
    case _ =>
      MatchesRow(c, payments, call.payment);
      if call.payment in payments {
        var row := Step(c, call).0.payments[call.payment];
        var doc := w.payments[call.payment];
        assert RowMatches(row, doc);
        RowWriteMatches(c, payments, call.payment, row, doc);
        assert c.payments == c.payments[call.payment := c.payments[call.payment]];
        assert payments == payments[call.payment := payments[call.payment]];
      }
  }

  lemma IncPosts(cells: Cells, merchants: MerchantDocs, p: Posting)
    requires CellsMatch(cells, merchants)
    ensures CellsMatch(Post(cells, p), Inc(merchants, p))
    ensures Inc(merchants, p).Keys == merchants.Keys + {p.merchant}
  {
  }
}
