/** The document store's operations, one document write at a time. Here the writes
    of a call follow each other undisturbed; TwoWrite takes them apart. */
module MongoStore {
  import opened Domain
  import opened Ledger
  import opened Money
  import opened Sums
  import opened Balances
  import opened Relational
  import opened Documents
  import opened Agreement

  class MongoDb {
    var payments: PaymentDocs
    var merchants: MerchantDocs
    var customers: set<string>
    /** Actors this process has onboarded. */
    var seen: set<ActorKey>
    /** The same data as normalised rows, and the payments ever settled. */
    ghost var rows: Tables
    ghost var booked: set<PaymentId>

    ghost function Db(): Docs
      reads this
    {
      Docs(payments, merchants, customers)
    }

    ghost predicate Valid()
      reads this
    {
      && Sound(rows, booked) && Related(rows, Db())
      && (forall a :: a in seen ==> if a.MerchantKey? then a.id in merchants else a.id in customers)
    }

    constructor ()
      ensures Valid() && Db() == NO_DOCS && rows == NO_ROWS
    {
      payments, merchants, customers, seen, rows, booked := map[], map[], {}, {}, NO_ROWS, {};
      new;
      EmptyIsSound();
      EmptyStoresAreRelated();
    }

    /** The normalised rows follow a call, ahead of the documents. */
    ghost method Follow(call: Call)
      requires Valid() && Fresh(rows.core, call) && PositiveFee(call)
      modifies this`rows, this`booked
      ensures Sound(rows, booked) && Related(rows, ApplyDocs(Db(), call).0)
      ensures rows == Apply(old(rows), call).0 && booked == BookedAfter(old(rows).core, old(booked), call)
    {
      hide Sound, Related, Apply, BookedAfter, ApplyDocs;
      SoundParts(rows, booked);
      RelatedAfter(rows, Db(), call);
      ApplyKeepsSound(rows, booked, call);
      rows, booked := Apply(rows, call).0, BookedAfter(rows.core, booked, call);
    }

    /** Upserts the parents not yet seen; each is remembered as soon as it is there. */
    method OnboardActors(merchant: string, customer: string)
      requires forall a :: a in seen ==> if a.MerchantKey? then a.id in merchants else a.id in customers
      modifies this`merchants, this`customers, this`seen
      ensures merchants == Onboard(old(merchants), merchant) && customers == old(customers) + {customer}
      ensures seen == old(seen) + {MerchantKey(merchant), CustomerKey(customer)}
    {
      if MerchantKey(merchant) !in seen {
        if merchant !in merchants {
          merchants := merchants[merchant := map[]];
        }
        seen := seen + {MerchantKey(merchant)};
      }
      if CustomerKey(customer) !in seen {
        customers := customers + {customer};
        seen := seen + {CustomerKey(customer)};
      }
    }

    method CreatePayment(input: PaymentInput, id: PaymentId, now: Instant) returns (r: Result<Payment>)
      requires Valid() && id !in payments
      modifies this
      ensures Valid()
      ensures (Db(), PaymentReply(r)) == ApplyDocs(old(Db()), Create(input, id, now))
      ensures rows == Apply(old(rows), Create(input, id, now)).0 && booked == old(booked)
      ensures r.Ok? ==>
              && id in payments && payments[id].status == r.value.status
              && r.value.status ==
                   match input.via
                   case Card | ApplePay | GooglePay => if input.amount % 100 == 13 then Declined else Captured
                   case DirectDebit => Authorized
                   case BankTransfer => Pending
                   case OtherMethod(_) => Captured
    {
      hide Sound, Related, Apply;
      RelatedParts(rows, Db());
      Follow(Create(input, id, now));
      if !input.currency.Valid() || !input.via.Valid() || input.amount <= 0 {
        return Err(InvalidState);
      }
      if Blank(input.merchant) || Blank(input.customer) {
        return Err(InvalidState);
      }
      OnboardActors(input.merchant, input.customer);
      var status := Captured;
      match input.via {
        case Card | ApplePay | GooglePay =>
          if input.amount % 100 == 13 {
            status := Declined;
          }
        case DirectDebit => status := Authorized;
        case BankTransfer => status := Pending;
        case OtherMethod(_) =>
      }
      var doc := PaymentDoc(input.merchant, input.customer, input.amount, input.currency, input.via,
                            status, 0, 0, now, now, []);
      payments := payments[id := doc];
      r := Ok(DocPayment(id, doc));
    }

    method GetPayment(id: PaymentId, actor: Actor) returns (r: Result<Payment>)
      ensures PaymentReply(r) == DocWrite(payments, Get(id, actor)).reply
      ensures r.Ok? <==>
              && id in payments
              && (actor == Admin || actor == Merchant(payments[id].merchant) || actor == Customer(payments[id].customer))
      ensures r.Err? ==> r.error == if id in payments then Forbidden else NotFound
    {
      if id !in payments {
        return Err(NotFound);
      }
      var doc := payments[id];
      match actor {
        case Admin =>
        case Merchant(a) =>
          if doc.merchant != a {
            return Err(Forbidden);
          }
        case Customer(a) =>
          if doc.customer != a {
            return Err(Forbidden);
          }
        case OtherRole =>
          return Err(Forbidden);
      }
      r := Ok(DocPayment(id, doc));
    }

    method CapturePayment(id: PaymentId, now: Instant) returns (r: Result<Payment>)
      requires Valid()
      modifies this
      ensures Valid()
      ensures (Db(), PaymentReply(r)) == ApplyDocs(old(Db()), Capture(id, now))
      ensures rows == Apply(old(rows), Capture(id, now)).0 && booked == old(booked)
    {
      hide Sound, Related, Apply;
      Follow(Capture(id, now));
      if id in payments && payments[id].status == Authorized {
        payments := payments[id := payments[id].(status := Captured, updatedAt := now)];
        return Ok(DocPayment(id, payments[id]));
      }
      r := if id !in payments then Err(NotFound) else Err(InvalidState);
    }

    /** One write bumps the counter, flips the status when the payment is used up and
        appends the refund. */
    method RefundPayment(id: PaymentId, amount: int, rid: RefundId, now: Instant) returns (r: Result<Refund>)
      requires Valid() && rid !in rows.core.refunds
      modifies this
      ensures Valid()
      ensures (Db(), RefundReply(r)) == ApplyDocs(old(Db()), GiveBack(id, amount, rid, now))
      ensures rows == Apply(old(rows), GiveBack(id, amount, rid, now)).0 && booked == old(booked)
      ensures r.Ok? ==>
              && amount > 0 && r.value.amount == amount && id in old(payments) && id in payments
              && payments[id].refunded == old(payments)[id].refunded + amount
              && payments[id].refunds == old(payments)[id].refunds + [RefundElem(rid, amount, Created, now)]
    {
      hide Sound, Related, Apply;
      Follow(GiveBack(id, amount, rid, now));
      if amount <= 0 {
        return Err(InvalidState);
      }
      if && id in payments && (payments[id].status == Captured || payments[id].status == Settled)
         && payments[id].refunded + amount <= payments[id].amount {
        var doc := payments[id];
        var newRefunded := doc.refunded + amount;
        payments := payments[id := doc.(
          refunded := newRefunded,
          status := if newRefunded == doc.amount then Refunded else doc.status,
          refunds := doc.refunds + [RefundElem(rid, amount, Created, now)],
          updatedAt := now)];
        return Ok(ElemRefund(RefundElem(rid, amount, Created, now), id, payments[id]));
      }
      if id !in payments {
        return Err(NotFound);
      }
      if payments[id].status != Captured && payments[id].status != Settled {
        return Err(InvalidState);
      }
      r := Err(OverRefund);
    }

    /** Increments both counters by dotted path, creating the merchant or the currency. */
    method ApplyBalanceDelta(merchant: string, currency: Currency, balanceDelta: int, feesDelta: int)
      modifies this`merchants
      ensures merchants == Inc(old(merchants), Posting(merchant, currency, balanceDelta, feesDelta))
      ensures old(merchants).Keys <= merchants.Keys
    {
      if merchant !in merchants {
        merchants := merchants[merchant := map[]];
      }
      var balances := merchants[merchant];
      var b := if currency in balances then balances[currency] else Balance(0, 0);
      merchants := merchants[merchant := balances[currency := Balance(b.balance + balanceDelta, b.fees + feesDelta)]];
    }

    /** The caller that wins the status flip, and no other, posts to the balance. */
    method SettlePayment(id: PaymentId, now: Instant) returns (r: Result<Payment>)
      requires Valid()
      modifies this
      ensures Valid()
      ensures (Db(), PaymentReply(r)) == ApplyDocs(old(Db()), Settle(id, now))
      ensures rows == Apply(old(rows), Settle(id, now)).0
      ensures booked == BookedAfter(old(rows).core, old(booked), Settle(id, now))
    {
      hide Sound, Related, Apply, BookedAfter, GripeFee, Inc;
      Follow(Settle(id, now));
      if id in payments && (payments[id].status == Captured || payments[id].status == Pending) {
        payments := payments[id := payments[id].(status := Settled, updatedAt := now)];
        var updated := payments[id];
        var fee: int := GripeFee(updated.amount);
        ApplyBalanceDelta(updated.merchant, updated.currency, updated.amount - fee, fee);
        return Ok(DocPayment(id, updated));
      }
      r := if id !in payments then Err(NotFound) else Err(InvalidState);
    }

    /** The first embedded refund with this id. */
    method Locate(refunds: seq<RefundElem>, rid: RefundId, ghost i: nat) returns (elem: RefundElem)
      requires i < |refunds| && refunds[i].id == rid && forall k :: 0 <= k < i ==> refunds[k].id != rid
      ensures elem == refunds[i]
    {
      elem := refunds[0];
      for k := 0 to |refunds|
        invariant k <= i
      {
        if refunds[k].id == rid {
          return refunds[k];
        }
      }
    }

    method SettleRefund(rid: RefundId, now: Instant) returns (r: Result<Refund>)
      requires Valid()
      modifies this
      ensures Valid()
      ensures (Db(), RefundReply(r)) == ApplyDocs(old(Db()), Ledger.SettleRefund(rid, now))
      ensures rows == Apply(old(rows), Ledger.SettleRefund(rid, now)).0 && booked == old(booked)
    {
      hide Sound, Related, Apply, GripeFee, Inc, Matches, FirstOpen, Step;
      RelatedParts(rows, Db());
      Follow(Ledger.SettleRefund(rid, now));
      if exists id :: id in payments && OpenIn(payments, id, rid) {
        var id :| id in payments && OpenIn(payments, id, rid);
        ghost var i := OnlyOpen(old(rows).core, payments, rid, id);
        payments := payments[id := payments[id].(refunds := Flip(payments[id].refunds, FirstOpen(payments[id].refunds, rid)),
                                                 updatedAt := now)];
        var updated := payments[id];
        var elem := Locate(updated.refunds, rid, i);
        var fee: int := GripeFee(elem.amount);
        ApplyBalanceDelta(updated.merchant, updated.currency, -(elem.amount - fee), -fee);
        return Ok(ElemRefund(elem, id, updated));
      }
      if exists id :: id in payments && Has(payments[id].refunds, rid) {
        return Err(InvalidState);
      }
      r := Err(NotFound);
    }

    /** Set only while unset; a later delivery, whatever its fee, changes nothing. */
    method SettleNetworkFee(id: PaymentId, fee: int, now: Instant) returns (r: Result<Payment>)
      requires Valid()
      modifies this
      ensures Valid() && booked == old(booked)
      ensures (Db(), PaymentReply(r)) == ApplyDocs(old(Db()), NetworkFee(id, fee, now))
      ensures rows == if fee > 0 then Apply(old(rows), NetworkFee(id, fee, now)).0 else old(rows)
    {
      hide Sound, Related, Apply;
      if fee <= 0 {
        return Err(InvalidState);
      }
      Follow(NetworkFee(id, fee, now));
      if id in payments && payments[id].networkFee == 0 {
        payments := payments[id := payments[id].(networkFee := fee, updatedAt := now)];
        return Ok(DocPayment(id, payments[id]));
      }
      if id !in payments {
        return Err(NotFound);
      }
      assert payments == payments[id := payments[id]];
      r := Ok(DocPayment(id, payments[id]));
    }

    method GetMerchantBalances(merchant: string) returns (list: seq<(Currency, Balance)>)
      requires Valid()
      ensures IsBalanceList(list, rows.cells, merchant)
    {
      hide Sound, Related;
      list := [];
      CellsOfStore(rows, Db());
      ConservedFees(rows, booked, USD);
      if merchant !in merchants {
        return;
      }
      var balances := merchants[merchant];
      for i := 0 to |CURRENCIES|
        invariant forall row :: row in list <==>
                    CurrencyRank(row.0) < i && row.0 in balances && balances[row.0] == row.1
        invariant forall k :: 0 <= k < |list| ==> CurrencyRank(list[k].0) < i
        invariant forall j, k :: 0 <= j < k < |list| ==> CurrencyRank(list[j].0) < CurrencyRank(list[k].0)
      {
        if CURRENCIES[i] in balances {
          list := list + [(CURRENCIES[i], balances[CURRENCIES[i]])];
        }
      }
    }

    /** Adds up one currency's fee counters over all merchant documents. */
    method SumFees(currency: Currency) returns (total: int, found: bool)
      requires Valid()
      ensures total == CellSum(rows.cells, FeePart, EveryMerchant(currency))
      ensures found <==> exists key :: key in rows.cells && key.1 == currency
    {
      hide Sum, Sound, Related, CellPart;
      CellsOfStore(rows, Db());
      total, found := 0, false;
      var rest := merchants.Keys;
      ghost var f := CellPart(rows.cells, FeePart, EveryMerchant(currency));
      assert KeysOf(rows.cells, rest) == rows.cells.Keys;
      while rest != {}
        invariant rest <= merchants.Keys
        invariant total + Sum(KeysOf(rows.cells, rest), f) == Sum(rows.cells.Keys, f)
        invariant found <==> exists m :: m in merchants && m !in rest && currency in merchants[m]
        decreases rest
      {
        var m :| m in rest;
        DropMerchant(rows.cells, merchants, rest, m, currency);
        if currency in merchants[m] {
          total, found := total + merchants[m][currency].fees, true;
        }
        rest := rest - {m};
      }
      assert KeysOf(rows.cells, {}) == {};
      SumZero({}, f);
      if found {
        ghost var m :| m in merchants && currency in merchants[m];
        assert (m, currency) in rows.cells;
      }
    }

    method AdminRevenueReport() returns (list: seq<(Currency, int)>)
      requires Valid()
      ensures IsRevenueReport(list, rows.cells)
      ensures forall row :: row in list ==>
                row.1 == LedgerSum(rows.core, booked, FeePart, EveryMerchant(row.0))
    {
      hide Sum, CellSum, Sound, Related, LedgerSum;
      list := [];
      ConservedFees(rows, booked, USD);
      for i := 0 to |CURRENCIES|
        invariant forall row :: row in list <==>
                    && CurrencyRank(row.0) < i && (exists key :: key in rows.cells && key.1 == row.0)
                    && row.1 == CellSum(rows.cells, FeePart, EveryMerchant(row.0))
        invariant forall row :: row in list ==> row.1 == LedgerSum(rows.core, booked, FeePart, EveryMerchant(row.0))
        invariant forall k :: 0 <= k < |list| ==> CurrencyRank(list[k].0) < i
        invariant forall j, k :: 0 <= j < k < |list| ==> CurrencyRank(list[j].0) < CurrencyRank(list[k].0)
      {
        var total, found := SumFees(CURRENCIES[i]);
        ConservedFees(rows, booked, CURRENCIES[i]);
        if found {
          list := list + [(CURRENCIES[i], total)];
        }
      }
    }
  }

  // ---------- sums over merchant documents ----------

  ghost function KeysOf(cells: Cells, ms: set<string>): set<CellKey> {
    set key | key in cells && key.0 in ms
  }

  /** Taking one merchant document out takes its one counter of the currency out. */
  lemma DropMerchant(cells: Cells, merchants: MerchantDocs, rest: set<string>, m: string, currency: Currency)
    requires CellsMatch(cells, merchants) && m in rest && m in merchants
    ensures var f := CellPart(cells, FeePart, EveryMerchant(currency));
            Sum(KeysOf(cells, rest), f) == Sum(KeysOf(cells, rest - {m}), f)
              + (if currency in merchants[m] then merchants[m][currency].fees else 0)
  {
    hide Sum;
    var f := CellPart(cells, FeePart, EveryMerchant(currency));
    var small, key := KeysOf(cells, rest - {m}), (m, currency);
    if key in cells {
      SumInsert(small, key, f);
      SumExtraZeros(small + {key}, KeysOf(cells, rest), f);
    } else {
      SumExtraZeros(small, KeysOf(cells, rest), f);
    }
  }

  lemma CellsOfStore(t: Tables, d: Docs)
    requires Related(t, d)
    ensures CellsMatch(t.cells, d.merchants)
  {
  }

  lemma ConservedFees(t: Tables, booked: set<PaymentId>, currency: Currency)
    requires Sound(t, booked)
    ensures CellSum(t.cells, FeePart, EveryMerchant(currency)) == LedgerSum(t.core, booked, FeePart, EveryMerchant(currency))
    ensures forall key :: key in t.cells ==> key.1.Valid()
  {
  }

  lemma SoundParts(t: Tables, booked: set<PaymentId>)
    requires Sound(t, booked)
    ensures Accounted(t.core) && ReferencesHold(t)
  {
  }

  lemma RelatedParts(t: Tables, d: Docs)
    requires Related(t, d)
    ensures Matches(t.core, d.payments) && t.core.payments.Keys == d.payments.Keys
  {
  }

  /** An open refund is embedded in one document, at one position. */
  lemma OnlyOpen(c: Core, payments: PaymentDocs, rid: RefundId, id: PaymentId) returns (i: nat)
    requires Matches(c, payments) && OpenIn(payments, id, rid)
    ensures i == FirstOpen(payments[id].refunds, rid)
    ensures forall p :: OpenIn(payments, p, rid) ==> p == id
    ensures forall k :: 0 <= k < i ==> payments[id].refunds[k].id != rid
  {
    hide Matches;
    i := FirstOpen(payments[id].refunds, rid);
    if rid in c.refunds {
      var p, k := WhereEmbedded(c, payments, rid);
    } else {
      NowhereEmbedded(c, payments, rid);
    }
  }
}
