/** The relational store: transactions over normalised tables. */
module PostgresStore {
  import opened Domain
  import opened Ledger
  import opened Money
  import opened Sums
  import opened Balances
  import opened Relational

  class PgStore {
    var payments: map<PaymentId, PaymentRow>
    var refunds: map<RefundId, RefundRow>
    var cells: Cells
    var merchants: set<string>
    var customers: set<string>
    /** Actors this process knows to be committed. */
    var seen: set<ActorKey>
    /** Payments this store ever settled; no column holds this. */
    ghost var booked: set<PaymentId>

    ghost function Db(): Tables
      reads this
    {
      Tables(Core(payments, refunds), cells, merchants, customers)
    }

    ghost predicate Valid()
      reads this
    {
      && Sound(Db(), booked)
      && (forall a :: a in seen ==> if a.MerchantKey? then a.id in merchants else a.id in customers)
    }

    constructor ()
      ensures Valid() && Db() == NO_ROWS
    {
      payments, refunds, cells, merchants, customers, seen, booked := map[], map[], map[], {}, {}, {}, {};
      new;
      EmptyIsSound();
    }

    /** One transaction: parents first, then the payment. Actors are remembered only
        once the transaction has committed. */
    method CreatePayment(input: PaymentInput, id: PaymentId, now: Instant, commits: bool) returns (r: Result<Payment>)
      requires Valid() && id !in payments
      modifies this
      ensures Valid()
      ensures ValidInput(input) && !commits ==>
                r == Err(Unavailable) && Db() == old(Db()) && booked == old(booked) && seen == old(seen)
      ensures !ValidInput(input) || commits ==>
                (Db(), PaymentReply(r)) == Apply(old(Db()), Create(input, id, now)) && booked == old(booked)
      ensures r.Ok? ==>
              && id in payments && payments[id].status == r.value.status
              && r.value.status ==
                   match input.via
                   case Card | ApplePay | GooglePay => if input.amount % 100 == 13 then Declined else Captured
                   case DirectDebit => Authorized
                   case BankTransfer => Pending
                   case OtherMethod(_) => Captured
    {
      hide Sound;
      if !input.currency.Valid() || !input.via.Valid() || input.amount <= 0 {
        return Err(InvalidState);
      }
      if Blank(input.merchant) || Blank(input.customer) {
        return Err(InvalidState);
      }
      ApplyKeepsSound(Db(), booked, Create(input, id, now));
      var status := Captured;
      match input.via {
        case Card | ApplePay | GooglePay =>
          if input.amount % 100 == 13 {
            status := Declined;
          }
        case DirectDebit => status := Authorized;
        case BankTransfer => status := Pending;
        case OtherMethod(_) =>
      }
      var row := PaymentRow(input.merchant, input.customer, input.amount, input.currency, input.via,
                            status, 0, None, now, now);
      var txMerchants, txCustomers := UpsertParties(input.merchant, input.customer);
      if !commits {
        return Err(Unavailable);
      }
      merchants, customers := txMerchants, txCustomers;
      payments := payments[id := row];
      MarkSeen(input.merchant, input.customer);
      r := Ok(AsPayment(id, row));
    }

    /** The parent rows as the transaction sees them; actors in the cache are skipped. */
    method UpsertParties(merchant: string, customer: string) returns (ms: set<string>, cs: set<string>)
      requires Valid()
      ensures ms == merchants + {merchant} && cs == customers + {customer}
    {
      ms, cs := merchants, customers;
      if MerchantKey(merchant) !in seen {
        ms := ms + {merchant};
      }
      if CustomerKey(customer) !in seen {
        cs := cs + {customer};
      }
    }

    method MarkSeen(merchant: string, customer: string)
      modifies this`seen
      ensures seen == old(seen) + {MerchantKey(merchant), CustomerKey(customer)}
    {
      seen := seen + {MerchantKey(merchant)};
      seen := seen + {CustomerKey(customer)};
    }

    method SelectPayment(id: PaymentId) returns (r: Result<Payment>)
      ensures r == if id in payments then Ok(AsPayment(id, payments[id])) else Err(NotFound)
    {
      if id !in payments {
        return Err(NotFound);
      }
      r := Ok(AsPayment(id, payments[id]));
    }

    method GetPayment(id: PaymentId, actor: Actor) returns (r: Result<Payment>)
      ensures PaymentReply(r) == Apply(Db(), Get(id, actor)).1
      ensures r.Ok? <==>
              && id in payments
              && (actor == Admin || actor == Merchant(payments[id].merchant) || actor == Customer(payments[id].customer))
      ensures r.Err? ==> r.error == if id in payments then Forbidden else NotFound
    {
      r := SelectPayment(id);
      if r.Err? {
        return;
      }
      match actor {
        case Admin =>
        case Merchant(a) =>
          if r.value.merchant != a {
            return Err(Forbidden);
          }
        case Customer(a) =>
          if r.value.customer != a {
            return Err(Forbidden);
          }
        case OtherRole =>
          return Err(Forbidden);
      }
    }

    /** A conditional update; when it matches no row, a second look says why. */
    method CapturePayment(id: PaymentId, now: Instant) returns (r: Result<Payment>)
      requires Valid()
      modifies this
      ensures Valid() && booked == old(booked)
      ensures (Db(), PaymentReply(r)) == Apply(old(Db()), Capture(id, now))
    {
      hide Sound;
      ApplyKeepsSound(Db(), booked, Capture(id, now));
      if id in payments && payments[id].status == Authorized {
        payments := payments[id := payments[id].(status := Captured, updatedAt := now)];
        r := SelectPayment(id);
        return;
      }
      r := SelectPayment(id);
      if r.Ok? {
        r := Err(InvalidState);
      }
    }

    /** A transaction of three writes: the guarded counter, the status flip once the
        payment is used up, and the refund row. */
    method RefundPayment(id: PaymentId, amount: int, rid: RefundId, now: Instant, commits: bool)
      returns (r: Result<Refund>)
      requires Valid() && rid !in refunds
      modifies this
      ensures Valid() && booked == old(booked)
      ensures r == Err(Unavailable) ==> !commits && Db() == old(Db())
      ensures r != Err(Unavailable) ==>
                (Db(), RefundReply(r)) == Apply(old(Db()), GiveBack(id, amount, rid, now))
      ensures r.Ok? ==>
              && amount > 0 && r.value.amount == amount && refunds == old(refunds)[rid := RefundRow(id, amount, Created, now)]
              && id in old(payments) && id in payments && payments[id].refunded == old(payments)[id].refunded + amount
    {
      hide Sound;
      if amount <= 0 {
        return Err(InvalidState);
      }
      ApplyKeepsSound(Db(), booked, GiveBack(id, amount, rid, now));
      if !(id in payments && (payments[id].status == Captured || payments[id].status == Settled)
           && payments[id].refunded + amount <= payments[id].amount) {
        var current := SelectPayment(id);
        if current.Err? {
          return Err(NotFound);
        }
        if current.value.status != Captured && current.value.status != Settled {
          return Err(InvalidState);
        }
        return Err(OverRefund);
      }
      var txPayments := payments[id := payments[id].(refunded := payments[id].refunded + amount, updatedAt := now)];
      var row := txPayments[id];
      if row.refunded == row.amount {
        txPayments := txPayments[id := row.(status := Refunded, updatedAt := now)];
      }
      var txRefunds := refunds[rid := RefundRow(id, amount, Created, now)];
      if !commits {
        return Err(Unavailable);
      }
      assert txPayments == payments[id := txPayments[id]];
      payments, refunds := txPayments, txRefunds;
      r := Ok(Refund(rid, id, row.merchant, amount, row.currency, Created, now));
    }

    /** INSERT .. ON CONFLICT DO UPDATE on one cell, inside a transaction. */
    method CreditBalance(merchant: string, currency: Currency, deltaBalance: int, deltaFees: int) returns (tx: Cells)
      ensures tx == Post(cells, Posting(merchant, currency, deltaBalance, deltaFees))
    {
      tx := cells;
      if (merchant, currency) in tx {
        var row := tx[(merchant, currency)];
        tx := tx[(merchant, currency) := Balance(row.balance + deltaBalance, row.fees + deltaFees)];
      } else {
        tx := tx[(merchant, currency) := Balance(deltaBalance, deltaFees)];
      }
    }

    method SettlePayment(id: PaymentId, now: Instant, commits: bool) returns (r: Result<Payment>)
      requires Valid()
      modifies this
      ensures Valid()
      ensures r == Err(Unavailable) ==> !commits && Db() == old(Db()) && booked == old(booked)
      ensures r != Err(Unavailable) ==>
                && (Db(), PaymentReply(r)) == Apply(old(Db()), Settle(id, now))
                && booked == old(booked) + (if r.Ok? then {id} else {})
    {
      hide Sound, GripeFee, Post;
      ApplyKeepsSound(Db(), booked, Settle(id, now));
      if !(id in payments && (payments[id].status == Captured || payments[id].status == Pending)) {
        r := SelectPayment(id);
        if r.Ok? {
          r := Err(InvalidState);
        }
        return;
      }
      var txPayments := payments[id := payments[id].(status := Settled, updatedAt := now)];
      var row := txPayments[id];
      var fee: int := GripeFee(row.amount);
      var txCells := CreditBalance(row.merchant, row.currency, row.amount - fee, fee);
      if !commits {
        return Err(Unavailable);
      }
      payments, cells, booked := txPayments, txCells, booked + {id};
      r := Ok(AsPayment(id, row));
    }

    method SettleRefund(rid: RefundId, now: Instant, commits: bool) returns (r: Result<Refund>)
      requires Valid()
      modifies this
      ensures Valid() && booked == old(booked)
      ensures r == Err(Unavailable) ==> !commits && Db() == old(Db())
      ensures r != Err(Unavailable) ==>
                (Db(), RefundReply(r)) == Apply(old(Db()), Ledger.SettleRefund(rid, now))
    {
      hide Sum, Accounted, BookedFits, Conserved, GripeFee, Post;
      ApplyKeepsSound(Db(), booked, Ledger.SettleRefund(rid, now));
      if rid !in refunds {
        return Err(NotFound);
      }
      assert refunds[rid].payment in payments by {
        ParentExists(Db().core, rid);
      }
      if refunds[rid].status != Created {
        return Err(InvalidState);
      }
      var txRefunds := refunds[rid := refunds[rid].(status := RefundSettled)];
      var row, parent := txRefunds[rid], payments[refunds[rid].payment];
      var fee: int := GripeFee(row.amount);
      var txCells := CreditBalance(parent.merchant, parent.currency, -(row.amount - fee), -fee);
      if !commits {
        return Err(Unavailable);
      }
      refunds, cells := txRefunds, txCells;
      r := Ok(AsRefund(rid, row, parent));
    }

    /** Fills an empty column only; then reads the row back either way. */
    method SettleNetworkFee(id: PaymentId, fee: int, now: Instant) returns (r: Result<Payment>)
      requires Valid()
      modifies this
      ensures Valid() && booked == old(booked) && seen == old(seen)
      ensures (Db(), PaymentReply(r)) == Apply(old(Db()), NetworkFee(id, fee, now))
    {
      hide Sound;
      ApplyKeepsSound(Db(), booked, NetworkFee(id, fee, now));
      if id in payments && payments[id].networkFee.None? {
        payments := payments[id := payments[id].(networkFee := Some(fee), updatedAt := now)];
      } else if id in payments {
        assert payments == payments[id := payments[id]];
      }
      r := SelectPayment(id);
    }

    method GetMerchantBalances(merchant: string) returns (rows: seq<(Currency, Balance)>)
      requires Valid()
      ensures IsBalanceList(rows, cells, merchant)
    {
      rows := [];
      for i := 0 to |CURRENCIES|
        invariant forall row :: row in rows <==>
                    CurrencyRank(row.0) < i && (merchant, row.0) in cells && cells[(merchant, row.0)] == row.1
        invariant forall k :: 0 <= k < |rows| ==> CurrencyRank(rows[k].0) < i
        invariant forall j, k :: 0 <= j < k < |rows| ==> CurrencyRank(rows[j].0) < CurrencyRank(rows[k].0)
      {
        if (merchant, CURRENCIES[i]) in cells {
          rows := rows + [(CURRENCIES[i], cells[(merchant, CURRENCIES[i])])];
        }
      }
    }

    /** Sums the fee column over the rows of one currency. */
    method SumFees(currency: Currency) returns (total: int)
      ensures total == CellSum(cells, FeePart, EveryMerchant(currency))
    {
      hide Sum;
      total := 0;
      var rest := cells.Keys;
      ghost var f := CellPart(cells, FeePart, EveryMerchant(currency));
      while rest != {}
        invariant rest <= cells.Keys
        invariant total + Sum(rest, f) == Sum(cells.Keys, f)
        decreases rest
      {
        var key :| key in rest;
        SumRemove(rest, key, f);
        if key.1 == currency {
          total := total + cells[key].fees;
        }
        rest := rest - {key};
      }
      SumZero({}, f);
    }

    /** Fee revenue per currency. It equals the fees recomputed from history. */
    method AdminRevenueReport() returns (rows: seq<(Currency, int)>)
      requires Valid()
      ensures IsRevenueReport(rows, cells)
      ensures forall row :: row in rows ==>
                row.1 == LedgerSum(Db().core, booked, FeePart, EveryMerchant(row.0))
    {
      hide Sum, CellSum, Accounted, BookedFits;
      rows := [];
      for i := 0 to |CURRENCIES|
        invariant forall row :: row in rows <==>
                    && CurrencyRank(row.0) < i && (exists key :: key in cells && key.1 == row.0)
                    && row.1 == CellSum(cells, FeePart, EveryMerchant(row.0))
        invariant forall k :: 0 <= k < |rows| ==> CurrencyRank(rows[k].0) < i
        invariant forall j, k :: 0 <= j < k < |rows| ==> CurrencyRank(rows[j].0) < CurrencyRank(rows[k].0)
      {
        if exists key :: key in cells && key.1 == CURRENCIES[i] {
          var total := SumFees(CURRENCIES[i]);
          rows := rows + [(CURRENCIES[i], total)];
        }
      }
    }
  }
}
