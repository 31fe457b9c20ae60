/** The vocabulary both stores share: payments, refunds, callers, errors. */
module Domain {

  datatype Option<+T> = None | Some(value: T)

  /** A point on the time line. */
  type Instant = int

  /** The stores draw ids as 96 random bits printed in fixed-width hexadecimal, so
      the order of the printed ids is the order of the numbers. */
  type PaymentId = nat
  type RefundId = nat

  datatype Currency = EUR | GBP | USD | OtherCurrency(code: string)
  {
    predicate Valid() {
      !OtherCurrency?
    }
  }

  datatype PaymentMethod = Card | DirectDebit | BankTransfer | ApplePay | GooglePay | OtherMethod(name: string)
  {
    predicate Valid() {
      !OtherMethod?
    }
  }

  datatype Status = Authorized | Captured | Settled | Pending | Declined | Refunded

  datatype RefundStatus = Created | RefundSettled

  datatype Payment = Payment(
    id: PaymentId, merchant: string, customer: string, amount: nat, currency: Currency, via: PaymentMethod,
    status: Status, refunded: nat, networkFee: int, createdAt: Instant, updatedAt: Instant)

  datatype Refund = Refund(
    id: RefundId, payment: PaymentId, merchant: string, amount: nat, currency: Currency,
    status: RefundStatus, createdAt: Instant)

  /** A merchant or a customer, as a process remembers having onboarded it. */
  datatype ActorKey = MerchantKey(id: string) | CustomerKey(id: string)

  datatype PaymentInput = PaymentInput(
    merchant: string, customer: string, amount: int, currency: Currency, via: PaymentMethod)

  datatype Actor = Admin | Merchant(id: string) | Customer(id: string) | OtherRole

  /** A per-(merchant, currency) ledger cell. */
  datatype Balance = Balance(balance: int, fees: int)

  datatype Error = NotFound | Forbidden | InvalidState | OverRefund | Unavailable

  datatype Result<+T> = Ok(value: T) | Err(error: Error)

  /** White space as trimmed from ids. */
  predicate IsSpace(c: char) {
    || '\t' <= c <= '\r' || c == ' ' || c == '\U{0085}' || c == '\U{00A0}' || c == '\U{1680}'
    || '\U{2000}' <= c <= '\U{200A}' || c == '\U{2028}' || c == '\U{2029}' || c == '\U{202F}'
    || c == '\U{205F}' || c == '\U{3000}'
  }

  predicate Blank(id: string) {
    forall i :: 0 <= i < |id| ==> IsSpace(id[i])
  }

  predicate ValidInput(input: PaymentInput) {
    && input.currency.Valid() && input.via.Valid() && input.amount > 0
    && !Blank(input.merchant) && !Blank(input.customer)
  }

  /** Cards and wallets capture at once unless the amount ends in 13, which is the
      mock decline; direct debit is authorized; a bank transfer is pending. */
  function InitialStatus(via: PaymentMethod, amount: int): Status {
    match via
    case Card | ApplePay | GooglePay => if amount % 100 == 13 then Declined else Captured
    case DirectDebit => Authorized
    case BankTransfer => Pending
    case OtherMethod(_) => Captured
  }

  predicate MayRead(actor: Actor, merchant: string, customer: string) {
    match actor
    case Admin => true
    case Merchant(id) => id == merchant
    case Customer(id) => id == customer
    case OtherRole => false
  }
}
