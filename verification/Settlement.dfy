/** A Mobile Money payment, and what to do of it in view of the provider's transaction. */
module Settlement {
  import opened Wrappers
  import opened UnitsLedger

  datatype Provider = Fake | Campay

  datatype PaymentStatus = Pending | Succeeded | Failed | Expired | AmountMismatch

  datatype Channel = Webhook | Sweep

  datatype FailureCode = InvalidPhone | Declined | NoProviderReference

  datatype Payment = Payment(
    user: UserId, offerCode: string, amountXaf: nat, idempotencyKey: string, requestHash: string,
    provider: Provider, externalReference: string, providerReference: Option<string>,
    status: PaymentStatus, confirmedVia: Option<Channel>, failureCode: Option<FailureCode>,
    createdAt: Instant, completedAt: Option<Instant>)

  function NewPending(user: UserId, offerCode: string, amountXaf: nat, key: string, requestHash: string,
                      provider: Provider, externalReference: string, now: Instant): Payment {
    Payment(user, offerCode, amountXaf, key, requestHash, provider, externalReference, None, Pending, None, None,
            now, None)
  }

  datatype TransactionStatus = InProgress | Successful | Unsuccessful

  /** A transaction as read back at the provider; the amount is a decimal. */
  datatype Transaction = Transaction(externalReference: Option<string>, status: TransactionStatus, amount: real,
                                     currency: string)

  const PAYMENT_CURRENCY := "XAF"
  const MAX_SAFE_INTEGER := 9007199254740991

  function LowerChar(c: char): char {
    if 'A' <= c <= 'Z' then c + 'a' - 'A' else c
  }

  function UpperChar(c: char): char {
    if 'a' <= c <= 'z' then c - 'a' + 'A' else c
  }

  function Lower(s: string): string {
    seq(|s|, i requires 0 <= i < |s| => LowerChar(s[i]))
  }

  function Upper(s: string): string {
    seq(|s|, i requires 0 <= i < |s| => UpperChar(s[i]))
  }

  predicate IsSafeInteger(x: real) {
    x.Floor as real == x && -MAX_SAFE_INTEGER <= x.Floor <= MAX_SAFE_INTEGER
  }

  predicate IsAmountMatching(expectedXaf: nat, t: Transaction) {
    Upper(t.currency) == PAYMENT_CURRENCY && IsSafeInteger(t.amount) && t.amount == expectedXaf as real
  }

  datatype Anomaly = ReferenceMismatch | SuccessfulAfterFailure | FailedAfterSuccess

  datatype Decision =
    | Succeed(from: PaymentStatus)
    | Fail(code: FailureCode)
    | FlagAmountMismatch
    | Wait
    | Nothing
    | Inconsistent(reason: Anomaly)

  function SettleSuccessful(p: Payment, t: Transaction): Decision {
    match p.status
    case Pending => if IsAmountMatching(p.amountXaf, t) then Succeed(p.status) else FlagAmountMismatch
    case Expired => if IsAmountMatching(p.amountXaf, t) then Succeed(p.status) else FlagAmountMismatch
    case Failed => Inconsistent(SuccessfulAfterFailure)
    case Succeeded => Nothing
    case AmountMismatch => Nothing
  }

  function SettleFailed(p: Payment): Decision {
    match p.status
    case Pending => Fail(Declined)
    case Succeeded => Inconsistent(FailedAfterSuccess)
    case Expired => Nothing
    case Failed => Nothing
    case AmountMismatch => Nothing
  }

  function SettlementFor(p: Payment, t: Transaction): Decision {
    if t.externalReference.None? || Lower(t.externalReference.value) != Lower(p.externalReference)
    then Inconsistent(ReferenceMismatch)
    else
      match t.status
      case InProgress => if p.status == Pending then Wait else Nothing
      case Successful => SettleSuccessful(p, t)
      case Unsuccessful => SettleFailed(p)
  }

  // ---- what a transaction proves about a payment ----

  predicate Ours(p: Payment, t: Transaction) {
    t.externalReference.Some? && Lower(t.externalReference.value) == Lower(p.externalReference)
  }

  /** Paid: our reference, successful, and exactly the copied price in XAF. */
  predicate Paid(p: Payment, t: Transaction) {
    Ours(p, t) && t.status == Successful && t.amount == p.amountXaf as real && Upper(t.currency) == "XAF"
  }

  /** Paid, but not the copied price. */
  predicate PaidOther(p: Payment, t: Transaction) {
    Ours(p, t) && t.status == Successful && !(t.amount == p.amountXaf as real && Upper(t.currency) == "XAF")
  }

  predicate Refused(p: Payment, t: Transaction) {
    Ours(p, t) && t.status == Unsuccessful
  }

  /** Prices are 32-bit integers, so the safe-integer test never rejects an exact amount. */
  predicate PriceInRange(p: Payment) {
    p.amountXaf <= 0x7fff_ffff
  }

  /** A decision that changes the status is exactly an open payment with its evidence. */
  lemma DecisionIsEvidence(p: Payment, t: Transaction)
    requires PriceInRange(p)
    ensures SettlementFor(p, t).Succeed? <==> (p.status == Pending || p.status == Expired) && Paid(p, t)
    ensures SettlementFor(p, t) == FlagAmountMismatch
            <==> (p.status == Pending || p.status == Expired) && PaidOther(p, t)
    ensures SettlementFor(p, t).Fail? <==> p.status == Pending && Refused(p, t)
    ensures SettlementFor(p, t).Succeed? ==> SettlementFor(p, t).from == p.status
  {
    assert (p.amountXaf as real).Floor == p.amountXaf;
  }

  // ---- expiry ----

  const MINUTE_MS := 60_000
  const SWEEP_GRACE_MS := 2 * MINUTE_MS
  const RECONCILE_BATCH_SIZE := 100
  const PENDING_TTL_MS := 24 * 60 * MINUTE_MS
  const UNREFERENCED_TTL_MS := 15 * MINUTE_MS

  function SweepCutoff(now: Instant): Instant {
    now - SWEEP_GRACE_MS
  }

  predicate IsExpiryDue(p: Payment, now: Instant) {
    p.status == Pending
    && now - p.createdAt >= (if p.providerReference.None? then UNREFERENCED_TTL_MS else PENDING_TTL_MS)
  }
}
