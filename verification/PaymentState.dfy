/**
 * The payments, the purchases they grant, and the atomic steps of the request,
 * the notification and the sweep. Each step is one repository method or one
 * transaction.
 */
module PaymentState {
  import opened Wrappers
  import opened UnitsLedger
  import opened LedgerEffects
  import Billing = BillingLedger
  import opened Settlement

  type PaymentId = string

  /** Rows by their creation key; `observed` is every transaction read at the provider so far. */
  datatype Db = Db(payments: map<PaymentId, Payment>, ledger: Tables, observed: seq<Transaction>)

  const EmptyDb := Db(map[], NoRows, [])

  /** The catalogue never loses an offer. */
  type Catalog = map<string, Offer>

  datatype Completion = Completion(status: PaymentStatus, via: Option<Channel>, failureCode: Option<FailureCode>)

  datatype Action =
    | Insert(id: PaymentId, payment: Payment)
    | Attach(id: PaymentId, reference: string)
    | Complete(id: PaymentId, from: PaymentStatus, completion: Completion, at: Instant)
    | Confirm(id: PaymentId, from: PaymentStatus, via: Channel, at: Instant, passId: string)
    | Observe(transaction: Transaction)
    | Bill(billing: Billing.Action)

  // ---- queries and constraints ----

  predicate SameKey(a: Payment, b: Payment) {
    a.user == b.user && a.idempotencyKey == b.idempotencyKey
  }

  predicate SameReference(a: Payment, b: Payment) {
    a.provider == b.provider && a.providerReference.Some? && a.providerReference == b.providerReference
  }

  /** External references are identifiers, whatever the case of their letters. */
  predicate SameExternal(a: Payment, b: Payment) {
    Lower(a.externalReference) == Lower(b.externalReference)
  }

  predicate ExternalTaken(db: Db, p: Payment) {
    exists id :: id in db.payments && SameExternal(db.payments[id], p)
  }

  predicate KeyTaken(db: Db, p: Payment) {
    exists id :: id in db.payments && SameKey(db.payments[id], p)
  }

  predicate ReferenceTaken(db: Db, provider: Provider, reference: string) {
    exists id :: id in db.payments && db.payments[id].provider == provider
      && db.payments[id].providerReference == Some(reference)
  }

  function CompletedPayment(p: Payment, c: Completion, at: Instant): Payment {
    p.(status := c.status, confirmedVia := c.via, failureCode := c.failureCode, completedAt := Some(at))
  }

  function GrantOf(catalog: Catalog, id: PaymentId, p: Payment, at: Instant, passId: string): GrantRequest
    requires p.offerCode in catalog
  {
    GrantRequest(id, p.user, catalog[p.offerCode], at, passId)
  }

  predicate Seen(db: Db, p: Payment, evidence: (Payment, Transaction) -> bool) {
    exists k :: 0 <= k < |db.observed| && evidence(p, db.observed[k])
  }

  /** What the path that takes a step has made sure of. */
  predicate Sound(catalog: Catalog, db: Db, a: Action) {
    match a
    case Insert(id, p) =>
      && id !in db.payments && FindPurchase(db.ledger.purchases, id).None?
      && p.status == Pending && p.completedAt.None? && p.confirmedVia.None? && p.failureCode.None?
      && p.providerReference.None?
      && p.offerCode in catalog && p.amountXaf == catalog[p.offerCode].price && PriceInRange(p)
    case Attach(id, _) => id in db.payments
    case Complete(id, from, c, _) =>
      && id in db.payments
      && (c.status == Failed || c.status == AmountMismatch || c.status == Expired)
      && (c.status == Failed ==>
          from == Pending && (c.failureCode == Some(InvalidPhone) || Seen(db, db.payments[id], Refused)))
      && (c.status == AmountMismatch ==> (from == Pending || from == Expired) && Seen(db, db.payments[id], PaidOther))
      && (c.status == Expired ==> from == Pending)
    case Confirm(id, from, _, _, passId) =>
      && id in db.payments && (from == Pending || from == Expired) && Seen(db, db.payments[id], Paid)
      && FindPass(db.ledger.passes, passId).None?
    case Observe(_) => true
    case Bill(b) => !b.GrantAction?
  }

  /** A second request with the same key is not inserted; an external reference in use violates a unique constraint. */
  function AfterInsert(db: Db, id: PaymentId, p: Payment): Db {
    if KeyTaken(db, p) || ExternalTaken(db, p) then db else db.(payments := db.payments[id := p])
  }

  /**
   * Only a missing reference is set; a reference of another payment violates a
   * unique constraint, and nothing is written.
   */
  function AfterAttach(db: Db, id: PaymentId, reference: string): Db
    requires id in db.payments
  {
    var p := db.payments[id];
    if p.providerReference.Some? || ReferenceTaken(db, p.provider, reference) then db
    else db.(payments := db.payments[id := p.(providerReference := Some(reference))])
  }

  function AfterComplete(db: Db, id: PaymentId, from: PaymentStatus, c: Completion, at: Instant): Db
    requires id in db.payments
  {
    var p := db.payments[id];
    if p.status == from then db.(payments := db.payments[id := CompletedPayment(p, c, at)]) else db
  }

  /** `succeeded` and the grant in one transaction; a refused grant rolls both back. */
  function AfterConfirm(catalog: Catalog, db: Db, id: PaymentId, from: PaymentStatus, via: Channel, at: Instant,
                        passId: string): Db
    requires id in db.payments
  {
    var p := db.payments[id];
    if p.status != from || p.offerCode !in catalog then db
    else
      var q := GrantOf(catalog, id, p, at, passId);
      if GrantResult(db.ledger, q).ReferenceConflict? then db
      else db.(payments := db.payments[id := CompletedPayment(p, Completion(Succeeded, Some(via), None), at)],
               ledger := AfterGrant(db.ledger, q))
  }

  function Apply(catalog: Catalog, policy: Policy, db: Db, a: Action): Db {
    if !Sound(catalog, db, a) then db
    else
      match a
      case Insert(id, p) => AfterInsert(db, id, p)
      case Attach(id, reference) => AfterAttach(db, id, reference)
      case Complete(id, from, c, at) => AfterComplete(db, id, from, c, at)
      case Confirm(id, from, via, at, passId) => AfterConfirm(catalog, db, id, from, via, at, passId)
      case Observe(t) => db.(observed := db.observed + [t])
      case Bill(b) => db.(ledger := Billing.Apply(db.ledger, policy, b))
  }

  function Run(catalog: Catalog, policy: Policy, db: Db, actions: seq<Action>): Db {
    if actions == [] then db
    else Apply(catalog, policy, Run(catalog, policy, db, actions[..|actions| - 1]), actions[|actions| - 1])
  }

  lemma RunOne(catalog: Catalog, policy: Policy, db: Db, before: seq<Action>, a: Action)
    ensures Run(catalog, policy, db, before + [a]) == Apply(catalog, policy, Run(catalog, policy, db, before), a)
  {
    assert (before + [a])[..|before|] == before;
  }

  lemma {:induction false} RunConcat(catalog: Catalog, policy: Policy, db: Db, before: seq<Action>, after: seq<Action>)
    ensures Run(catalog, policy, db, before + after) == Run(catalog, policy, Run(catalog, policy, db, before), after)
  {
    if after == [] {
      assert before + after == before;
    } else {
      var last := |after| - 1;
      assert before + after == (before + after[..last]) + [after[last]];
      RunConcat(catalog, policy, db, before, after[..last]);
      RunOne(catalog, policy, db, before + after[..last], after[last]);
    }
  }

  // ---- what every reachable state keeps ----

  /** The purchase that a payment granted: for its user, at the price it copied, worth what the offer says. */
  ghost predicate IsPurchaseOf(catalog: Catalog, row: Purchase, id: PaymentId, p: Payment) {
    && row.reference == id && row.user == p.user
    && row.grant.offerCode == p.offerCode && row.grant.price == p.amountXaf
    && p.offerCode in catalog && p.completedAt.Some?
    && IsWorth(row.grant, catalog[p.offerCode], p.completedAt.value)
  }

  /** Succeeded exactly when the purchase is there; every other conclusion has its evidence. */
  ghost predicate PaymentOk(catalog: Catalog, db: Db, id: PaymentId, p: Payment) {
    && p.offerCode in catalog && p.amountXaf == catalog[p.offerCode].price && PriceInRange(p)
    && (p.completedAt.None? <==> p.status == Pending)
    && (p.status == Succeeded ==>
          && Seen(db, p, Paid)
          && FindPurchase(db.ledger.purchases, id).Some?
          && IsPurchaseOf(catalog, db.ledger.purchases[FindPurchase(db.ledger.purchases, id).value], id, p))
    && (p.status != Succeeded ==> FindPurchase(db.ledger.purchases, id).None?)
    && (p.status == AmountMismatch ==> Seen(db, p, PaidOther))
    && (p.status == Failed ==> p.failureCode == Some(InvalidPhone) || Seen(db, p, Refused))
  }

  ghost predicate PaymentsOk(catalog: Catalog, db: Db) {
    && (forall id :: id in db.payments ==> PaymentOk(catalog, db, id, db.payments[id]))
    && (forall k :: 0 <= k < |db.ledger.purchases| ==> db.ledger.purchases[k].reference in db.payments)
  }

  /** The unique constraints. */
  ghost predicate KeysUnique(db: Db) {
    && (forall a, b :: a in db.payments && b in db.payments && SameKey(db.payments[a], db.payments[b]) ==> a == b)
    && (forall a, b :: a in db.payments && b in db.payments && SameReference(db.payments[a], db.payments[b]) ==> a == b)
  }

  ghost predicate ExternalUnique(db: Db) {
    forall a, b :: a in db.payments && b in db.payments && SameExternal(db.payments[a], db.payments[b]) ==> a == b
  }

  /** The `CHECK` constraints of the offers; prices are 32-bit integers. */
  predicate CatalogOk(catalog: Catalog) {
    forall code :: code in catalog ==>
      catalog[code].Valid() && catalog[code].code == code && catalog[code].price <= 0x7fff_ffff
  }

  ghost predicate Inv(catalog: Catalog, policy: Policy, db: Db) {
    LedgerInv(db.ledger, policy) && PaymentsOk(catalog, db) && KeysUnique(db) && ExternalUnique(db)
  }
}
