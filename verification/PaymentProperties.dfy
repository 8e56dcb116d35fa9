/** What every run of the payments guarantees. */
module PaymentProperties {
  import opened Wrappers
  import opened UnitsLedger
  import opened Settlement
  import opened PaymentState
  import opened PaymentInvariants

  lemma ReachablePayment(catalog: Catalog, policy: Policy, actions: seq<Action>, id: PaymentId)
    requires CatalogOk(catalog) && id in Run(catalog, policy, EmptyDb, actions).payments
    ensures PaymentOk(catalog, Run(catalog, policy, EmptyDb, actions), id,
                      Run(catalog, policy, EmptyDb, actions).payments[id])
  {
    RunKeeps(catalog, policy, actions);
  }

  /**
   * In every reachable state a payment has succeeded exactly when a purchase
   * exists under its identifier; the purchase is the only one, for its user and
   * its offer, and the provider was seen holding our reference, successful, for
   * exactly the copied price in XAF.
   */
  lemma SucceededIffGranted(catalog: Catalog, policy: Policy, actions: seq<Action>, id: PaymentId)
    requires CatalogOk(catalog) && id in Run(catalog, policy, EmptyDb, actions).payments
    ensures var db := Run(catalog, policy, EmptyDb, actions);
            var rows := db.ledger.purchases;
            && (db.payments[id].status == Succeeded <==> exists k :: 0 <= k < |rows| && rows[k].reference == id)
            && (forall k, m ::
                  0 <= k < |rows| && 0 <= m < |rows| && rows[k].reference == id && rows[m].reference == id ==> k == m)
            && (forall k :: 0 <= k < |rows| && rows[k].reference == id ==>
                IsPurchaseOf(catalog, rows[k], id, db.payments[id]) && Seen(db, db.payments[id], Paid))
  {
    RunKeeps(catalog, policy, actions);
    var db := Run(catalog, policy, EmptyDb, actions);
    assert PaymentOk(catalog, db, id, db.payments[id]);
    OnePurchase(db.ledger, id);
  }

  lemma OnePurchase(t: Tables, reference: Reference)
    requires UniqueRows(t)
    ensures FindPurchase(t.purchases, reference).Some?
            <==> exists k :: 0 <= k < |t.purchases| && t.purchases[k].reference == reference
    ensures forall k :: 0 <= k < |t.purchases| && t.purchases[k].reference == reference ==>
              FindPurchase(t.purchases, reference) == Some(k)
  {
  }

  /** Every purchase was paid for: it belongs to a payment that has succeeded. */
  lemma EveryPurchaseIsPaid(catalog: Catalog, policy: Policy, actions: seq<Action>, k: nat)
    requires CatalogOk(catalog) && k < |Run(catalog, policy, EmptyDb, actions).ledger.purchases|
    ensures var db := Run(catalog, policy, EmptyDb, actions);
            var id := db.ledger.purchases[k].reference;
            id in db.payments && db.payments[id].status == Succeeded && Seen(db, db.payments[id], Paid)
  {
    RunKeeps(catalog, policy, actions);
    var id := Run(catalog, policy, EmptyDb, actions).ledger.purchases[k].reference;
    SucceededIffGranted(catalog, policy, actions, id);
  }

  /** A pass that a payment has bought: all the units of its offer, for all its days, from the payment on. */
  ghost predicate IsPaidPass(pass: PassRow, id: PaymentId, p: Payment, offer: Offer) {
    && pass.reference == id && pass.user == p.user && pass.offerCode == p.offerCode
    && offer.PassOffer? && pass.included == offer.units
    && p.completedAt.Some? && p.completedAt.value <= pass.startsAt
    && pass.endsAt - pass.startsAt == 86_400_000 * offer.durationDays
  }

  /** In every reachable state, who paid for a pass has it. */
  lemma PaidPassIsThere(catalog: Catalog, policy: Policy, actions: seq<Action>, id: PaymentId)
    requires CatalogOk(catalog)
    requires var db := Run(catalog, policy, EmptyDb, actions);
             && id in db.payments && db.payments[id].status == Succeeded
             && db.payments[id].offerCode in catalog && catalog[db.payments[id].offerCode].PassOffer?
    ensures var db := Run(catalog, policy, EmptyDb, actions);
            var p := db.payments[id];
            exists i :: 0 <= i < |db.ledger.passes| && IsPaidPass(db.ledger.passes[i], id, p, catalog[p.offerCode])
  {
    RunKeeps(catalog, policy, actions);
    var db := Run(catalog, policy, EmptyDb, actions);
    assert PaymentOk(catalog, db, id, db.payments[id]);
    var k := FindPurchase(db.ledger.purchases, id).value;
    assert HasPassOf(db.ledger.purchases[k], db.ledger.passes);
    var i :| 0 <= i < |db.ledger.passes| && IsPassOf(db.ledger.passes[i], db.ledger.purchases[k]);
    assert IsPaidPass(db.ledger.passes[i], id, db.payments[id], catalog[db.payments[id].offerCode]);
  }

  /** And nobody has a pass that was not paid for. */
  lemma PassIsPaid(catalog: Catalog, policy: Policy, actions: seq<Action>, i: nat)
    requires CatalogOk(catalog) && i < |Run(catalog, policy, EmptyDb, actions).ledger.passes|
    ensures var db := Run(catalog, policy, EmptyDb, actions);
            var id := db.ledger.passes[i].reference;
            && id in db.payments && db.payments[id].status == Succeeded && db.payments[id].offerCode in catalog
            && IsPaidPass(db.ledger.passes[i], id, db.payments[id], catalog[db.payments[id].offerCode])
  {
    RunKeeps(catalog, policy, actions);
    var db := Run(catalog, policy, EmptyDb, actions);
    assert HasPurchaseOf(db.ledger.passes[i], db.ledger.purchases);
    var k :| 0 <= k < |db.ledger.purchases| && IsPassOf(db.ledger.passes[i], db.ledger.purchases[k]);
    SucceededIffGranted(catalog, policy, actions, db.ledger.purchases[k].reference);
  }

  /** A transaction read at the provider speaks of one payment at most: no two payments ever rest on the same one. */
  lemma {:induction false} TransactionOfOne(catalog: Catalog, policy: Policy, actions: seq<Action>, a: PaymentId,
                                            b: PaymentId, t: Transaction)
    requires CatalogOk(catalog)
    requires var payments := Run(catalog, policy, EmptyDb, actions).payments;
             a in payments && b in payments && Ours(payments[a], t) && Ours(payments[b], t)
    ensures a == b
  {
    RunKeeps(catalog, policy, actions);
    var db := Run(catalog, policy, EmptyDb, actions);
    assert SameExternal(db.payments[a], db.payments[b]);
  }

  /** Two payments that have succeeded were paid by two transactions, with two external references. */
  lemma SucceededApart(catalog: Catalog, policy: Policy, actions: seq<Action>, a: PaymentId, b: PaymentId)
    returns (paidA: Transaction, paidB: Transaction)
    requires CatalogOk(catalog) && a != b
    requires var payments := Run(catalog, policy, EmptyDb, actions).payments;
             a in payments && b in payments && payments[a].status == Succeeded && payments[b].status == Succeeded
    ensures var db := Run(catalog, policy, EmptyDb, actions);
            && paidA in db.observed && paidB in db.observed && Paid(db.payments[a], paidA)
            && Paid(db.payments[b], paidB)
            && Lower(paidA.externalReference.value) != Lower(paidB.externalReference.value)
            && !Ours(db.payments[a], paidB) && !Ours(db.payments[b], paidA)
  {
    var db := Run(catalog, policy, EmptyDb, actions);
    ReachablePayment(catalog, policy, actions, a);
    ReachablePayment(catalog, policy, actions, b);
    var k :| 0 <= k < |db.observed| && Paid(db.payments[a], db.observed[k]);
    var m :| 0 <= m < |db.observed| && Paid(db.payments[b], db.observed[m]);
    paidA, paidB := db.observed[k], db.observed[m];
    if Lower(paidA.externalReference.value) == Lower(paidB.externalReference.value) {
      TransactionOfOne(catalog, policy, actions, a, b, paidA);
    }
  }

  // ---- how a run moves a payment ----

  /** The edges of the code. `Expired` to `AmountMismatch` is one of them. */
  predicate Edge(s: PaymentStatus, t: PaymentStatus) {
    (s == Pending && t != Pending) || (s == Expired && (t == Succeeded || t == AmountMismatch))
  }

  predicate Moves(p: Payment, q: Payment) {
    && SamePayment(p, q)
    && (p.status == q.status || Edge(p.status, q.status))
    && (p.providerReference.Some? ==> q.providerReference == p.providerReference)
  }

  lemma ApplyMoves(catalog: Catalog, policy: Policy, db: Db, a: Action, id: PaymentId)
    requires id in db.payments
    ensures id in Apply(catalog, policy, db, a).payments
    ensures Moves(db.payments[id], Apply(catalog, policy, db, a).payments[id])
    ensures db.observed <= Apply(catalog, policy, db, a).observed
  {
  }

  /**
   * Over every run, statuses only move from pending to any other and from
   * expired to succeeded or amount mismatch; a concluded payment stays
   * concluded, and what identifies and prices a payment never changes.
   */
  lemma {:induction false} RunMoves(catalog: Catalog, policy: Policy, db: Db, actions: seq<Action>, id: PaymentId)
    requires id in db.payments
    ensures id in Run(catalog, policy, db, actions).payments
    ensures Moves(db.payments[id], Run(catalog, policy, db, actions).payments[id])
    ensures db.observed <= Run(catalog, policy, db, actions).observed
  {
    if actions != [] {
      RunMoves(catalog, policy, db, actions[..|actions| - 1], id);
      ApplyMoves(catalog, policy, Run(catalog, policy, db, actions[..|actions| - 1]), actions[|actions| - 1], id);
    }
  }

  /** A payment of an earlier state, later in the same history. */
  lemma Later(catalog: Catalog, policy: Policy, before: seq<Action>, after: seq<Action>, id: PaymentId)
    requires before <= after && id in Run(catalog, policy, EmptyDb, before).payments
    ensures id in Run(catalog, policy, EmptyDb, after).payments
    ensures Moves(Run(catalog, policy, EmptyDb, before).payments[id], Run(catalog, policy, EmptyDb, after).payments[id])
    ensures Run(catalog, policy, EmptyDb, before).observed <= Run(catalog, policy, EmptyDb, after).observed
  {
    var since := after[|before|..];
    assert after == before + since;
    RunConcat(catalog, policy, EmptyDb, before, since);
    RunMoves(catalog, policy, Run(catalog, policy, EmptyDb, before), since, id);
  }

  /**
   * The status list documents `succeeded` as the only way out of `expired`. The
   * code has another one: any expired payment is flagged when the provider
   * reports its reference successful for another amount.
   */
  lemma ExpiredCanMismatch(catalog: Catalog, policy: Policy, db: Db, id: PaymentId, t: Transaction, via: Channel,
                           at: Instant)
    requires id in db.payments && db.payments[id].status == Expired && PaidOther(db.payments[id], t)
             && PriceInRange(db.payments[id])
    ensures SettlementFor(db.payments[id], t) == FlagAmountMismatch
    ensures var after :=
            Run(catalog, policy, db,
                [Observe(t), Complete(id, Expired, Completion(AmountMismatch, Some(via), None), at)]);
            id in after.payments && after.payments[id].status == AmountMismatch
  {
    var a := Complete(id, Expired, Completion(AmountMismatch, Some(via), None), at);
    var seen := db.(observed := db.observed + [t]);
    DecisionIsEvidence(db.payments[id], t);
    RunOne(catalog, policy, db, [], Observe(t));
    RunOne(catalog, policy, db, [Observe(t)], a);
    assert [] + [Observe(t)] == [Observe(t)] && [Observe(t)] + [a] == [Observe(t), a];
    assert PaidOther(seen.payments[id], seen.observed[|db.observed|]);
  }

  // ---- decisions on stale snapshots ----

  /** What a decision to write needs, in the state where it is written. */
  predicate Justified(catalog: Catalog, db: Db, id: PaymentId, decision: Decision, via: Channel, at: Instant) {
    match decision
    case Succeed(from) => id in db.payments && (from == Pending || from == Expired) && Seen(db, db.payments[id], Paid)
    case Fail(code) => Sound(catalog, db, Complete(id, Pending, Completion(Failed, Some(via), Some(code)), at))
    case FlagAmountMismatch => id in db.payments && Seen(db, db.payments[id], PaidOther)
    case _ => true
  }

  /**
   * A decision taken on a stale snapshot of the payment, from a transaction that
   * was read at the provider, is justified in any later state: what the
   * transaction proves does not depend on anything that changes.
   */
  lemma StaleDecision(catalog: Catalog, db: Db, id: PaymentId, stale: Payment, t: Transaction, via: Channel,
                      at: Instant)
    requires id in db.payments && SamePayment(stale, db.payments[id]) && PriceInRange(stale) && t in db.observed
    ensures Justified(catalog, db, id, SettlementFor(stale, t), via, at)
    ensures SettlementFor(stale, t) == FlagAmountMismatch ==> stale.status == Pending || stale.status == Expired
  {
    DecisionIsEvidence(stale, t);
    var k :| 0 <= k < |db.observed| && db.observed[k] == t;
    var p := db.payments[id];
    assert Paid(stale, t) ==> Paid(p, db.observed[k]);
    assert PaidOther(stale, t) ==> PaidOther(p, db.observed[k]);
    assert Refused(stale, t) ==> Refused(p, db.observed[k]);
  }
}
