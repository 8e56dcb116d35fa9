/** Every step of every path keeps the payments and their purchases in agreement. */
module PaymentInvariants {
  import opened Wrappers
  import opened UnitsLedger
  import opened LedgerInvariants
  import opened LedgerEffects
  import Billing = BillingLedger
  import opened Settlement
  import opened PaymentState

  // ---- evidence ----

  /** What never changes of a payment. */
  predicate SamePayment(p: Payment, q: Payment) {
    && p.user == q.user && p.offerCode == q.offerCode && p.amountXaf == q.amountXaf
    && p.idempotencyKey == q.idempotencyKey && p.requestHash == q.requestHash
    && p.provider == q.provider && p.externalReference == q.externalReference && p.createdAt == q.createdAt
  }

  lemma SeenStays(db: Db, after: Db, p: Payment, q: Payment)
    requires db.observed <= after.observed && SamePayment(p, q)
    ensures Seen(db, p, Paid) ==> Seen(after, q, Paid)
    ensures Seen(db, p, PaidOther) ==> Seen(after, q, PaidOther)
    ensures Seen(db, p, Refused) ==> Seen(after, q, Refused)
  {
    if Seen(db, p, Paid) {
      var k :| 0 <= k < |db.observed| && Paid(p, db.observed[k]);
      assert Paid(q, after.observed[k]);
    }
    if Seen(db, p, PaidOther) {
      var k :| 0 <= k < |db.observed| && PaidOther(p, db.observed[k]);
      assert PaidOther(q, after.observed[k]);
    }
    if Seen(db, p, Refused) {
      var k :| 0 <= k < |db.observed| && Refused(p, db.observed[k]);
      assert Refused(q, after.observed[k]);
    }
  }

  // ---- purchases ----

  lemma FindPurchaseAppend(rows: seq<Purchase>, row: Purchase, reference: Reference)
    ensures FindPurchase(rows + [row], reference)
            == if row.reference == reference then Some(|rows|) else FindPurchase(rows, reference)
  {
    assert (rows + [row])[..|rows|] == rows;
  }

  lemma BillKeepsPurchases(t: Tables, policy: Policy, b: Billing.Action)
    requires !b.GrantAction?
    ensures Billing.Apply(t, policy, b).purchases == t.purchases
  {
  }

  lemma GrantAddsPurchase(t: Tables, q: GrantRequest)
    requires GrantResult(t, q).Granted?
    ensures AfterGrant(t, q).purchases == t.purchases + [Purchase(q.reference, q.user, GrantResult(t, q).grant)]
    ensures IsWorth(GrantResult(t, q).grant, q.offer, q.now)
  {
    GrantIsWorth(q.offer, q.now, LatestPassEnd(t.passes, q.user));
  }

  // ---- the agreement of one payment ----

  lemma PaymentCarries(catalog: Catalog, db: Db, after: Db, id: PaymentId, p: Payment)
    requires PaymentOk(catalog, db, id, p) && db.observed <= after.observed
    requires FindPurchase(after.ledger.purchases, id) == FindPurchase(db.ledger.purchases, id)
    requires db.ledger.purchases <= after.ledger.purchases
    ensures PaymentOk(catalog, after, id, p)
  {
    SeenStays(db, after, p, p);
  }

  /** Nothing but the observations changes. */
  lemma SamePurchasesKeep(catalog: Catalog, db: Db, after: Db)
    requires PaymentsOk(catalog, db) && after.payments == db.payments
    requires after.ledger.purchases == db.ledger.purchases && db.observed <= after.observed
    ensures PaymentsOk(catalog, after)
  {
    forall id | id in after.payments ensures PaymentOk(catalog, after, id, after.payments[id]) {
      PaymentCarries(catalog, db, after, id, db.payments[id]);
    }
  }

  /** One payment changes, with the same purchases. */
  lemma UpdateKeeps(catalog: Catalog, db: Db, after: Db, id: PaymentId, p: Payment)
    requires PaymentsOk(catalog, db) && after == db.(payments := db.payments[id := p])
    requires PaymentOk(catalog, db, id, p)
    ensures PaymentsOk(catalog, after)
  {
    forall i | i in after.payments ensures PaymentOk(catalog, after, i, after.payments[i]) {
      PaymentCarries(catalog, db, after, i, after.payments[i]);
    }
  }

  lemma AttachOk(catalog: Catalog, db: Db, id: PaymentId, p: Payment, reference: string)
    requires PaymentOk(catalog, db, id, p)
    ensures PaymentOk(catalog, db, id, p.(providerReference := Some(reference)))
  {
    SeenStays(db, db, p, p.(providerReference := Some(reference)));
  }

  lemma CompleteOk(catalog: Catalog, db: Db, id: PaymentId, c: Completion, at: Instant)
    requires id in db.payments && PaymentOk(catalog, db, id, db.payments[id])
    requires Sound(catalog, db, Complete(id, db.payments[id].status, c, at))
    ensures PaymentOk(catalog, db, id, CompletedPayment(db.payments[id], c, at))
  {
    SeenStays(db, db, db.payments[id], CompletedPayment(db.payments[id], c, at));
  }

  // ---- confirming ----

  /** The grant of an open payment is never refused: its offer exists and its reference is free. */
  lemma NeverRefused(catalog: Catalog, db: Db, id: PaymentId, at: Instant, passId: string)
    requires id in db.payments && PaymentOk(catalog, db, id, db.payments[id]) && db.payments[id].status != Succeeded
    ensures db.payments[id].offerCode in catalog
    ensures GrantResult(db.ledger, GrantOf(catalog, id, db.payments[id], at, passId)).Granted?
  {
  }

  lemma ConfirmedOk(catalog: Catalog, db: Db, after: Db, id: PaymentId, p: Payment, row: Purchase)
    requires PaymentsOk(catalog, db) && id in db.payments && SamePayment(db.payments[id], p)
    requires p.status == Succeeded && p.completedAt.Some? && Seen(db, db.payments[id], Paid)
    requires IsPurchaseOf(catalog, row, id, p)
    requires after.payments == db.payments[id := p] && after.observed == db.observed
    requires after.ledger.purchases == db.ledger.purchases + [row]
    ensures PaymentsOk(catalog, after)
  {
    forall i | i in after.payments ensures PaymentOk(catalog, after, i, after.payments[i]) {
      FindPurchaseAppend(db.ledger.purchases, row, i);
      assert PaymentOk(catalog, db, i, db.payments[i]);
      if i == id {
        SeenStays(db, after, db.payments[id], p);
      } else {
        PaymentCarries(catalog, db, after, i, db.payments[i]);
      }
    }
  }

  lemma ConfirmKeepsPayments(catalog: Catalog, db: Db, id: PaymentId, via: Channel, at: Instant, passId: string)
    requires PaymentsOk(catalog, db) && CatalogOk(catalog)
    requires id in db.payments && Sound(catalog, db, Confirm(id, db.payments[id].status, via, at, passId))
    ensures PaymentsOk(catalog, AfterConfirm(catalog, db, id, db.payments[id].status, via, at, passId))
  {
    var p := db.payments[id];
    NeverRefused(catalog, db, id, at, passId);
    var q := GrantOf(catalog, id, p, at, passId);
    GrantAddsPurchase(db.ledger, q);
    ConfirmedOk(catalog, db, AfterConfirm(catalog, db, id, p.status, via, at, passId), id,
                CompletedPayment(p, Completion(Succeeded, Some(via), None), at),
                Purchase(id, p.user, GrantResult(db.ledger, q).grant));
  }

  // ---- unique keys ----

  lemma UpdateKeepsKeys(db: Db, after: Db, id: PaymentId, p: Payment)
    requires KeysUnique(db) && id in db.payments && after.payments == db.payments[id := p]
    requires SamePayment(db.payments[id], p) && p.providerReference == db.payments[id].providerReference
    ensures KeysUnique(after)
  {
    forall a, b | a in after.payments && b in after.payments && SameKey(after.payments[a], after.payments[b])
      ensures a == b {
      assert SameKey(db.payments[a], db.payments[b]);
    }
    forall a, b | a in after.payments && b in after.payments && SameReference(after.payments[a], after.payments[b])
      ensures a == b {
      assert SameReference(db.payments[a], db.payments[b]);
    }
  }

  lemma AttachKeepsKeys(db: Db, id: PaymentId, reference: string)
    requires KeysUnique(db) && id in db.payments
    ensures KeysUnique(AfterAttach(db, id, reference))
  {
    var after := AfterAttach(db, id, reference);
    forall a, b | a in after.payments && b in after.payments && SameKey(after.payments[a], after.payments[b])
      ensures a == b {
      assert SameKey(db.payments[a], db.payments[b]);
    }
    forall a, b | a in after.payments && b in after.payments && SameReference(after.payments[a], after.payments[b])
      ensures a == b {
      assert a != id && b != id ==> SameReference(db.payments[a], db.payments[b]);
    }
  }

  lemma InsertKeepsKeys(db: Db, id: PaymentId, p: Payment)
    requires KeysUnique(db) && id !in db.payments && p.providerReference.None?
    ensures KeysUnique(AfterInsert(db, id, p))
  {
    var after := AfterInsert(db, id, p);
    forall a, b | a in after.payments && b in after.payments && SameKey(after.payments[a], after.payments[b])
      ensures a == b {
      assert a != id && b != id ==> SameKey(db.payments[a], db.payments[b]);
    }
    forall a, b | a in after.payments && b in after.payments && SameReference(after.payments[a], after.payments[b])
      ensures a == b {
      assert a != id && b != id ==> SameReference(db.payments[a], db.payments[b]);
    }
  }

  lemma UpdateKeepsExternal(db: Db, after: Db, id: PaymentId, p: Payment)
    requires ExternalUnique(db) && after.payments == db.payments[id := p]
    requires if id in db.payments then SameExternal(db.payments[id], p) else !ExternalTaken(db, p)
    ensures ExternalUnique(after)
  {
    hide Lower;
    forall a, b | a in after.payments && b in after.payments && SameExternal(after.payments[a], after.payments[b])
      ensures a == b {
      if (a != id && b != id) || id in db.payments {
        assert SameExternal(db.payments[a], db.payments[b]);
      } else {
        assert a != id ==> ExternalTaken(db, p);
        assert b != id ==> ExternalTaken(db, p);
      }
    }
  }

  // ---- each step ----

  lemma ApplyKeepsPayments(catalog: Catalog, policy: Policy, db: Db, a: Action)
    requires PaymentsOk(catalog, db) && CatalogOk(catalog)
    ensures PaymentsOk(catalog, Apply(catalog, policy, db, a))
  {
    if Sound(catalog, db, a) {
      match a
      case Insert(id, p) =>
        if !KeyTaken(db, p) && !ExternalTaken(db, p) { UpdateKeeps(catalog, db, AfterInsert(db, id, p), id, p); }
      case Attach(id, reference) =>
        if AfterAttach(db, id, reference) != db {
          AttachOk(catalog, db, id, db.payments[id], reference);
          UpdateKeeps(catalog, db, AfterAttach(db, id, reference), id,
                      db.payments[id].(providerReference := Some(reference)));
        }
      case Complete(id, from, c, at) =>
        if db.payments[id].status == from {
          CompleteOk(catalog, db, id, c, at);
          UpdateKeeps(catalog, db, AfterComplete(db, id, from, c, at), id, CompletedPayment(db.payments[id], c, at));
        }
      case Confirm(id, from, via, at, passId) =>
        if db.payments[id].status == from { ConfirmKeepsPayments(catalog, db, id, via, at, passId); }
      case Observe(t) => SamePurchasesKeep(catalog, db, db.(observed := db.observed + [t]));
      case Bill(b) =>
        BillKeepsPurchases(db.ledger, policy, b);
        SamePurchasesKeep(catalog, db, db.(ledger := Billing.Apply(db.ledger, policy, b)));
    }
  }

  lemma ApplyKeepsKeys(catalog: Catalog, policy: Policy, db: Db, a: Action)
    requires KeysUnique(db)
    ensures KeysUnique(Apply(catalog, policy, db, a))
  {
    if Sound(catalog, db, a) {
      match a
      case Insert(id, p) => InsertKeepsKeys(db, id, p);
      case Attach(id, reference) => AttachKeepsKeys(db, id, reference);
      case Complete(id, from, c, at) =>
        if db.payments[id].status == from {
          UpdateKeepsKeys(db, AfterComplete(db, id, from, c, at), id, CompletedPayment(db.payments[id], c, at));
        }
      case Confirm(id, from, via, at, passId) =>
        if AfterConfirm(catalog, db, id, from, via, at, passId) != db {
          UpdateKeepsKeys(db, AfterConfirm(catalog, db, id, from, via, at, passId), id,
                          CompletedPayment(db.payments[id], Completion(Succeeded, Some(via), None), at));
        }
      case Observe(_) =>
      case Bill(_) =>
    }
  }

  lemma ApplyKeepsExternal(catalog: Catalog, policy: Policy, db: Db, a: Action)
    requires ExternalUnique(db)
    ensures ExternalUnique(Apply(catalog, policy, db, a))
  {
    var after := Apply(catalog, policy, db, a);
    if Sound(catalog, db, a) {
      match a
      case Insert(id, p) =>
        if !KeyTaken(db, p) && !ExternalTaken(db, p) { UpdateKeepsExternal(db, after, id, p); }
      case Attach(id, _) => UpdateKeepsExternal(db, after, id, after.payments[id]);
      case Complete(id, _, _, _) => UpdateKeepsExternal(db, after, id, after.payments[id]);
      case Confirm(id, _, _, _, _) => UpdateKeepsExternal(db, after, id, after.payments[id]);
      case Observe(_) =>
      case Bill(_) =>
    }
  }

  lemma ApplyKeepsLedger(catalog: Catalog, policy: Policy, db: Db, a: Action)
    requires LedgerInv(db.ledger, policy) && CatalogOk(catalog)
    ensures LedgerInv(Apply(catalog, policy, db, a).ledger, policy)
  {
    if Sound(catalog, db, a) {
      match a
      case Confirm(id, from, via, at, passId) =>
        if db.payments[id].offerCode in catalog {
          GrantKeepsInv(db.ledger, policy, GrantOf(catalog, id, db.payments[id], at, passId));
        }
      case Bill(b) => Billing.ApplyKeepsInv(db.ledger, policy, b);
      case _ =>
    }
  }

  lemma {:induction false} RunKeeps(catalog: Catalog, policy: Policy, actions: seq<Action>)
    requires CatalogOk(catalog)
    ensures Inv(catalog, policy, Run(catalog, policy, EmptyDb, actions))
  {
    if actions == [] {
      EmptyInv(policy);
    } else {
      var before := Run(catalog, policy, EmptyDb, actions[..|actions| - 1]);
      RunKeeps(catalog, policy, actions[..|actions| - 1]);
      ApplyKeepsLedger(catalog, policy, before, actions[|actions| - 1]);
      ApplyKeepsPayments(catalog, policy, before, actions[|actions| - 1]);
      ApplyKeepsKeys(catalog, policy, before, actions[|actions| - 1]);
      ApplyKeepsExternal(catalog, policy, before, actions[|actions| - 1]);
    }
  }
}
