/**
 * The paths that move a payment, on the tables in place: the request, the
 * notification and the sweep. Each works on a snapshot of the payment read
 * earlier; `others` is whatever the other paths commit meanwhile.
 */
module PaymentWorkers {
  import opened Wrappers
  import opened UnitsLedger
  import opened Settlement
  import opened PaymentState
  import opened PaymentInvariants
  import opened PaymentProperties

  datatype Settled = Concluded(status: PaymentStatus) | Waiting | Unchanged | Raced | Anomalous | Unavailable | Thrown

  /** What a settlement says fits what was decided. */
  predicate Fits(decision: Decision, settled: Settled) {
    match decision
    case Succeed(_) => settled == Concluded(Succeeded) || settled == Raced
    case Fail(_) => settled == Concluded(Failed) || settled == Raced
    case FlagAmountMismatch => settled == Concluded(AmountMismatch) || settled == Raced
    case Wait => settled == Waiting
    case Nothing => settled == Unchanged
    case Inconsistent(_) => settled == Anomalous
  }

  /** The payment shows this conclusion: who confirmed it, when, and why it failed. */
  predicate ShowsConclusion(p: Payment, status: PaymentStatus, via: Option<Channel>, at: Instant,
                            code: Option<FailureCode>) {
    p.status == status && p.confirmedVia == via && p.completedAt == Some(at) && p.failureCode == code
  }

  /** A settlement that concluded left its conclusion. */
  predicate Shown(p: Payment, settled: Settled, via: Channel, at: Instant) {
    settled.Concluded? ==>
      ShowsConclusion(p, settled.status, Some(via), at, if settled.status == Failed then Some(Declined) else None)
  }

  datatype Inserted = Fresh | KeyHeld | Violated

  datatype Attached = Set | AlreadySet | Clash

  datatype Collected = CollectedAs(reference: string) | CollectUnavailable | PhoneRefused

  datatype Initiated = Initiated(id: PaymentId) | Replayed(id: PaymentId) | KeyConflict | UnknownOffer | NotCollected
    | NumberRefused | Failure

  predicate IsKeyOf(p: Payment, user: UserId, key: string) {
    p.user == user && p.idempotencyKey == key
  }

  predicate HasKey(payments: map<PaymentId, Payment>, user: UserId, key: string) {
    exists i :: i in payments && IsKeyOf(payments[i], user, key)
  }

  /** The payment has no reference, and another payment of its provider has this one. */
  predicate Clashes(db: Db, id: PaymentId, reference: string) {
    && id in db.payments && db.payments[id].providerReference.None?
    && exists i :: i in db.payments && db.payments[i].provider == db.payments[id].provider
                   && db.payments[i].providerReference == Some(reference)
  }

  /**
   * The provider is asked while `others` go on: its reference is attached, a
   * refused number fails the payment if it is still pending, and an
   * unreachable provider changes nothing.
   */
  ghost predicate CollectsAs(catalog: Catalog, policy: Policy, before: seq<Action>, after: seq<Action>, id: PaymentId,
                             collected: Collected, at: Instant, others: seq<Action>, result: Initiated) {
    match collected
    case CollectedAs(reference) =>
      && after == before + others + [Attach(id, reference)]
      && result == if Clashes(Run(catalog, policy, EmptyDb, before + others), id, reference) then Failure
                   else Initiated(id)
    case CollectUnavailable => after == before + others && result == NotCollected
    case PhoneRefused =>
      && after == before + others + [Complete(id, Pending, Completion(Failed, None, Some(InvalidPhone)), at)]
      && result == NumberRefused
  }

  /** The same request again: a conflict for another one, the payment itself unless the provider must be asked again. */
  ghost predicate ReplaysAs(catalog: Catalog, policy: Policy, before: seq<Action>, after: seq<Action>, id: PaymentId,
                            existing: Payment, requestHash: string, payable: bool, collected: Collected, at: Instant,
                            others: seq<Action>, result: Initiated) {
    if existing.requestHash != requestHash then after == before && result == KeyConflict
    else if existing.status != Pending || existing.providerReference.Some? || !payable then
      after == before && result == Replayed(id)
    else CollectsAs(catalog, policy, before, after, id, collected, at, others, result)
  }

  /** Inserted and collected, unless the same key was inserted first or the external reference is in use. */
  ghost predicate InsertsAs(catalog: Catalog, policy: Policy, before: seq<Action>, after: seq<Action>, id: PaymentId,
                            p: Payment, collected: Collected, at: Instant, others: seq<Action>, result: Initiated) {
    var db, inserted := Run(catalog, policy, EmptyDb, before), before + [Insert(id, p)];
    if HasKey(db.payments, p.user, p.idempotencyKey) then
      && after == inserted
      && exists i :: i in db.payments && IsKeyOf(db.payments[i], p.user, p.idempotencyKey)
                     && result == if db.payments[i].requestHash == p.requestHash then Replayed(i) else KeyConflict
    else if exists i :: i in db.payments && Lower(db.payments[i].externalReference) == Lower(p.externalReference) then
      after == inserted && result == Failure
    else CollectsAs(catalog, policy, inserted, after, id, collected, at, others, result)
  }

  /** What one visit of the sweep meets: the transaction, the time, and what others commit. */
  datatype Visit = Visit(transaction: Option<Transaction>, at: Instant, settling: (seq<Action>, seq<Action>),
                         before: seq<Action>)

  datatype Swept = SweepSettled(settled: Settled) | SweepExpired

  function Count(outcomes: seq<Swept>, o: Swept): nat {
    if outcomes == [] then 0
    else Count(outcomes[..|outcomes| - 1], o) + (if outcomes[|outcomes| - 1] == o then 1 else 0)
  }

  ghost predicate CountsOf(outcomes: seq<Swept>, counts: map<Swept, nat>) {
    forall o :: (if o in counts then counts[o] else 0) == Count(outcomes, o)
  }

  /** Old enough to be given up: a quarter of an hour without a reference of the provider, a day with one. */
  predicate IsTooOld(stale: Payment, at: Instant) {
    at - stale.createdAt >= if stale.providerReference.None? then 900_000 else 86_400_000
  }

  /** What a visit may return, from the payment as it was listed and what the provider answered. */
  predicate IsSwept(stale: Payment, visit: Visit, outcome: Swept) {
    match outcome
    case SweepExpired =>
      && IsTooOld(stale, visit.at)
      && (stale.providerReference.Some? ==>
          visit.transaction.Some? && SettlementFor(stale, visit.transaction.value) == Wait)
    case SweepSettled(settled) =>
      if stale.providerReference.None? then settled == if IsTooOld(stale, visit.at) then Raced else Waiting
      else if visit.transaction.None? then settled == Unavailable
      else
        var decision := SettlementFor(stale, visit.transaction.value);
        if decision == Wait then settled == (if IsTooOld(stale, visit.at) then Raced else Waiting)
        else Fits(decision, settled)
  }

  /** What the sweep may visit. */
  predicate IsStalePending(p: Payment, before: Instant) {
    p.status == Pending && p.createdAt < before
  }

  /** Each once, the oldest first. */
  ghost predicate OldestFirst(payments: map<PaymentId, Payment>, ids: seq<PaymentId>)
    requires forall k :: 0 <= k < |ids| ==> ids[k] in payments
  {
    forall k, m :: 0 <= k < m < |ids| ==>
      ids[k] != ids[m] && payments[ids[k]].createdAt <= payments[ids[m]].createdAt
  }

  /** The pending payments created before then, the oldest first, up to a limit. */
  ghost predicate IsListing(payments: map<PaymentId, Payment>, before: Instant, limit: nat, batch: seq<PaymentId>) {
    && |batch| <= limit
    && (forall k :: 0 <= k < |batch| ==> batch[k] in payments && IsStalePending(payments[batch[k]], before))
    && OldestFirst(payments, batch)
    && (forall id :: id in payments && id !in batch && IsStalePending(payments[id], before) ==>
          |batch| == limit && NoneNewer(payments, batch, payments[id].createdAt))
  }

  ghost predicate NoneNewer(payments: map<PaymentId, Payment>, ids: seq<PaymentId>, at: Instant)
    requires forall k :: 0 <= k < |ids| ==> ids[k] in payments
  {
    forall k :: 0 <= k < |ids| ==> payments[ids[k]].createdAt <= at
  }

  /** What the visit leaves of the payment. */
  predicate Shows(stale: Payment, p: Payment, visit: Visit, outcome: Swept) {
    match outcome
    case SweepExpired =>
      ShowsConclusion(p, Expired, None, visit.at,
                      if stale.providerReference.None? then Some(NoProviderReference) else None)
    case SweepSettled(settled) =>
      && Shown(p, settled, Sweep, visit.at)
      && (settled == Raced ==> p.status != stale.status)
  }

  /** A moment of the history at which the payment shows this outcome. */
  ghost predicate ShownAt(catalog: Catalog, policy: Policy, moment: seq<Action>, id: PaymentId, stale: Payment,
                          visit: Visit, outcome: Swept) {
    id in Run(catalog, policy, EmptyDb, moment).payments
      && Shows(stale, Run(catalog, policy, EmptyDb, moment).payments[id], visit, outcome)
  }

  lemma CountOneMore(outcomes: seq<Swept>, counts: map<Swept, nat>, outcome: Swept)
    requires CountsOf(outcomes, counts)
    ensures CountsOf(outcomes + [outcome], counts[outcome := (if outcome in counts then counts[outcome] else 0) + 1])
  {
    assert (outcomes + [outcome])[..|outcomes|] == outcomes;
  }

  /** `stale` was the payment at some point of the history. */
  ghost predicate WasRead(catalog: Catalog, policy: Policy, history: seq<Action>, id: PaymentId, stale: Payment) {
    exists seen :: seen <= history && WasAt(catalog, policy, seen, id, stale)
  }

  ghost predicate WasAt(catalog: Catalog, policy: Policy, seen: seq<Action>, id: PaymentId, stale: Payment) {
    id in Run(catalog, policy, EmptyDb, seen).payments && Run(catalog, policy, EmptyDb, seen).payments[id] == stale
  }

  /** A snapshot says for ever what identifies the payment; the payment itself can only have moved on. */
  lemma StaleRead(catalog: Catalog, policy: Policy, history: seq<Action>, id: PaymentId, stale: Payment)
    requires CatalogOk(catalog) && WasRead(catalog, policy, history, id, stale)
    ensures id in Run(catalog, policy, EmptyDb, history).payments
    ensures Moves(stale, Run(catalog, policy, EmptyDb, history).payments[id])
    ensures PriceInRange(stale)
  {
    var seen :| seen <= history && WasAt(catalog, policy, seen, id, stale);
    Later(catalog, policy, seen, history, id);
    ReachablePayment(catalog, policy, seen, id);
  }

  lemma StillRead(catalog: Catalog, policy: Policy, before: seq<Action>, after: seq<Action>, id: PaymentId,
                  stale: Payment)
    requires before <= after && WasRead(catalog, policy, before, id, stale)
    ensures WasRead(catalog, policy, after, id, stale)
  {
    var seen :| seen <= before && WasAt(catalog, policy, seen, id, stale);
    assert seen <= after;
  }

  class PaymentTables {
    const catalog: Catalog
    const policy: Policy
    var payments: map<PaymentId, Payment>
    var ledger: Tables

    /** Every transaction read at the provider: not a table, but what the conclusions rest on. */
    var observed: seq<Transaction>

    /** Every step taken so far, by whichever path. */
    ghost var history: seq<Action>

    function Snapshot(): Db
      reads this
    {
      Db(payments, ledger, observed)
    }

    ghost predicate Valid()
      reads this
    {
      CatalogOk(catalog) && Snapshot() == Run(catalog, policy, EmptyDb, history)
    }

    constructor (catalog: Catalog, policy: Policy)
      requires CatalogOk(catalog)
      ensures Valid() && this.catalog == catalog && this.policy == policy && history == []
    {
      this.catalog, this.policy := catalog, policy;
      payments, ledger, observed, history := map[], NoRows, [], [];
    }

    method Others(actions: seq<Action>)
      requires Valid()
      modifies this
      ensures Valid() && history == old(history) + actions
    {
      RunConcat(catalog, policy, EmptyDb, history, actions);
      var after := Run(catalog, policy, Snapshot(), actions);
      payments, ledger, observed := after.payments, after.ledger, after.observed;
      history := history + actions;
    }

    // ---- the steps ----

    /**
     * `KeyHeld` when the user already has a payment for this key; an external
     * reference in use is refused by the database.
     */
    method InsertPayment(id: PaymentId, p: Payment) returns (inserted: Inserted)
      requires Valid() && Sound(catalog, Snapshot(), Insert(id, p))
      modifies this
      ensures Valid() && history == old(history) + [Insert(id, p)]
      ensures inserted == KeyHeld <==> KeyTaken(old(Snapshot()), p)
      ensures inserted == Violated <==> !KeyTaken(old(Snapshot()), p) && ExternalTaken(old(Snapshot()), p)
      ensures payments == if inserted == Fresh then old(payments)[id := p] else old(payments)
    {
      RunOne(catalog, policy, EmptyDb, history, Insert(id, p));
      history := history + [Insert(id, p)];
      if exists i :: i in payments && payments[i].user == p.user && payments[i].idempotencyKey == p.idempotencyKey {
        var i :| i in payments && payments[i].user == p.user && payments[i].idempotencyKey == p.idempotencyKey;
        assert SameKey(payments[i], p);
        return KeyHeld;
      }
      if exists i :: i in payments && Lower(payments[i].externalReference) == Lower(p.externalReference) {
        var i :| i in payments && Lower(payments[i].externalReference) == Lower(p.externalReference);
        assert SameExternal(payments[i], p);
        return Violated;
      }
      payments := payments[id := p];
      inserted := Fresh;
    }

    /** Sets the reference if it is still missing; another payment's reference is refused by the database. */
    method AttachProviderReference(id: PaymentId, reference: string) returns (attached: Attached)
      requires Valid() && id in payments
      modifies this
      ensures Valid() && history == old(history) + [Attach(id, reference)]
      ensures attached == AlreadySet <==> old(payments)[id].providerReference.Some?
      ensures attached == Clash <==> Clashes(old(Snapshot()), id, reference)
      ensures attached == Set ==>
                payments == old(payments)[id := old(payments)[id].(providerReference := Some(reference))]
      ensures attached != Set ==> payments == old(payments)
      ensures ledger == old(ledger) && observed == old(observed)
    {
      RunOne(catalog, policy, EmptyDb, history, Attach(id, reference));
      history := history + [Attach(id, reference)];
      var p := payments[id];
      if p.providerReference.Some? {
        return AlreadySet;
      }
      if exists i ::
           i in payments && payments[i].provider == p.provider && payments[i].providerReference == Some(reference) {
        return Clash;
      }
      payments := payments[id := p.(providerReference := Some(reference))];
      attached := Set;
    }

    method CompleteFrom(id: PaymentId, from: PaymentStatus, c: Completion, at: Instant) returns (moved: bool)
      requires Valid() && Sound(catalog, Snapshot(), Complete(id, from, c, at))
      modifies this
      ensures Valid() && history == old(history) + [Complete(id, from, c, at)]
      ensures moved <==> old(payments)[id].status == from
      ensures payments == if moved then old(payments)[id := CompletedPayment(old(payments)[id], c, at)]
              else old(payments)
    {
      RunOne(catalog, policy, EmptyDb, history, Complete(id, from, c, at));
      history := history + [Complete(id, from, c, at)];
      var p := payments[id];
      if p.status != from {
        return false;
      }
      payments :=
        payments[id :=
                 p.(status := c.status, confirmedVia := c.via, failureCode := c.failureCode, completedAt := Some(at))];
      moved := true;
    }

    /** A transaction read at the provider. */
    method ReadTransaction(t: Transaction)
      requires Valid()
      modifies this
      ensures Valid() && history == old(history) + [Observe(t)]
      ensures payments == old(payments) && ledger == old(ledger) && observed == old(observed) + [t]
    {
      RunOne(catalog, policy, EmptyDb, history, Observe(t));
      history := history + [Observe(t)];
      observed := observed + [t];
    }

    /** An identifier that no pass has yet. */
    method NewPassId() returns (id: string)
      ensures FindPass(ledger.passes, id).None?
    {
      id := "";
      for k := 0 to |ledger.passes|
        invariant forall i :: 0 <= i < k ==> |ledger.passes[i].id| < |id|
      {
        if |ledger.passes[k].id| >= |id| {
          id := seq(|ledger.passes[k].id| + 1, _ => 'x');
        }
      }
    }

    /** `succeeded` and the grant in one transaction. The grant is never refused, so it never has to be rolled back. */
    method ConfirmAndGrant(id: PaymentId, from: PaymentStatus, via: Channel, at: Instant) returns (moved: bool)
      requires Valid() && id in payments && (from == Pending || from == Expired) && Seen(Snapshot(), payments[id], Paid)
      modifies this
      ensures Valid() && exists passId :: history == old(history) + [Confirm(id, from, via, at, passId)]
      ensures moved <==> old(payments)[id].status == from
      ensures moved ==>
                && payments
                  == old(payments)[id :=
                                   CompletedPayment(old(payments)[id], Completion(Succeeded, Some(via), None), at)]
                && |ledger.purchases| == |old(ledger).purchases| + 1
                && IsPurchaseOf(catalog, ledger.purchases[|old(ledger).purchases|], id, payments[id])
      ensures !moved ==> Snapshot() == old(Snapshot())
    {
      var passId := NewPassId();
      ghost var before := history;
      RunOne(catalog, policy, EmptyDb, history, Confirm(id, from, via, at, passId));
      history := history + [Confirm(id, from, via, at, passId)];
      var p := payments[id];
      if p.status != from {
        return false;
      }
      ReachablePayment(catalog, policy, before, id);
      NeverRefused(catalog, Snapshot(), id, at, passId);
      var q := GrantOf(catalog, id, p, at, passId);
      GrantAddsPurchase(ledger, q);
      payments :=
        payments[id :=
                 p.(status := Succeeded, confirmedVia := Some(via), failureCode := None, completedAt := Some(at))];
      ledger := AfterGrant(ledger, q);
      moved := true;
    }

    // ---- settling ----

    /** After `before`, the payment got this reference unless it had one. */
    ghost predicate Attaches(before: seq<Action>, id: PaymentId, reference: string, p: Payment) {
      var db := Run(catalog, policy, EmptyDb, before);
      && id in db.payments
      && p.providerReference == (if db.payments[id].providerReference.Some? then db.payments[id].providerReference
                                 else Some(reference))
    }

    /** Writes the conclusion of a decision, if the payment is still where the decision found it. */
    method Conclude(id: PaymentId, stale: Payment, decision: Decision, via: Channel, at: Instant)
      returns (settled: Settled)
      requires Valid() && id in payments && Justified(catalog, Snapshot(), id, decision, via, at)
      requires decision.Succeed? ==> decision.from == stale.status
      requires decision.Fail? ==> stale.status == Pending
      requires decision == FlagAmountMismatch ==> stale.status == Pending || stale.status == Expired
      modifies this
      ensures Valid() && old(history) <= history && Fits(decision, settled) && id in payments
      ensures settled.Concluded? ==> old(payments)[id].status == stale.status
      ensures settled.Concluded? ==>
                ShowsConclusion(payments[id], settled.status, Some(via), at,
                                if decision.Fail? then Some(decision.code) else None)
      ensures settled == Raced ==> old(payments)[id].status != stale.status && payments == old(payments)
      ensures !settled.Concluded? ==> payments == old(payments)
      ensures payments[id].providerReference == old(payments)[id].providerReference
      ensures |history| <= |old(history)| + 1 && (decision.Inconsistent? ==> history == old(history))
    {
      match decision {
        case Succeed(from) =>
          var moved := ConfirmAndGrant(id, from, via, at);
          settled := if moved then Concluded(Succeeded) else Raced;
        case Fail(code) =>
          var moved := CompleteFrom(id, Pending, Completion(Failed, Some(via), Some(code)), at);
          settled := if moved then Concluded(Failed) else Raced;
        case FlagAmountMismatch =>
          var moved := CompleteFrom(id, stale.status, Completion(AmountMismatch, Some(via), None), at);
          settled := if moved then Concluded(AmountMismatch) else Raced;
        case Wait => settled := Waiting;
        case Nothing => settled := Unchanged;
        case Inconsistent(_) => settled := Anomalous;
      }
    }

    /**
     * Reads the transaction back at the provider (`None`: it cannot be reached)
     * and applies it to a snapshot of the payment. A payment without a
     * reference gets the one that was read, unless the transaction is not its own.
     */
    method SettleWithReference(id: PaymentId, stale: Payment, reference: string, transaction: Option<Transaction>,
                               via: Channel, at: Instant, others: (seq<Action>, seq<Action>))
      returns (settled: Settled)
      requires Valid() && WasRead(catalog, policy, history, id, stale)
      modifies this
      ensures Valid() && old(history) <= history && id in payments && Moves(stale, payments[id])
      ensures settled == Unavailable <==> transaction.None?
      ensures transaction.None? ==> history == old(history)
      ensures transaction.Some? ==> old(history) + [Observe(transaction.value)] + others.0 <= history
      ensures transaction.Some? && settled != Thrown ==> Fits(SettlementFor(stale, transaction.value), settled)
      ensures settled == Thrown ==> stale.providerReference.None? && Ours(stale, transaction.value)
      ensures settled == Thrown <==>
                && transaction.Some? && stale.providerReference.None?
                && !SettlementFor(stale, transaction.value).Inconsistent?
                && Clashes(Run(catalog, policy, EmptyDb, old(history) + [Observe(transaction.value)] + others.0),
                           id, reference)
      ensures Shown(payments[id], settled, via, at)
      ensures settled == Raced ==> payments[id].status != stale.status
      ensures settled == Anomalous ==> history == old(history) + [Observe(transaction.value)] + others.0 + others.1
      ensures settled != Thrown && settled != Anomalous && transaction.Some? && stale.providerReference.None? ==>
                Attaches(old(history) + [Observe(transaction.value)] + others.0, id, reference, payments[id])
    {
      if transaction.None? {
        StaleRead(catalog, policy, history, id, stale);
        return Unavailable;
      }
      ReadTransaction(transaction.value);
      assert transaction.value in observed;
      StillRead(catalog, policy, old(history), history, id, stale);
      settled := ApplyTransaction(id, stale, reference, transaction.value, via, at, others);
    }

    method ApplyTransaction(id: PaymentId, stale: Payment, reference: string, t: Transaction,
                            via: Channel, at: Instant, others: (seq<Action>, seq<Action>))
      returns (settled: Settled)
      requires Valid() && WasRead(catalog, policy, history, id, stale) && t in observed
      modifies this
      ensures Valid() && old(history) <= history && id in payments && Moves(stale, payments[id])
      ensures settled != Unavailable
      ensures old(history) + others.0 <= history
      ensures settled == Thrown <==>
                && stale.providerReference.None? && !SettlementFor(stale, t).Inconsistent?
                && Clashes(Run(catalog, policy, EmptyDb, old(history) + others.0), id, reference)
      ensures settled != Thrown ==> Fits(SettlementFor(stale, t), settled)
      ensures settled == Thrown ==> stale.providerReference.None? && Ours(stale, t)
      ensures Shown(payments[id], settled, via, at)
      ensures settled == Raced ==> payments[id].status != stale.status
      ensures SettlementFor(stale, t).Inconsistent? ==> history == old(history) + others.0 + others.1
      ensures settled != Thrown && !SettlementFor(stale, t).Inconsistent? && stale.providerReference.None? ==>
                Attaches(old(history) + others.0, id, reference, payments[id])
    {
      hide SettlementFor, Moves, Ours, Attaches, WasRead, Clashes;
      Meanwhile(id, stale, t, others.0);
      var clash := AttachIfOurs(id, stale, reference, t);
      if clash {
        return Thrown;
      }
      ghost var attached, with := history, payments[id];
      Meanwhile(id, stale, t, others.1);
      ReferenceStays(attached, history, id);
      settled := ConcludeStale(id, stale, t, via, at);
      AttachedStill(old(history) + others.0, id, reference, with, payments[id]);
    }

    /** A reference once set stays. */
    lemma ReferenceStays(before: seq<Action>, after: seq<Action>, id: PaymentId)
      requires before <= after && id in Run(catalog, policy, EmptyDb, before).payments
      ensures id in Run(catalog, policy, EmptyDb, after).payments
      ensures Run(catalog, policy, EmptyDb, before).payments[id].providerReference.Some? ==>
                Run(catalog, policy, EmptyDb, after).payments[id].providerReference
                == Run(catalog, policy, EmptyDb, before).payments[id].providerReference
    {
      Later(catalog, policy, before, after, id);
    }

    lemma AttachedStill(before: seq<Action>, id: PaymentId, reference: string, p: Payment, q: Payment)
      requires p.providerReference.Some? ==> q.providerReference == p.providerReference
      ensures Attaches(before, id, reference, p) ==> Attaches(before, id, reference, q)
    {
    }

    /** A payment without a reference gets this one, unless the transaction is not its own. */
    method AttachIfOurs(id: PaymentId, stale: Payment, reference: string, t: Transaction) returns (clash: bool)
      requires Valid() && WasRead(catalog, policy, history, id, stale) && t in observed && id in payments
      requires Moves(stale, payments[id])
      modifies this
      ensures Valid() && old(history) <= history && WasRead(catalog, policy, history, id, stale) && t in observed
      ensures id in payments && Moves(stale, payments[id])
      ensures clash ==> stale.providerReference.None? && Ours(stale, t)
      ensures clash <==>
                && stale.providerReference.None? && !SettlementFor(stale, t).Inconsistent?
                && Clashes(old(Snapshot()), id, reference)
      ensures SettlementFor(stale, t).Inconsistent? ==> !clash && history == old(history)
      ensures !clash && stale.providerReference.None? && !SettlementFor(stale, t).Inconsistent? ==>
                Attaches(old(history), id, reference, payments[id])
    {
      hide Moves, WasRead;
      var decision := SettlementFor(stale, t);
      if stale.providerReference.Some? || decision.Inconsistent? {
        return false;
      }
      var attached := AttachStale(id, stale, reference, t);
      clash := attached == Clash;
    }

    method AttachStale(id: PaymentId, stale: Payment, reference: string, t: Transaction) returns (attached: Attached)
      requires Valid() && WasRead(catalog, policy, history, id, stale) && t in observed && id in payments
      modifies this
      ensures Valid() && history == old(history) + [Attach(id, reference)]
              && WasRead(catalog, policy, history, id, stale) && t in observed
      ensures id in payments && Moves(stale, payments[id])
      ensures attached != Clash ==> Attaches(old(history), id, reference, payments[id])
      ensures attached == Clash <==> Clashes(old(Snapshot()), id, reference)
    {
      attached := AttachProviderReference(id, reference);
      StillRead(catalog, policy, old(history), history, id, stale);
      StaleRead(catalog, policy, history, id, stale);
    }

    /** The decision of the snapshot, written against the payment as it is now. */
    method ConcludeStale(id: PaymentId, stale: Payment, t: Transaction, via: Channel, at: Instant)
      returns (settled: Settled)
      requires Valid() && WasRead(catalog, policy, history, id, stale) && t in observed && id in payments
               && Moves(stale, payments[id])
      modifies this
      ensures Valid() && old(history) <= history && id in payments && Moves(stale, payments[id])
      ensures Fits(SettlementFor(stale, t), settled)
      ensures settled.Concluded? ==> old(payments)[id].status == stale.status
      ensures Shown(payments[id], settled, via, at)
      ensures settled == Raced ==> payments[id].status != stale.status
      ensures payments[id].providerReference == old(payments)[id].providerReference
      ensures SettlementFor(stale, t).Inconsistent? ==> history == old(history)
    {
      StaleRead(catalog, policy, history, id, stale);
      DecisionIsEvidence(stale, t);
      StaleDecision(catalog, Snapshot(), id, stale, t, via, at);
      settled := Conclude(id, stale, SettlementFor(stale, t), via, at);
      StillRead(catalog, policy, old(history), history, id, stale);
      StaleRead(catalog, policy, history, id, stale);
    }

    /** Others go on; the snapshot and what was observed stay good. */
    method Meanwhile(id: PaymentId, stale: Payment, t: Transaction, actions: seq<Action>)
      requires Valid() && WasRead(catalog, policy, history, id, stale) && t in observed
      modifies this
      ensures Valid() && history == old(history) + actions && WasRead(catalog, policy, history, id, stale)
              && t in observed
      ensures id in payments && Moves(stale, payments[id])
    {
      StaleRead(catalog, policy, history, id, stale);
      Later(catalog, policy, history, history + actions, id);
      StillRead(catalog, policy, history, history + actions, id, stale);
      Others(actions);
      StaleRead(catalog, policy, history, id, stale);
    }

    // ---- the notification ----

    method FindByProviderReference(provider: Provider, reference: string) returns (found: Option<PaymentId>)
      ensures found.Some? ==>
                found.value in payments && payments[found.value].provider == provider
                && payments[found.value].providerReference == Some(reference)
      ensures found.None? ==> !ReferenceTaken(Snapshot(), provider, reference)
    {
      if exists i ::
           i in payments && payments[i].provider == provider && payments[i].providerReference == Some(reference) {
        var i :| i in payments && payments[i].provider == provider && payments[i].providerReference == Some(reference);
        return Some(i);
      }
      found := None;
    }

    method FindByExternalReference(reference: string) returns (found: Option<PaymentId>)
      ensures found.Some? ==>
                found.value in payments && Lower(payments[found.value].externalReference) == Lower(reference)
      ensures found.None? ==> forall i :: i in payments ==> Lower(payments[i].externalReference) != Lower(reference)
    {
      if exists i :: i in payments && Lower(payments[i].externalReference) == Lower(reference) {
        var i :| i in payments && Lower(payments[i].externalReference) == Lower(reference);
        return Some(i);
      }
      found := None;
    }

    /**
     * A signed notification names a transaction; nothing else in it is used.
     * `None`: it names none of our payments.
     */
    method HandleNotification(provider: Provider, reference: string, externalReference: Option<string>,
                              transaction: Option<Transaction>, at: Instant,
                              others: (seq<Action>, (seq<Action>, seq<Action>)))
      returns (outcome: Option<(PaymentId, Settled)>)
      requires Valid()
      modifies this
      ensures Valid() && old(history) <= history
      ensures outcome.None? <==>
                && !ReferenceTaken(old(Snapshot()), provider, reference)
                && (externalReference.None? || forall i :: i in old(payments) ==>
                    Lower(old(payments)[i].externalReference) != Lower(externalReference.value))
      ensures outcome.None? ==> history == old(history)
      ensures outcome.Some? ==> outcome.value.0 in old(payments)
      ensures outcome.Some? ==>
                if ReferenceTaken(old(Snapshot()), provider, reference)
                then
                  var p := old(payments)[outcome.value.0];
                  p.provider == provider && p.providerReference == Some(reference)
                else
                  Lower(old(payments)[outcome.value.0].externalReference) == Lower(externalReference.value)
      ensures outcome.Some? ==>
                var id, settled := outcome.value.0, outcome.value.1;
                && id in old(payments) && id in payments && Moves(old(payments)[id], payments[id])
                && Shown(payments[id], settled, Webhook, at)
                && (settled == Raced ==> payments[id].status != old(payments)[id].status)
                && (transaction.Some? && settled != Thrown ==>
                    Fits(SettlementFor(old(payments)[id], transaction.value), settled))
      ensures outcome.Some? ==>
                old(history) + others.0 + (if transaction.Some? then [Observe(transaction.value)] else []) <= history
    {
      var found := FindByProviderReference(provider, reference);
      if found.None? && externalReference.Some? {
        found := FindByExternalReference(externalReference.value);
      }
      if found.None? {
        return None;
      }
      var id := found.value;
      var stale := payments[id];
      assert WasAt(catalog, policy, history, id, stale);
      StillRead(catalog, policy, history, history + others.0, id, stale);
      Others(others.0);
      var settled := SettleWithReference(id, stale, reference, transaction, Webhook, at, others.1);
      outcome := Some((id, settled));
    }

    // ---- the sweep ----

    /** One payment of the sweep: settled, or abandoned when its time is up. */
    method Reconcile(id: PaymentId, stale: Payment, visit: Visit) returns (outcome: Swept)
      requires Valid() && WasRead(catalog, policy, history, id, stale)
      modifies this
      ensures Valid() && old(history) <= history && id in payments && Moves(stale, payments[id])
      ensures stale.status == Pending ==> IsSwept(stale, visit, outcome)
      ensures outcome == SweepExpired && stale.providerReference.Some? ==>
                visit.transaction.Some? && visit.transaction.value.status == InProgress
      ensures outcome == SweepExpired && stale.providerReference.None? ==> visit.at - stale.createdAt >= 900_000
      ensures outcome == SweepExpired && stale.providerReference.Some? ==> visit.at - stale.createdAt >= 86_400_000
      ensures Shows(stale, payments[id], visit, outcome)
    {
      var settled := Waiting;
      if stale.providerReference.Some? {
        settled :=
          SettleWithReference(id, stale, stale.providerReference.value, visit.transaction, Sweep, visit.at,
                              visit.settling);
        StillRead(catalog, policy, old(history), history, id, stale);
      } else {
        StaleRead(catalog, policy, history, id, stale);
      }
      if settled != Waiting || !IsExpiryDue(stale, visit.at) {
        return SweepSettled(settled);
      }
      outcome := Abandon(id, stale, visit.at, visit.before);
    }

    method Abandon(id: PaymentId, stale: Payment, at: Instant, others: seq<Action>) returns (outcome: Swept)
      requires Valid() && WasRead(catalog, policy, history, id, stale) && stale.status == Pending
      modifies this
      ensures Valid() && old(history) <= history && id in payments && Moves(stale, payments[id])
      ensures outcome == SweepExpired || outcome == SweepSettled(Raced)
      ensures outcome == SweepExpired ==>
                ShowsConclusion(payments[id], Expired, None, at,
                                if stale.providerReference.None? then Some(NoProviderReference) else None)
      ensures outcome == SweepSettled(Raced) ==> payments[id].status != Pending
      ensures var code := if stale.providerReference.None? then Some(NoProviderReference) else None;
              history == old(history) + others + [Complete(id, Pending, Completion(Expired, None, code), at)]
      ensures id in Run(catalog, policy, EmptyDb, old(history) + others).payments
      ensures outcome == SweepExpired <==>
                Run(catalog, policy, EmptyDb, old(history) + others).payments[id].status == Pending
    {
      StillRead(catalog, policy, history, history + others, id, stale);
      Others(others);
      StaleRead(catalog, policy, history, id, stale);
      var code := if stale.providerReference.None? then Some(NoProviderReference) else None;
      ghost var before := history;
      var moved := CompleteFrom(id, Pending, Completion(Expired, None, code), at);
      StillRead(catalog, policy, before, history, id, stale);
      StaleRead(catalog, policy, history, id, stale);
      outcome := if moved then SweepExpired else SweepSettled(Raced);
    }

    /** One of the oldest of some payments. */
    method Oldest(ids: set<PaymentId>) returns (oldest: PaymentId)
      requires ids != {} && forall id :: id in ids ==> id in payments
      ensures oldest in ids && forall id :: id in ids ==> payments[oldest].createdAt <= payments[id].createdAt
    {
      oldest :| oldest in ids;
      var rest := ids - {oldest};
      while rest != {}
        invariant oldest in ids && rest <= ids
        invariant forall id :: id in ids - rest ==> payments[oldest].createdAt <= payments[id].createdAt
        decreases |rest|
      {
        var id :| id in rest;
        rest := rest - {id};
        if payments[id].createdAt < payments[oldest].createdAt {
          oldest := id;
        }
      }
    }

    /** The query of the sweep. */
    method ListPendingCreatedBefore(before: Instant, limit: nat) returns (batch: seq<PaymentId>)
      ensures IsListing(payments, before, limit, batch)
    {
      var rest := set id | id in payments && IsStalePending(payments[id], before);
      batch := [];
      while rest != {} && |batch| < limit
        invariant |batch| <= limit
        invariant forall k :: 0 <= k < |batch| ==> batch[k] in payments && IsStalePending(payments[batch[k]], before)
        invariant forall id :: id in rest ==>
                    && id in payments && IsStalePending(payments[id], before)
                    && id !in batch && NoneNewer(payments, batch, payments[id].createdAt)
        invariant forall id :: id in payments && IsStalePending(payments[id], before) ==> id in rest || id in batch
        invariant OldestFirst(payments, batch)
        decreases |rest|
      {
        hide IsStalePending;
        var id := Oldest(rest);
        OldestNext(batch, rest, id);
        batch := batch + [id];
        rest := rest - {id};
      }
    }

    lemma OldestNext(batch: seq<PaymentId>, rest: set<PaymentId>, oldest: PaymentId)
      requires forall k :: 0 <= k < |batch| ==> batch[k] in payments
      requires OldestFirst(payments, batch) && oldest in rest && oldest in payments
      requires forall id :: id in rest ==>
                 id in payments && id !in batch && NoneNewer(payments, batch, payments[id].createdAt)
                 && payments[oldest].createdAt <= payments[id].createdAt
      ensures OldestFirst(payments, batch + [oldest])
      ensures forall id :: id in rest && id != oldest ==> NoneNewer(payments, batch + [oldest], payments[id].createdAt)
    {
    }

    /**
     * The sweep: the hundred oldest pending payments that are two minutes old,
     * one after the other, each on the snapshot taken when the sweep listed
     * them. Each is counted once.
     */
    method SweepPending(visits: nat -> Visit, now: Instant)
      returns (report: (nat, map<Swept, nat>), ghost batch: seq<PaymentId>, ghost outcomes: seq<Swept>,
               ghost moments: seq<seq<Action>>)
      requires Valid()
      modifies this
      ensures Valid() && old(history) <= history
      ensures IsListing(old(payments), now - 120_000, 100, batch)
      ensures forall k :: 0 <= k < |batch| ==>
                batch[k] in payments && Moves(old(payments)[batch[k]], payments[batch[k]])
      ensures |outcomes| == |moments| == |batch|
      ensures forall k :: 0 <= k < |outcomes| ==>
                && IsSwept(old(payments)[batch[k]], visits(k), outcomes[k])
                && old(history) <= moments[k] <= history
                && ShownAt(catalog, policy, moments[k], batch[k], old(payments)[batch[k]], visits(k), outcomes[k])
      ensures report.0 == |batch| && CountsOf(outcomes, report.1)
    {
      hide IsSwept, Shows, Moves, OldestFirst, NoneNewer;
      var pending := ListPendingCreatedBefore(SweepCutoff(now), RECONCILE_BATCH_SIZE);
      batch := pending;
      assert forall k :: 0 <= k < |pending| ==> pending[k] in payments && payments[pending[k]].status == Pending;
      hide IsListing, CountsOf, ShownAt, IsStalePending;
      ghost var start := history;
      ghost var listed := payments;
      report, outcomes, moments := VisitAll(pending, visits);
      forall k | 0 <= k < |batch| ensures batch[k] in payments && Moves(listed[batch[k]], payments[batch[k]]) {
        Later(catalog, policy, start, history, batch[k]);
      }
    }

    /** One payment after the other, each as it was when the visits began. */
    method VisitAll(pending: seq<PaymentId>, visits: nat -> Visit)
      returns (report: (nat, map<Swept, nat>), ghost outcomes: seq<Swept>, ghost moments: seq<seq<Action>>)
      requires Valid()
      requires forall k :: 0 <= k < |pending| ==> pending[k] in payments && payments[pending[k]].status == Pending
      modifies this
      ensures Valid() && old(history) <= history
      ensures |outcomes| == |moments| == |pending|
      ensures forall k :: 0 <= k < |outcomes| ==>
                && IsSwept(old(payments)[pending[k]], visits(k), outcomes[k])
                && old(history) <= moments[k] <= history
                && ShownAt(catalog, policy, moments[k], pending[k], old(payments)[pending[k]], visits(k), outcomes[k])
      ensures report.0 == |pending| && CountsOf(outcomes, report.1)
    {
      hide IsSwept, Shows, Moves;
      outcomes, moments := [], [];
      ghost var start := history;
      var listed := seq(|pending|, k requires 0 <= k < |pending| && pending[k] in payments reads this =>
        payments[pending[k]]);
      var counts: map<Swept, nat> := map[];
      for k := 0 to |pending|
        invariant Valid() && start <= history
        invariant |outcomes| == |moments| == k && CountsOf(outcomes, counts)
        invariant forall i :: 0 <= i < k ==>
                    && IsSwept(listed[i], visits(i), outcomes[i]) && start <= moments[i] <= history
                    && ShownAt(catalog, policy, moments[i], pending[i], listed[i], visits(i), outcomes[i])
      {
        assert WasAt(catalog, policy, start, pending[k], listed[k]);
        var outcome := Reconcile(pending[k], listed[k], visits(k));
        CountOneMore(outcomes, counts, outcome);
        outcomes, moments := outcomes + [outcome], moments + [history];
        counts := counts[outcome := (if outcome in counts then counts[outcome] else 0) + 1];
      }
      report := (|pending|, counts);
    }

    // ---- the request ----

    method FindByKey(user: UserId, key: string) returns (found: Option<PaymentId>)
      ensures found.Some? ==> found.value in payments && IsKeyOf(payments[found.value], user, key)
      ensures found.None? ==> forall i :: i in payments ==> !IsKeyOf(payments[i], user, key)
    {
      if exists i :: i in payments && IsKeyOf(payments[i], user, key) {
        var i :| i in payments && IsKeyOf(payments[i], user, key);
        return Some(i);
      }
      found := None;
    }

    /**
     * Asks the provider for the money, with the payment's own reference; only a
     * refused number concludes the payment here.
     */
    method Collect(id: PaymentId, collected: Collected, at: Instant, others: seq<Action>) returns (result: Initiated)
      requires Valid() && id in payments
      modifies this
      ensures Valid() && old(history) <= history && id in payments && Moves(old(payments)[id], payments[id])
      ensures result == Initiated(id) || result == NotCollected || result == NumberRefused || result == Failure
      ensures result == Initiated(id) <==> collected.CollectedAs? && result != Failure
      ensures result == Initiated(id) ==>
                var before := Run(catalog, policy, EmptyDb, old(history) + others).payments;
                && Attaches(old(history) + others, id, collected.reference, payments[id])
                && payments == before[id := before[id].(providerReference := payments[id].providerReference)]
      ensures result == NumberRefused ==> payments[id].status != Pending
      ensures result == NotCollected <==> collected.CollectUnavailable?
      ensures CollectsAs(catalog, policy, old(history), history, id, collected, at, others, result)
    {
      ghost var start := history;
      Later(catalog, policy, start, start + others, id);
      Others(others);
      match collected {
        case CollectedAs(reference) =>
          var attached := AttachProviderReference(id, reference);
          Later(catalog, policy, start, history, id);
          result := if attached == Clash then Failure else Initiated(id);
        case CollectUnavailable =>
          result := NotCollected;
        case PhoneRefused =>
          var moved := CompleteFrom(id, Pending, Completion(Failed, None, Some(InvalidPhone)), at);
          Later(catalog, policy, start, history, id);
          result := NumberRefused;
      }
    }

    /** A request that is sent again: same key and same request, same payment. */
    method Replay(id: PaymentId, requestHash: string, payable: bool, collected: Collected, at: Instant,
                  others: seq<Action>) returns (result: Initiated)
      requires Valid() && id in payments
      modifies this
      ensures Valid() && old(history) <= history && id in payments && Moves(old(payments)[id], payments[id])
      ensures result == KeyConflict <==> old(payments)[id].requestHash != requestHash
      ensures result.Initiated? || result.Replayed? ==> result.id == id
      ensures result.Replayed? ==> history == old(history)
      ensures result != UnknownOffer
      ensures ReplaysAs(catalog, policy, old(history), history, id, old(payments)[id], requestHash, payable, collected,
                        at, others, result)
    {
      var existing := payments[id];
      if existing.requestHash != requestHash {
        return KeyConflict;
      }
      if existing.status != Pending || existing.providerReference.Some? || !payable {
        return Replayed(id);
      }
      result := Collect(id, collected, at, others);
    }

    /** The key designates one payment. */
    lemma OnePerKey(id: PaymentId, user: UserId, key: string)
      requires Valid() && id in payments && IsKeyOf(payments[id], user, key)
      ensures forall i :: i in payments && IsKeyOf(payments[i], user, key) ==> i == id
    {
      RunKeeps(catalog, policy, history);
      forall i | i in payments && IsKeyOf(payments[i], user, key) ensures i == id {
        assert SameKey(payments[i], payments[id]);
      }
    }

    lemma NotPurchased(id: PaymentId)
      requires Valid() && id !in payments
      ensures FindPurchase(ledger.purchases, id).None?
    {
      RunKeeps(catalog, policy, history);
    }

    /**
     * One payment per key, at the price of the catalogue, recorded before the
     * provider is asked. `id` is the new identifier.
     */
    method Initiate(id: PaymentId, user: UserId, offerCode: string, key: string, requestHash: string,
                    provider: Provider, externalReference: string, payable: bool, collected: Collected, at: Instant,
                    others: (seq<Action>, seq<Action>))
      returns (result: Initiated)
      requires Valid() && id !in Run(catalog, policy, Snapshot(), others.0).payments
      modifies this
      ensures Valid() && old(history) <= history
      ensures result.Initiated? || result.Replayed? ==>
                && result.id in payments && IsKeyOf(payments[result.id], user, key)
                && payments[result.id].requestHash == requestHash
                && (forall i :: i in payments && IsKeyOf(payments[i], user, key) ==> i == result.id)
      ensures result == KeyConflict ==>
                exists i :: i in payments && IsKeyOf(payments[i], user, key) && payments[i].requestHash != requestHash
      ensures result == Initiated(id) ==>
                offerCode in catalog && payments[id].offerCode == offerCode
                && payments[id].amountXaf == catalog[offerCode].price
      ensures HasKey(old(payments), user, key) ==>
                exists i ::
                  && i in old(payments) && IsKeyOf(old(payments)[i], user, key)
                  && ReplaysAs(catalog, policy, old(history), history, i, old(payments)[i], requestHash, payable,
                               collected, at, others.1, result)
      ensures !HasKey(old(payments), user, key) ==>
                if offerCode !in catalog || !payable then history == old(history) && result == UnknownOffer
                else
                  var p := NewPending(user, offerCode, catalog[offerCode].price, key, requestHash, provider,
                                      externalReference, at);
                  InsertsAs(catalog, policy, old(history) + others.0, history, id, p, collected, at, others.1, result)
    {
      hide ReplaysAs, InsertsAs;
      var existing := FindByKey(user, key);
      if existing.Some? {
        RunMoves(catalog, policy, Snapshot(), others.0, existing.value);
        result := Replay(existing.value, requestHash, payable, collected, at, others.1);
        OnePerKey(existing.value, user, key);
        return;
      }
      if offerCode !in catalog || !payable {
        return UnknownOffer;
      }
      RunConcat(catalog, policy, EmptyDb, history, others.0);
      Others(others.0);
      NotPurchased(id);
      var p := NewPending(user, offerCode, catalog[offerCode].price, key, requestHash, provider, externalReference, at);
      result := InsertAndCollect(id, p, collected, at, others.1);
    }

    /** Of two identical requests at the same time, the first to insert decides. */
    method InsertAndCollect(id: PaymentId, p: Payment, collected: Collected, at: Instant, others: seq<Action>)
      returns (result: Initiated)
      requires Valid() && Sound(catalog, Snapshot(), Insert(id, p))
      modifies this
      ensures Valid() && old(history) <= history
      ensures result != UnknownOffer
      ensures result.Initiated? || result.Replayed? ==>
                && result.id in payments && IsKeyOf(payments[result.id], p.user, p.idempotencyKey)
                && payments[result.id].requestHash == p.requestHash
                && (forall i :: i in payments && IsKeyOf(payments[i], p.user, p.idempotencyKey) ==> i == result.id)
      ensures result == KeyConflict ==>
                exists i ::
                  && i in payments && IsKeyOf(payments[i], p.user, p.idempotencyKey)
                  && payments[i].requestHash != p.requestHash
      ensures result == Initiated(id) ==> id in payments && SamePayment(p, payments[id])
      ensures InsertsAs(catalog, policy, old(history), history, id, p, collected, at, others, result)
    {
      hide CollectsAs, Apply, Sound, Clashes;
      var inserted := InsertPayment(id, p);
      if inserted == Violated {
        return Failure;
      }
      if inserted == KeyHeld {
        assert exists i :: i in payments && SameKey(payments[i], p);
        var winner := FindByKey(p.user, p.idempotencyKey);
        OnePerKey(winner.value, p.user, p.idempotencyKey);
        return if payments[winner.value].requestHash == p.requestHash then Replayed(winner.value) else KeyConflict;
      }
      result := Collect(id, collected, at, others);
      OnePerKey(id, p.user, p.idempotencyKey);
    }
  }
}
