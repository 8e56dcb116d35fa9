/**
 * The class that carries out the billing transactions on the tables, and the
 * runs of them.
 */
module BillingLedger {
  import opened Numbers
  import opened Wrappers
  import opened Allocation
  import opened Sums
  import opened UnitsLedger
  import opened LedgerInvariants
  import opened LedgerEffects

  // ---- runs ----

  datatype Action =
    | ReserveAction(reserve: ReserveRequest)
    | RefundAction(id: string, chars: int)
    | GrantAction(grant: GrantRequest)

  /** New passes get a fresh identifier and offers meet the constraints of the catalogue. */
  predicate Grantable(t: Tables, q: GrantRequest) {
    q.offer.Valid() && FindPass(t.passes, q.passId).None?
  }

  function Apply(t: Tables, policy: Policy, a: Action): Tables {
    match a
    case ReserveAction(q) => AfterReserve(t, policy, q)
    case RefundAction(id, chars) => AfterRefund(t, id, chars)
    case GrantAction(q) => if Grantable(t, q) then AfterGrant(t, q) else t
  }

  function Run(t: Tables, policy: Policy, actions: seq<Action>): Tables {
    if actions == [] then t else Apply(Run(t, policy, actions[..|actions| - 1]), policy, actions[|actions| - 1])
  }

  lemma ApplyKeepsInv(t: Tables, policy: Policy, a: Action)
    requires LedgerInv(t, policy)
    ensures LedgerInv(Apply(t, policy, a), policy)
  {
    match a
    case ReserveAction(q) => ReserveKeepsInv(t, policy, q);
    case RefundAction(id, chars) => RefundKeepsInv(t, policy, id, chars);
    case GrantAction(q) => if Grantable(t, q) { GrantKeepsInv(t, policy, q); }
  }

  lemma {:induction false} RunKeepsInv(t: Tables, policy: Policy, actions: seq<Action>)
    requires LedgerInv(t, policy)
    ensures LedgerInv(Run(t, policy, actions), policy)
  {
    if actions != [] {
      RunKeepsInv(t, policy, actions[..|actions| - 1]);
      ApplyKeepsInv(Run(t, policy, actions[..|actions| - 1]), policy, actions[|actions| - 1]);
    }
  }

  /** Conservation over every run from empty tables. */
  lemma EveryRunConserves(policy: Policy, actions: seq<Action>)
    ensures var t := Run(NoRows, policy, actions);
            && FreeConserved(t, policy) && PassesConserved(t) && WalletsConserved(t)
  {
    EmptyInv(policy);
    RunKeepsInv(NoRows, policy, actions);
  }

  /** Over every run, whatever the clock does, one user has at most one active pass at any instant. */
  lemma AtMostOneActivePass(policy: Policy, actions: seq<Action>, at: Instant, i: nat, j: nat)
    requires var t := Run(NoRows, policy, actions);
             && i < |t.passes| && j < |t.passes| && t.passes[i].user == t.passes[j].user
             && t.passes[i].ActiveAt(at) && t.passes[j].ActiveAt(at)
    ensures i == j
  {
    EmptyInv(policy);
    RunKeepsInv(NoRows, policy, actions);
    var t := Run(NoRows, policy, actions);
    assert i < j ==> Disjoint(t.passes[i], t.passes[j]);
    assert j < i ==> Disjoint(t.passes[j], t.passes[i]);
  }

  /**
   * A pass bought while another one is active starts exactly where one of the
   * user's passes ends, after every pass the user already has.
   */
  lemma ChainedPass(t: Tables, q: GrantRequest, i: nat)
    requires FindPurchase(t.purchases, q.reference).None? && q.offer.PassOffer?
    requires i < |t.passes| && t.passes[i].user == q.user && t.passes[i].ActiveAt(q.now)
    ensures var after := AfterGrant(t, q).passes;
            && |after| == |t.passes| + 1
            && after[|t.passes|].user == q.user
            && (exists k ::
                  && 0 <= k < |t.passes| && t.passes[k].user == q.user
                  && t.passes[k].endsAt == after[|t.passes|].startsAt)
            && (forall k :: 0 <= k < |t.passes| && t.passes[k].user == q.user ==>
                t.passes[k].endsAt <= after[|t.passes|].startsAt)
  {
  }

  lemma {:induction false} PurchasesOnlyGrow(t: Tables, policy: Policy, actions: seq<Action>)
    ensures t.purchases <= Run(t, policy, actions).purchases
  {
    if actions != [] {
      PurchasesOnlyGrow(t, policy, actions[..|actions| - 1]);
      var before := Run(t, policy, actions[..|actions| - 1]);
      assert before.purchases <= Apply(before, policy, actions[|actions| - 1]).purchases;
    }
  }

  lemma PurchaseIsFound(t: Tables, k: nat)
    requires UniqueRows(t) && k < |t.purchases|
    ensures FindPurchase(t.purchases, t.purchases[k].reference) == Some(k)
  {
  }

  lemma InvIsUnique(t: Tables, policy: Policy)
    requires LedgerInv(t, policy)
    ensures UniqueRows(t)
  {
  }

  lemma GrantsTheOffer(t: Tables, q: GrantRequest)
    requires GrantResult(t, q).Granted?
    ensures GrantResult(t, q).grant.offerCode == q.offer.code
  {
  }

  /**
   * Replaying a payment reference adds nothing, however much happened since:
   * the same request gets the original grant back, and no table changes.
   */
  lemma ReplayAddsNothing(t: Tables, policy: Policy, q: GrantRequest, since: seq<Action>, q2: GrantRequest)
    requires LedgerInv(t, policy) && Grantable(t, q) && GrantResult(t, q).Granted?
    requires q2.reference == q.reference
    ensures var later := Run(AfterGrant(t, q), policy, since);
            && AfterGrant(later, q2) == later
            && GrantResult(later, q2) == (if q2.user == q.user && q2.offer.code == q.offer.code
                                          then AlreadyGranted(GrantResult(t, q).grant) else ReferenceConflict)
  {
    hide LedgerInv, AfterReserve, AfterRefund, LatestPassEnd;
    var granted := AfterGrant(t, q);
    GrantKeepsInv(t, policy, q);
    RunKeepsInv(granted, policy, since);
    PurchasesOnlyGrow(granted, policy, since);
    assert granted.purchases[|t.purchases|] == Purchase(q.reference, q.user, GrantResult(t, q).grant);
    assert UniqueRows(Run(granted, policy, since)) by { InvIsUnique(Run(granted, policy, since), policy); }
    PurchaseIsFound(Run(granted, policy, since), |t.purchases|);
    GrantsTheOffer(t, q);
  }

  // ---- the tables in place ----

  /** The clamps of `ApplyToSources` would leave the counters as they are. */
  ghost predicate ClampsIdle(t: Tables, row: Reservation, units: UnitsBySource, sign: int) {
    && Signed(sign, units.free) <= UsageOf(t, row.user, row.period)
    && (row.passId.Some? && FindPass(t.passes, row.passId.value).Some? ==>
          Signed(sign, units.pass) <= t.passes[FindPass(t.passes, row.passId.value).value].used)
  }

  lemma DebitClampsIdle(t: Tables, policy: Policy, row: Reservation)
    requires LedgerInv(t, policy)
    ensures ClampsIdle(t, row, row.taken, -1)
    ensures ClampsIdle(t.(reservations := t.reservations + [row]), row, row.taken, -1)
  {
    assert UsageOf(t, row.user, row.period) >= 0;
  }

  /** A refund never takes a counter below zero: what it gives back is part of what was counted. */
  lemma RefundClampsIdle(t: Tables, policy: Policy, i: nat, chars: nat)
    requires LedgerInv(t, policy) && Refundable(t, i, chars)
    ensures ClampsIdle(t, t.reservations[i],
                       Refunded(t.reservations[i].taken, ForChars(chars, t.reservations[i].tier)), 1)
  {
    var row := t.reservations[i];
    assert RowOk(t, row);
    assert UsageOf(t, row.user, row.period) == Sum(t.reservations, FreeShare(row.user, row.period));
    SumNonNegative(t.reservations, FreeShare(row.user, row.period));
    assert row in t.reservations;
    if row.passId.Some? && FindPass(t.passes, row.passId.value).Some? {
      SumNonNegative(t.reservations, PassShare(row.passId.value));
    }
  }

  /** What the code leaves when the grant is refused holds the same balances. */
  lemma GrantDoesHere(t: Tables, policy: Policy, q: GrantRequest)
    requires LedgerInv(t, policy) && q.offer.Valid()
    ensures GrantsAsAsked(t, q, GrantResult(t, q), AfterGrant(t, q))
    ensures !GrantResult(t, q).Granted? ==> GrantsAsAsked(t, q, GrantResult(t, q), LockWallet(t, q.user))
  {
    GrantDoes(t, q);
  }

  class BillingTables {
    const policy: Policy
    var usage: map<(UserId, Period), int>
    var passes: seq<PassRow>
    var wallets: map<UserId, int>
    var reservations: seq<Reservation>
    var purchases: seq<Purchase>
    var journal: seq<Entry>

    function Rows(): Tables
      reads this
    {
      Tables(usage, passes, wallets, reservations, purchases, journal)
    }

    ghost predicate Valid()
      reads this
    {
      LedgerInv(Rows(), policy)
    }

    constructor (policy: Policy)
      ensures Valid() && this.policy == policy && Rows() == NoRows
    {
      this.policy := policy;
      usage, passes, wallets, reservations, purchases, journal := map[], [], map[], [], [], [];
      new;
      EmptyInv(policy);
    }

    method LockBalances(user: UserId, period: Period, at: Instant)
      returns (freeUsed: int, activePass: Option<(string, nat)>, credits: int)
      modifies this`usage, this`wallets
      ensures Rows() == LockRows(old(Rows()), user, period)
      ensures freeUsed == UsageOf(old(Rows()), user, period) && credits == WalletOf(old(Rows()), user)
      ensures activePass.None? <==> ActivePass(passes, user, at).None?
      ensures activePass.Some? ==>
                var row := passes[ActivePass(passes, user, at).value];
                activePass.value == (row.id, Positive(row.included - row.used))
    {
      if (user, period) !in usage {
        usage := usage[(user, period) := 0];
      }
      freeUsed := usage[(user, period)];
      var found := ActivePass(passes, user, at);
      activePass := None;
      if found.Some? {
        var row := passes[found.value];
        activePass := Some((row.id, Positive(row.included - row.used)));
      }
      if user !in wallets {
        wallets := wallets[user := 0];
      }
      credits := wallets[user];
    }

    method ApplyToSources(row: Reservation, units: UnitsBySource, sign: int)
      requires sign == 1 || sign == -1
      requires ClampsIdle(Rows(), row, units, sign)
      modifies this`usage, this`passes, this`wallets, this`journal
      ensures Rows() == Move(old(Rows()), row, units, sign)
    {
      if units.free > 0 {
        var key := (row.user, row.period);
        if key in usage {
          usage := usage[key := Positive(usage[key] - Signed(sign, units.free))];
        }
      }
      if units.pass > 0 && row.passId.Some? {
        var found := FindPass(passes, row.passId.value);
        if found.Some? {
          var p := passes[found.value];
          passes := passes[found.value := p.(used := Positive(p.used - Signed(sign, units.pass)))];
        }
      }
      if units.credits > 0 {
        if row.user in wallets {
          wallets := wallets[row.user := wallets[row.user] + Signed(sign, units.credits)];
        }
        var kind := if sign < 0 then Consumption else Refund;
        journal := journal + [Entry(row.user, kind, Signed(sign, units.credits), Some(row.id))];
      }
    }

    method RecordReservation(row: Reservation)
      requires ClampsIdle(Rows(), row, row.taken, -1)
      modifies this`usage, this`passes, this`wallets, this`journal, this`reservations
      ensures Rows() == WithDebit(old(Rows()), row)
    {
      reservations := reservations + [row];
      ApplyToSources(row, row.taken, -1);
    }

    /** Locks the balances and splits the price over them. */
    method Price(q: ReserveRequest) returns (outcome: ReserveOutcome)
      modifies this`usage, this`wallets
      ensures Rows() == LockRows(old(Rows()), q.user, q.period)
      ensures outcome == Priced(old(Rows()), policy, q)
    {
      var freeUsed, activePass, credits := LockBalances(q.user, q.period, q.now);
      var available := UnitsBySource(
        Positive(policy.freeUnitsPerMonth - freeUsed),
        if activePass.Some? then activePass.value.1 else 0,
        Positive(credits));
      assert available == Available(old(Rows()), policy, q.user, q.period, q.now);
      var allocation := Allocate(ForChars(q.chars, q.tier), q.tier, available);
      if allocation.Err? {
        return QuotaExceeded(allocation.error.requested, allocation.error.usable);
      }
      var passId := if allocation.value.pass > 0 && activePass.Some? then Some(activePass.value.0) else None;
      outcome := Reserved(Reservation(q.id, q.user, q.period, q.tier, q.chars, passId, allocation.value, None));
    }

    /** One transaction: all or nothing, once per reservation identifier. */
    method Reserve(q: ReserveRequest) returns (outcome: ReserveOutcome)
      requires Valid()
      modifies this
      ensures Valid()
      ensures outcome == ReserveResult(old(Rows()), policy, q)
      ensures Rows() == AfterReserve(old(Rows()), policy, q)
      ensures ReservesAsAsked(old(Rows()), policy, q, outcome, Rows())
    {
      hide ReservesAsAsked, LedgerInv;
      ghost var before := Rows();
      ReserveKeepsInv(before, policy, q);
      ReserveDoes(before, policy, q);
      if q.chars > policy.maxCharsPerConversion {
        return LimitExceeded;
      }
      var existing := FindReservation(reservations, q.id);
      if existing.Some? {
        return AlreadyReserved(reservations[existing.value]);
      }
      outcome := Price(q);
      if outcome.Reserved? {
        LockRowsInv(before, policy, q.user, q.period);
        DebitClampsIdle(Rows(), policy, outcome.row);
        RecordReservation(outcome.row);
      }
    }

    /** One transaction: at most one refund per reservation. */
    method RefundReservation(id: string, chars: int) returns (given: bool)
      requires Valid()
      modifies this
      ensures Valid()
      ensures given <==> RefundTarget(old(Rows()), id, chars).Some?
      ensures Rows() == AfterRefund(old(Rows()), id, chars)
      ensures RefundsAsAsked(old(Rows()), id, chars, given, Rows())
    {
      hide LedgerInv, RefundsAsAsked, Move;
      RefundKeepsInv(Rows(), policy, id, chars);
      RefundDoes(Rows(), policy, id, chars);
      if chars <= 0 {
        return false;
      }
      var found := FindReservation(reservations, id);
      if found.None? || reservations[found.value].refundedChars.Some? {
        return false;
      }
      var row := reservations[found.value];
      var refundedChars := Min(chars, row.chars);
      var refund := SplitRefund(row.taken, ForChars(refundedChars, row.tier));
      RefundClampsIdle(Rows(), policy, found.value, refundedChars);
      reservations := reservations[found.value := row.(refundedChars := Some(refundedChars))];
      ApplyToSources(row, refund, 1);
      given := true;
    }

    method LockForPurchase(user: UserId) returns (latest: Option<Instant>)
      modifies this`wallets
      ensures Rows() == LockWallet(old(Rows()), user)
      ensures latest == LatestPassEnd(passes, user)
    {
      if user !in wallets {
        wallets := wallets[user := 0];
      }
      latest := LatestPassEnd(passes, user);
    }

    /** `false` when the reference is already there: nothing else is written. */
    method RecordPurchase(q: GrantRequest, grant: PurchaseGrant) returns (recorded: bool)
      requires grant.units > 0
      modifies this`purchases, this`passes, this`wallets, this`journal
      ensures recorded <==> FindPurchase(old(purchases), q.reference).None?
      ensures Rows() == if recorded then Record(old(Rows()), q, grant) else old(Rows())
    {
      if FindPurchase(purchases, q.reference).Some? {
        return false;
      }
      purchases := purchases + [Purchase(q.reference, q.user, grant)];
      match grant {
        case PassGrant(code, _, units, startsAt, endsAt) =>
          passes := passes + [PassRow(q.passId, q.user, q.reference, code, startsAt, endsAt, units, 0)];
        case CreditsGrant(_, _, units) =>
          if q.user in wallets {
            wallets := wallets[q.user := wallets[q.user] + units];
          }
          journal := journal + [Entry(q.user, Bought, units, None)];
      }
      recorded := true;
    }

    /** What other transactions commit between two statements of this one. */
    method Others(actions: seq<Action>)
      requires Valid()
      modifies this
      ensures Valid() && Rows() == Run(old(Rows()), policy, actions)
    {
      RunKeepsInv(Rows(), policy, actions);
      var rows := Run(Rows(), policy, actions);
      usage, passes, wallets := rows.usage, rows.passes, rows.wallets;
      reservations, purchases, journal := rows.reservations, rows.purchases, rows.journal;
    }

    /**
     * Grants a paid offer once per payment reference. The reference is looked up
     * first; `meanwhile` is whatever other transactions commit before the locks
     * are taken, a grant of the same reference included.
     */
    method GrantOffer(q: GrantRequest, meanwhile: seq<Action>) returns (outcome: GrantOutcome)
      requires Valid() && q.offer.Valid()
      requires Grantable(Run(Rows(), policy, meanwhile), q)
      modifies this
      ensures Valid()
      ensures FindPurchase(old(purchases), q.reference).Some? ==>
                outcome == GrantResult(old(Rows()), q) && Rows() == old(Rows())
                && GrantsAsAsked(old(Rows()), q, outcome, Rows())
      ensures FindPurchase(old(purchases), q.reference).None? ==>
                var mid := Run(old(Rows()), policy, meanwhile);
                && outcome == GrantResult(mid, q)
                && (outcome.Granted? ==> Rows() == AfterGrant(mid, q))
                && (!outcome.Granted? ==> Rows() == LockWallet(mid, q.user))
                && GrantsAsAsked(mid, q, outcome, Rows())
    {
      hide LedgerInv, GrantsAsAsked;
      GrantDoesHere(Rows(), policy, q);
      var existing := FindPurchase(purchases, q.reference);
      if existing.Some? {
        return Replayed(purchases[existing.value], q);
      }
      Others(meanwhile);
      ghost var mid := Rows();
      GrantKeepsInv(mid, policy, q);
      LockWalletInv(mid, policy, q.user);
      GrantDoesHere(mid, policy, q);
      var latest := LockForPurchase(q.user);
      var grant := GrantFor(q.offer, q.now, latest);
      var recorded := RecordPurchase(q, grant);
      if recorded {
        return Granted(grant);
      }
      var winner := FindPurchase(purchases, q.reference);
      outcome := Replayed(purchases[winner.value], q);
    }
  }
}
