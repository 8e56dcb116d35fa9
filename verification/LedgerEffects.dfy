/**
 * What each billing transaction does, row by row and unit by unit, from the
 * request and the tables alone.
 */
module LedgerEffects {
  import opened Numbers
  import opened Wrappers
  import opened Allocation
  import opened Sums
  import opened UnitsLedger
  import opened LedgerInvariants

  // ---- prices and rests ----

  /** One unit for a character with a standard voice, four with a natural one. */
  function Price(chars: nat, tier: VoiceTier): nat {
    if tier == Standard then chars else chars + chars + chars + chars
  }

  /** What the month, the active pass and the wallet have left, from the rows that were charged to them. */
  datatype Rest = Rest(free: int, pass: int, credits: int)

  ghost function RestOf(t: Tables, policy: Policy, user: UserId, period: Period, now: Instant): Rest {
    var active := ActivePass(t.passes, user, now);
    Rest(policy.freeUnitsPerMonth - Sum(t.reservations, FreeShare(user, period)),
         if active.None? then 0
         else t.passes[active.value].included - Sum(t.reservations, PassShare(t.passes[active.value].id)),
         Sum(t.purchases, BoughtShare(user)) - Sum(t.reservations, CreditShare(user)))
  }

  /** What of it may pay for a voice: the free units of the month only for a standard one. */
  ghost function Covers(rest: Rest, tier: VoiceTier): int {
    (if tier == Standard then rest.free else 0) + rest.pass + rest.credits
  }

  /** The most perishable units first: free ones, then the pass, then credits. */
  ghost predicate IsDebit(taken: UnitsBySource, price: nat, rest: Rest, tier: VoiceTier) {
    && taken.free == (if tier == Standard then Min(price, rest.free) else 0)
    && taken.pass == Min(price - taken.free, rest.pass)
    && taken.credits == price - taken.free - taken.pass
    && taken.credits <= rest.credits
  }

  /** Given back in the opposite order: credits, then the pass, then free units. */
  ghost predicate IsGivenBack(back: UnitsBySource, taken: UnitsBySource, units: nat) {
    && back.credits == Min(units, taken.credits)
    && back.pass == Min(units - back.credits, taken.pass)
    && back.free == Min(units - back.credits - back.pass, taken.free)
  }

  // ---- what changes ----

  /** Counters and wallets hold the same, whether or not empty rows were added; the other tables are the same. */
  ghost predicate SameBalances(t: Tables, after: Tables) {
    && (forall u, p :: UsageOf(after, u, p) == UsageOf(t, u, p))
    && (forall u :: WalletOf(after, u) == WalletOf(t, u))
    && after.(usage := t.usage, wallets := t.wallets) == t
  }

  /** `given` units go back to the sources of a reservation (or come from them: `sign` is -1), and nowhere else. */
  ghost predicate Moved(t: Tables, after: Tables, row: Reservation, units: UnitsBySource, sign: int, kind: EntryKind) {
    && (forall u, p :: UsageOf(after, u, p)
                       == UsageOf(t, u, p) - (if u == row.user && p == row.period then sign * units.free else 0))
    && (forall u :: WalletOf(after, u) == WalletOf(t, u) + (if u == row.user then sign * units.credits else 0))
    && |after.passes| == |t.passes|
    && (forall i :: 0 <= i < |t.passes| ==>
          after.passes[i] == t.passes[i].(used :=
            t.passes[i].used - (if row.passId == Some(t.passes[i].id) then sign * units.pass else 0)))
    && after.purchases == t.purchases
    && after.journal == t.journal + (if units.credits == 0 then []
                                     else [Entry(row.user, kind, sign * units.credits, Some(row.id))])
  }

  // ---- reserving ----

  ghost predicate HasReservation(t: Tables, id: string) {
    exists i :: 0 <= i < |t.reservations| && t.reservations[i].id == id
  }

  /** The new reservation: what was asked, at its price, split over what is left. */
  ghost predicate IsReservationOf(row: Reservation, q: ReserveRequest, t: Tables, policy: Policy) {
    var active := ActivePass(t.passes, q.user, q.now);
    && row.id == q.id && row.user == q.user && row.period == q.period && row.tier == q.tier && row.chars == q.chars
    && row.refundedChars.None?
    && IsDebit(row.taken, Price(q.chars, q.tier), RestOf(t, policy, q.user, q.period, q.now), q.tier)
    && row.passId == (if row.taken.pass == 0 then None else Some(t.passes[active.value].id))
  }

  /** When each outcome is given, and with what numbers. */
  ghost predicate AnswersAsAsked(t: Tables, policy: Policy, q: ReserveRequest, outcome: ReserveOutcome) {
    var rest := RestOf(t, policy, q.user, q.period, q.now);
    && (outcome == LimitExceeded <==> q.chars > policy.maxCharsPerConversion)
    && (outcome.AlreadyReserved? <==> q.chars <= policy.maxCharsPerConversion && HasReservation(t, q.id))
    && (outcome.Reserved? <==>
          && q.chars <= policy.maxCharsPerConversion && !HasReservation(t, q.id)
          && Price(q.chars, q.tier) <= Covers(rest, q.tier))
    && (outcome.AlreadyReserved? ==> outcome.row in t.reservations && outcome.row.id == q.id)
    && (outcome.QuotaExceeded? ==>
          outcome.requested == Price(q.chars, q.tier) && outcome.usable == Covers(rest, q.tier))
    && (outcome.Reserved? ==> IsReservationOf(outcome.row, q, t, policy))
  }

  /** The outcome of a reservation and what it leaves in the tables. */
  ghost predicate ReservesAsAsked(t: Tables, policy: Policy, q: ReserveRequest, outcome: ReserveOutcome,
                                  after: Tables) {
    && AnswersAsAsked(t, policy, q, outcome)
    && (outcome.Reserved? ==>
          && after.reservations == t.reservations + [outcome.row]
          && Moved(t, after, outcome.row, outcome.row.taken, -1, Consumption))
    && (!outcome.Reserved? ==> SameBalances(t, after))
  }

  lemma AvailableIsRest(t: Tables, policy: Policy, user: UserId, period: Period, now: Instant)
    requires LedgerInv(t, policy)
    ensures var available, rest := Available(t, policy, user, period, now), RestOf(t, policy, user, period, now);
            available.free == rest.free && available.pass == rest.pass && available.credits == rest.credits
  {
    var active := ActivePass(t.passes, user, now);
    assert UsageOf(t, user, period) == Sum(t.reservations, FreeShare(user, period));
    assert 0 <= UsageOf(t, user, period) <= policy.freeUnitsPerMonth;
    assert WalletOf(t, user) >= 0;
    assert active.Some? ==> t.passes[active.value].used == Sum(t.reservations, PassShare(t.passes[active.value].id));
  }

  lemma TakenIsDebit(price: nat, tier: VoiceTier, available: UnitsBySource, rest: Rest)
    requires rest == Rest(available.free, available.pass, available.credits)
    requires price <= Covers(rest, tier)
    ensures IsDebit(Taken(price, tier, available), price, rest, tier)
  {
    FillOfThree(Usable(tier, available), price);
  }

  lemma LockKeepsBalances(t: Tables, user: UserId, period: Period)
    ensures SameBalances(t, LockRows(t, user, period))
  {
  }

  ghost predicate UniquePasses(passes: seq<PassRow>) {
    forall i, j :: 0 <= i < |passes| && 0 <= j < |passes| && passes[i].id == passes[j].id ==> i == j
  }

  lemma PassMoves(t: Tables, id: string, given: int)
    requires UniquePasses(t.passes)
    ensures var after := MovePass(t.passes, id, given);
            && |after| == |t.passes|
            && forall i :: 0 <= i < |t.passes| ==>
                 after[i] == t.passes[i].(used := t.passes[i].used - (if t.passes[i].id == id then given else 0))
  {
  }

  lemma MoveMoves(t: Tables, row: Reservation, units: UnitsBySource, sign: int)
    requires sign == 1 || sign == -1
    requires UniquePasses(t.passes)
    requires units.free > 0 ==> (row.user, row.period) in t.usage
    requires units.credits > 0 ==> row.user in t.wallets
    requires units.pass > 0 ==> row.passId.Some?
    ensures Moved(t, Move(t, row, units, sign), row, units, sign, if sign < 0 then Consumption else Refund)
  {
    if row.passId.Some? {
      PassMoves(t, row.passId.value, Signed(sign, units.pass));
    }
  }

  /** What moves in the locked tables moves in the ones before the locks. */
  lemma MovedFromLocked(t: Tables, locked: Tables, row: Reservation, after: Tables, units: UnitsBySource, sign: int,
                        kind: EntryKind)
    requires SameBalances(t, locked.(reservations := t.reservations)) && Moved(locked, after, row, units, sign, kind)
    ensures Moved(t, after, row, units, sign, kind)
  {
    assert forall u, p :: UsageOf(locked.(reservations := t.reservations), u, p) == UsageOf(locked, u, p);
    assert forall u :: WalletOf(locked.(reservations := t.reservations), u) == WalletOf(locked, u);
  }

  lemma ReservedIs(t: Tables, policy: Policy, q: ReserveRequest)
    requires LedgerInv(t, policy) && ReserveResult(t, policy, q).Reserved?
    ensures var row := ReserveResult(t, policy, q).row;
            && Price(q.chars, q.tier) <= Covers(RestOf(t, policy, q.user, q.period, q.now), q.tier)
            && IsReservationOf(row, q, t, policy)
  {
    hide LedgerInv, RestOf, Available, Taken, IsDebit;
    AvailableIsRest(t, policy, q.user, q.period, q.now);
    TakenIsDebit(Price(q.chars, q.tier), q.tier, Available(t, policy, q.user, q.period, q.now),
                 RestOf(t, policy, q.user, q.period, q.now));
    ReserveIsDebitable(t, policy, q);
  }

  lemma ReservedMoves(t: Tables, policy: Policy, q: ReserveRequest)
    requires LedgerInv(t, policy) && ReserveResult(t, policy, q).Reserved?
    ensures var row, after := ReserveResult(t, policy, q).row, AfterReserve(t, policy, q);
            after.reservations == t.reservations + [row] && Moved(t, after, row, row.taken, -1, Consumption)
  {
    assert UniquePasses(t.passes);
    hide LedgerInv, Moved, SameBalances, ReserveResult, UniquePasses;
    var row := ReserveResult(t, policy, q).row;
    var locked := LockRows(t, q.user, q.period);
    var wider := locked.(reservations := t.reservations + [row]);
    LockKeepsBalances(t, q.user, q.period);
    ReserveIsDebitable(t, policy, q);
    assert row.user == q.user && row.period == q.period by { RowIsAsked(t, policy, q); }
    MovedInWider(locked, row);
    assert wider.(reservations := t.reservations) == locked;
    MovedFromLocked(t, wider, row, AfterReserve(t, policy, q), row.taken, -1, Consumption);
  }

  lemma RowIsAsked(t: Tables, policy: Policy, q: ReserveRequest)
    requires ReserveResult(t, policy, q).Reserved?
    ensures ReserveResult(t, policy, q).row.user == q.user && ReserveResult(t, policy, q).row.period == q.period
  {
  }

  lemma MovedInWider(t: Tables, row: Reservation)
    requires UniquePasses(t.passes)
    requires (row.user, row.period) in t.usage && row.user in t.wallets
    requires row.taken.pass > 0 ==> row.passId.Some?
    ensures Moved(t.(reservations := t.reservations + [row]),
                  Move(t.(reservations := t.reservations + [row]), row, row.taken, -1), row, row.taken, -1, Consumption)
  {
    MoveMoves(t.(reservations := t.reservations + [row]), row, row.taken, -1);
  }

  /** Reserving does what was asked: granted exactly when what is left covers the price, and debited once. */
  lemma ReserveDoes(t: Tables, policy: Policy, q: ReserveRequest)
    requires LedgerInv(t, policy)
    ensures ReservesAsAsked(t, policy, q, ReserveResult(t, policy, q), AfterReserve(t, policy, q))
  {
    assert SameBalances(t, t);
    hide LedgerInv, Moved, Move, SameBalances, LockRows, AnswersAsAsked, Priced;
    LockKeepsBalances(t, q.user, q.period);
    ReserveAnswers(t, policy, q);
    if ReserveResult(t, policy, q).Reserved? {
      ReservedMoves(t, policy, q);
    }
  }

  lemma ReserveAnswers(t: Tables, policy: Policy, q: ReserveRequest)
    requires LedgerInv(t, policy)
    ensures AnswersAsAsked(t, policy, q, ReserveResult(t, policy, q))
  {
    hide LedgerInv, Available, RestOf, IsReservationOf, Covers, Taken;
    UsableIsCovered(t, policy, q);
    if ReserveResult(t, policy, q).Reserved? {
      ReservedIs(t, policy, q);
    }
  }

  lemma UsableIsCovered(t: Tables, policy: Policy, q: ReserveRequest)
    requires LedgerInv(t, policy)
    ensures Usable(q.tier, Available(t, policy, q.user, q.period, q.now)).Total()
            == Covers(RestOf(t, policy, q.user, q.period, q.now), q.tier)
  {
    hide LedgerInv, RestOf, Available;
    AvailableIsRest(t, policy, q.user, q.period, q.now);
  }

  // ---- refunding ----

  ghost predicate IsRefundable(t: Tables, id: string, i: nat) {
    i < |t.reservations| && t.reservations[i].id == id && t.reservations[i].refundedChars.None?
  }

  /**
   * A refund is given exactly when characters are given back of a reservation
   * that was never refunded: at most those reserved, at their price, in the
   * opposite order of the debit.
   */
  ghost predicate RefundsAsAsked(t: Tables, id: string, chars: int, given: bool, after: Tables) {
    && (given <==> chars > 0 && exists i :: IsRefundable(t, id, i))
    && (!given ==> after == t)
    && (given ==> exists i, back :: IsRefundable(t, id, i) && RefundsRow(t, i, chars, back, after))
  }

  ghost predicate RefundsRow(t: Tables, i: nat, chars: int, back: UnitsBySource, after: Tables)
    requires i < |t.reservations|
  {
    var row := t.reservations[i];
    var refunded := Min(if chars > 0 then chars else 0, row.chars);
    && after.reservations == t.reservations[i := row.(refundedChars := Some(refunded))]
    && IsGivenBack(back, row.taken, Price(refunded, row.tier))
    && Moved(t, after, row, back, 1, Refund)
  }

  lemma FindReservationIs(t: Tables, id: string, i: nat)
    requires UniqueRows(t) && i < |t.reservations| && t.reservations[i].id == id
    ensures FindReservation(t.reservations, id) == Some(i)
  {
  }

  lemma RefundedRow(t: Tables, policy: Policy, id: string, chars: int, i: nat)
    requires LedgerInv(t, policy) && chars > 0 && IsRefundable(t, id, i)
    ensures RefundTarget(t, id, chars) == Some(i)
    ensures var row := t.reservations[i];
            RefundsRow(t, i, chars, Refunded(row.taken, ForChars(Min(chars, row.chars), row.tier)),
                       AfterRefund(t, id, chars))
  {
    hide PassesBought, PeriodsOk, FreeConserved, WalletsConserved, PassesConserved;
    var row := t.reservations[i];
    var back := Min(chars, row.chars);
    FindReservationIs(t, id, i);
    assert RowOk(t, row);
    var refund := Refunded(row.taken, ForChars(back, row.tier));
    var written := t.(reservations := t.reservations[i := row.(refundedChars := Some(back))]);
    DrainOfThree(row.taken, ForChars(back, row.tier));
    assert UniquePasses(written.passes);
    assert row.taken.pass > 0 ==> row.passId.Some?;
    assert IsGivenBack(refund, row.taken, Price(back, row.tier));
    assert refund.free <= row.taken.free && refund.pass <= row.taken.pass && refund.credits <= row.taken.credits;
    hide LedgerInv, UniqueRows, Move, Moved, UniquePasses, RowOk, Refunded, IsGivenBack, PassesBought;
    MoveMoves(written, row, refund, 1);
    MovedOfWritten(t, written, AfterRefund(t, id, chars), row, refund);
  }

  lemma MovedOfWritten(t: Tables, written: Tables, after: Tables, row: Reservation, units: UnitsBySource)
    requires written.(reservations := t.reservations) == t && Moved(written, after, row, units, 1, Refund)
    ensures Moved(t, after, row, units, 1, Refund)
  {
    assert forall u, p :: UsageOf(written, u, p) == UsageOf(t, u, p);
    assert forall u :: WalletOf(written, u) == WalletOf(t, u);
  }

  lemma RefundDoes(t: Tables, policy: Policy, id: string, chars: int)
    requires LedgerInv(t, policy)
    ensures RefundsAsAsked(t, id, chars, RefundTarget(t, id, chars).Some?, AfterRefund(t, id, chars))
  {
    hide LedgerInv, RefundsRow, Move;
    assert RefundTarget(t, id, chars).Some? ==> IsRefundable(t, id, RefundTarget(t, id, chars).value);
    if chars > 0 && exists i :: IsRefundable(t, id, i) {
      var i :| IsRefundable(t, id, i);
      RefundedRow(t, policy, id, chars, i);
    }
  }

  // ---- granting ----

  /**
   * What an offer is worth: its own code, price and units; a pass from now on,
   * or from the end of the user's last one, for its number of days.
   */
  ghost predicate IsWorth(grant: PurchaseGrant, offer: Offer, now: Instant) {
    && grant.offerCode == offer.code && grant.price == offer.price && grant.units == offer.units
    && (grant.PassGrant? <==> offer.PassOffer?)
    && (grant.PassGrant? ==> now <= grant.startsAt && grant.endsAt - grant.startsAt == 86_400_000 * offer.durationDays)
  }

  /** No earlier than now and than the end of any pass of the user, and no later than that. */
  ghost predicate StartsNext(startsAt: Instant, passes: seq<PassRow>, user: UserId, now: Instant) {
    && now <= startsAt
    && (forall i :: 0 <= i < |passes| && passes[i].user == user ==> passes[i].endsAt <= startsAt)
    && (startsAt == now || exists i :: 0 <= i < |passes| && passes[i].user == user && passes[i].endsAt == startsAt)
  }

  ghost predicate IsPurchase(t: Tables, k: nat, reference: Reference, user: UserId, code: string) {
    k < |t.purchases| && t.purchases[k].reference == reference && t.purchases[k].user == user
    && t.purchases[k].grant.offerCode == code
  }

  ghost predicate HasPurchase(t: Tables, reference: Reference) {
    exists k :: 0 <= k < |t.purchases| && t.purchases[k].reference == reference
  }

  /** The purchase, and its units: a new pass that holds them all, or credits in the wallet and its journal. */
  ghost predicate Bought(t: Tables, after: Tables, q: GrantRequest, grant: PurchaseGrant) {
    && IsWorth(grant, q.offer, q.now)
    && after.purchases == t.purchases + [Purchase(q.reference, q.user, grant)]
    && after.reservations == t.reservations && after.usage == t.usage
    && (q.offer.PassOffer? ==>
          && StartsNext(grant.startsAt, t.passes, q.user, q.now)
          && after.passes == t.passes + [PassRow(q.passId, q.user, q.reference, q.offer.code, grant.startsAt,
                                                 grant.endsAt, q.offer.units, 0)]
          && after.journal == t.journal
          && forall u :: WalletOf(after, u) == WalletOf(t, u))
    && (q.offer.CreditsOffer? ==>
          && after.passes == t.passes
          && after.journal == t.journal + [Entry(q.user, EntryKind.Bought, q.offer.units, None)]
          && forall u :: WalletOf(after, u) == WalletOf(t, u) + (if u == q.user then q.offer.units else 0))
  }

  /** Granted exactly when the reference is new; the same request again gets its own grant back. */
  ghost predicate GrantsAsAsked(t: Tables, q: GrantRequest, outcome: GrantOutcome, after: Tables) {
    && (outcome.Granted? <==> !HasPurchase(t, q.reference))
    && (outcome.Granted? ==> Bought(t, after, q, outcome.grant))
    && (outcome.AlreadyGranted? ==>
          exists k: nat :: IsPurchase(t, k, q.reference, q.user, q.offer.code) && t.purchases[k].grant == outcome.grant)
    && (outcome == ReferenceConflict ==> forall k: nat :: !IsPurchase(t, k, q.reference, q.user, q.offer.code))
    && (!outcome.Granted? ==> SameBalances(t, after))
  }

  lemma GrantIsWorth(offer: Offer, now: Instant, latest: Option<Instant>)
    ensures IsWorth(GrantFor(offer, now, latest), offer, now)
  {
  }

  lemma GrantBuys(t: Tables, q: GrantRequest)
    requires GrantResult(t, q).Granted? && q.offer.units > 0
    ensures Bought(t, AfterGrant(t, q), q, GrantResult(t, q).grant)
  {
    GrantIsWorth(q.offer, q.now, LatestPassEnd(t.passes, q.user));
    var after := AfterGrant(t, q);
    assert forall u :: WalletOf(LockWallet(t, q.user), u) == WalletOf(t, u);
  }

  lemma GrantDoes(t: Tables, q: GrantRequest)
    requires UniqueRows(t) && q.offer.units > 0
    ensures GrantsAsAsked(t, q, GrantResult(t, q), AfterGrant(t, q))
  {
    assert SameBalances(t, t);
    hide Bought, SameBalances;
    var found := FindPurchase(t.purchases, q.reference);
    if found.None? {
      GrantBuys(t, q);
    } else {
      forall k: nat | IsPurchase(t, k, q.reference, q.user, q.offer.code) ensures k == found.value {
      }
      if GrantResult(t, q).AlreadyGranted? {
        assert IsPurchase(t, found.value, q.reference, q.user, q.offer.code);
      }
    }
  }
}
