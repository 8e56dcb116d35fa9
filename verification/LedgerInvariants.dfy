/** Every billing transaction keeps the ledger invariant, and so does every run of them. */
module LedgerInvariants {
  import opened Numbers
  import opened Wrappers
  import opened Allocation
  import opened Sums
  import opened UnitsLedger

  // ---- one row more, debited ----

  function WithDebit(t: Tables, row: Reservation): Tables {
    Move(t.(reservations := t.reservations + [row]), row, row.taken, -1)
  }

  /** What `Reserve` knows about the row it is about to write. */
  ghost predicate Debitable(t: Tables, policy: Policy, row: Reservation) {
    && row.refundedChars.None?
    && row.taken.Total() == ForChars(row.chars, row.tier)
    && (row.tier != Standard ==> row.taken.free == 0)
    && (row.user, row.period) in t.usage
    && row.user in t.wallets
    && (row.taken.free > 0 ==> UsageOf(t, row.user, row.period) + row.taken.free <= policy.freeUnitsPerMonth)
    && row.taken.credits <= WalletOf(t, row.user)
    && (row.taken.pass > 0 <==> row.passId.Some?)
    && (row.passId.Some? ==> PassCovers(t, row))
    && (forall i :: 0 <= i < |t.reservations| ==> t.reservations[i].id != row.id)
  }

  ghost predicate PassCovers(t: Tables, row: Reservation)
    requires row.passId.Some?
  {
    exists i :: 0 <= i < |t.passes| && t.passes[i].id == row.passId.value && t.passes[i].user == row.user
                && t.passes[i].used + row.taken.pass <= t.passes[i].included
  }

  lemma FindPassUnique(t: Tables, id: string, i: nat)
    requires UniqueRows(t) && i < |t.passes| && t.passes[i].id == id
    ensures FindPass(t.passes, id) == Some(i)
  {
  }

  lemma DebitKeepsFree(t: Tables, policy: Policy, row: Reservation)
    requires FreeConserved(t, policy) && Debitable(t, policy, row)
    ensures FreeConserved(WithDebit(t, row), policy)
  {
    var after := WithDebit(t, row);
    forall u, p ensures && UsageOf(after, u, p) == Sum(after.reservations, FreeShare(u, p))
                        && 0 <= UsageOf(after, u, p) <= policy.freeUnitsPerMonth {
      SumAppend(t.reservations, row, FreeShare(u, p));
      assert UsageOf(t, u, p) == Sum(t.reservations, FreeShare(u, p));
    }
  }

  lemma DebitKeepsPasses(t: Tables, policy: Policy, row: Reservation)
    requires PassesConserved(t) && UniqueRows(t) && Debitable(t, policy, row)
    ensures PassesConserved(WithDebit(t, row))
  {
    var after := WithDebit(t, row);
    if row.passId.Some? {
      var i :| 0 <= i < |t.passes| && t.passes[i].id == row.passId.value
               && t.passes[i].used + row.taken.pass <= t.passes[i].included;
      FindPassUnique(t, row.passId.value, i);
    }
    forall k | 0 <= k < |after.passes|
      ensures after.passes[k].used == Sum(after.reservations, PassShare(after.passes[k].id))
      ensures 0 <= after.passes[k].used <= after.passes[k].included
    {
      assert after.passes[k].id == t.passes[k].id;
      SumAppend(t.reservations, row, PassShare(t.passes[k].id));
      if row.passId == Some(t.passes[k].id) {
        FindPassUnique(t, row.passId.value, k);
      }
    }
  }

  lemma DebitKeepsWallets(t: Tables, policy: Policy, row: Reservation)
    requires WalletsConserved(t) && Debitable(t, policy, row)
    ensures WalletsConserved(WithDebit(t, row))
  {
    var after := WithDebit(t, row);
    forall u ensures && WalletOf(after, u) == Sum(after.journal, EntryShare(u))
                     && WalletOf(after, u)
                       == Sum(after.purchases, BoughtShare(u)) - Sum(after.reservations, CreditShare(u))
                     && WalletOf(after, u) >= 0 {
      SumAppend(t.reservations, row, CreditShare(u));
      SumAppend(t.journal, Entry(row.user, Consumption, -(row.taken.credits as int), Some(row.id)), EntryShare(u));
      assert WalletOf(t, u) == Sum(t.journal, EntryShare(u));
    }
  }

  lemma MovedPasses(rows: seq<PassRow>, id: string, given: int)
    ensures var after := MovePass(rows, id, given);
            && |after| == |rows|
            && forall i :: 0 <= i < |rows| ==> after[i] == rows[i].(used := after[i].used)
  {
  }

  /** Same passes up to what they have used: periods, owners and identities are untouched. */
  lemma PassesKeep(t: Tables, after: Tables)
    requires UniqueRows(t) && PeriodsOk(t)
    requires |after.passes| == |t.passes|
    requires forall i :: 0 <= i < |t.passes| ==> after.passes[i] == t.passes[i].(used := after.passes[i].used)
    ensures PeriodsOk(after)
    ensures forall i, j ::
              0 <= i < |after.passes| && 0 <= j < |after.passes| && after.passes[i].id == after.passes[j].id ==> i == j
  {
    forall i, j | 0 <= i < j < |after.passes| && after.passes[i].user == after.passes[j].user
      ensures Disjoint(after.passes[i], after.passes[j])
    {
      assert Disjoint(t.passes[i], t.passes[j]);
    }
  }

  /** A row that was fine stays fine when tables only grow and passes keep their identity. */
  lemma RowStaysOk(t: Tables, after: Tables, r: Reservation)
    requires RowOk(t, r)
    requires t.usage.Keys <= after.usage.Keys && t.wallets.Keys <= after.wallets.Keys
    requires |t.passes| <= |after.passes|
    requires forall i :: 0 <= i < |t.passes| ==>
               after.passes[i].id == t.passes[i].id && after.passes[i].user == t.passes[i].user
    ensures RowOk(after, r)
  {
    if r.passId.Some? {
      var i :| 0 <= i < |t.passes| && t.passes[i].id == r.passId.value && t.passes[i].user == r.user;
      assert after.passes[i].id == r.passId.value;
    }
  }

  lemma DebitKeepsRows(t: Tables, policy: Policy, row: Reservation)
    requires RowsOk(t) && UniqueRows(t) && PeriodsOk(t) && Debitable(t, policy, row)
    ensures RowsOk(WithDebit(t, row)) && UniqueRows(WithDebit(t, row)) && PeriodsOk(WithDebit(t, row))
  {
    var after := WithDebit(t, row);
    if row.passId.Some? {
      MovedPasses(t.passes, row.passId.value, -(row.taken.pass as int));
    }
    PassesKeep(t, after);
    forall k | 0 <= k < |after.reservations| ensures RowOk(after, after.reservations[k]) {
      if k < |t.reservations| {
        RowStaysOk(t, after, t.reservations[k]);
      } else if row.passId.Some? {
        var i :| 0 <= i < |t.passes| && t.passes[i].id == row.passId.value && t.passes[i].user == row.user;
        assert after.passes[i].id == row.passId.value;
      }
    }
  }

  lemma DebitKeepsBought(t: Tables, row: Reservation)
    requires PassesBought(t)
    ensures PassesBought(WithDebit(t, row))
  {
    hide PassesBought;
    if row.passId.Some? {
      MovedPasses(t.passes, row.passId.value, Signed(-1, row.taken.pass));
    }
    PassesStayBought(t, WithDebit(t, row));
  }

  lemma DebitKeepsInv(t: Tables, policy: Policy, row: Reservation)
    requires LedgerInv(t, policy) && Debitable(t, policy, row)
    ensures LedgerInv(WithDebit(t, row), policy)
  {
    DebitKeepsFree(t, policy, row);
    DebitKeepsPasses(t, policy, row);
    DebitKeepsWallets(t, policy, row);
    DebitKeepsRows(t, policy, row);
    DebitKeepsBought(t, row);
  }

  lemma ReserveIsDebitable(t: Tables, policy: Policy, q: ReserveRequest)
    requires LedgerInv(t, policy) && ReserveResult(t, policy, q).Reserved?
    ensures Debitable(LockRows(t, q.user, q.period), policy, ReserveResult(t, policy, q).row)
  {
    var available := Available(t, policy, q.user, q.period, q.now);
    TakenWithin(ForChars(q.chars, q.tier), q.tier, available);
    var row := ReserveResult(t, policy, q).row;
    assert WalletOf(t, q.user) >= 0;
    if row.taken.pass > 0 {
      var active := ActivePass(t.passes, q.user, q.now);
      assert t.passes[active.value].used + row.taken.pass <= t.passes[active.value].included;
    }
  }

  /** A reservation, granted or refused, keeps the invariant. */
  lemma ReserveKeepsInv(t: Tables, policy: Policy, q: ReserveRequest)
    requires LedgerInv(t, policy)
    ensures LedgerInv(AfterReserve(t, policy, q), policy)
  {
    LockRowsInv(t, policy, q.user, q.period);
    if ReserveResult(t, policy, q).Reserved? {
      ReserveIsDebitable(t, policy, q);
      DebitKeepsInv(LockRows(t, q.user, q.period), policy, ReserveResult(t, policy, q).row);
    }
  }

  // ---- one row refunded ----

  function WithRefund(t: Tables, i: nat, chars: nat): Tables
    requires i < |t.reservations| && chars <= t.reservations[i].chars
  {
    var row := t.reservations[i];
    Move(t.(reservations := t.reservations[i := row.(refundedChars := Some(chars))]),
         row, Refunded(row.taken, ForChars(chars, row.tier)), 1)
  }

  ghost predicate Refundable(t: Tables, i: nat, chars: nat) {
    i < |t.reservations| && t.reservations[i].refundedChars.None? && chars <= t.reservations[i].chars
  }

  lemma RefundKeepsFree(t: Tables, policy: Policy, i: nat, chars: nat)
    requires FreeConserved(t, policy) && RowsOk(t) && Refundable(t, i, chars)
    ensures FreeConserved(WithRefund(t, i, chars), policy)
  {
    var after := WithRefund(t, i, chars);
    var row := t.reservations[i];
    assert RowOk(t, row);
    forall u, p ensures && UsageOf(after, u, p) == Sum(after.reservations, FreeShare(u, p))
                        && 0 <= UsageOf(after, u, p) <= policy.freeUnitsPerMonth {
      assert UsageOf(t, u, p) == Sum(t.reservations, FreeShare(u, p));
      SumUpdate(t.reservations, i, after.reservations[i], FreeShare(u, p));
      SumNonNegative(after.reservations, FreeShare(u, p));
    }
  }

  lemma RefundKeepsPasses(t: Tables, i: nat, chars: nat)
    requires PassesConserved(t) && RowsOk(t) && UniqueRows(t) && Refundable(t, i, chars)
    ensures PassesConserved(WithRefund(t, i, chars))
  {
    var after := WithRefund(t, i, chars);
    var row := t.reservations[i];
    assert RowOk(t, row);
    forall k | 0 <= k < |after.passes|
      ensures after.passes[k].used == Sum(after.reservations, PassShare(after.passes[k].id))
      ensures 0 <= after.passes[k].used <= after.passes[k].included
    {
      assert after.passes[k].id == t.passes[k].id;
      SumUpdate(t.reservations, i, after.reservations[i], PassShare(t.passes[k].id));
      SumNonNegative(after.reservations, PassShare(t.passes[k].id));
      if row.passId == Some(t.passes[k].id) {
        FindPassUnique(t, row.passId.value, k);
      }
    }
  }

  lemma RefundKeepsWallets(t: Tables, i: nat, chars: nat)
    requires WalletsConserved(t) && RowsOk(t) && Refundable(t, i, chars)
    ensures WalletsConserved(WithRefund(t, i, chars))
  {
    var after := WithRefund(t, i, chars);
    var row := t.reservations[i];
    var credits := Refunded(row.taken, ForChars(chars, row.tier)).credits;
    assert RowOk(t, row);
    forall u ensures && WalletOf(after, u) == Sum(after.journal, EntryShare(u))
                     && WalletOf(after, u)
                       == Sum(after.purchases, BoughtShare(u)) - Sum(after.reservations, CreditShare(u))
                     && WalletOf(after, u) >= 0 {
      assert WalletOf(t, u) == Sum(t.journal, EntryShare(u));
      SumUpdate(t.reservations, i, after.reservations[i], CreditShare(u));
      SumAppend(t.journal, Entry(row.user, Refund, credits, Some(row.id)), EntryShare(u));
    }
  }

  lemma RefundMovesPasses(t: Tables, i: nat, chars: nat)
    requires Refundable(t, i, chars)
    ensures var after := WithRefund(t, i, chars);
            && |after.passes| == |t.passes|
            && forall k :: 0 <= k < |t.passes| ==> after.passes[k] == t.passes[k].(used := after.passes[k].used)
  {
  }

  lemma RefundKeepsShape(t: Tables, i: nat, chars: nat)
    requires UniqueRows(t) && PeriodsOk(t) && Refundable(t, i, chars)
    ensures UniqueRows(WithRefund(t, i, chars)) && PeriodsOk(WithRefund(t, i, chars))
  {
    RefundMovesPasses(t, i, chars);
    PassesKeep(t, WithRefund(t, i, chars));
  }

  lemma RefundKeepsRows(t: Tables, i: nat, chars: nat)
    requires RowsOk(t) && Refundable(t, i, chars)
    ensures RowsOk(WithRefund(t, i, chars))
  {
    var after := WithRefund(t, i, chars);
    RefundMovesPasses(t, i, chars);
    forall k | 0 <= k < |after.reservations| ensures RowOk(after, after.reservations[k]) {
      RowStaysOk(t, after, t.reservations[k]);
    }
  }

  /** A refund, whatever it is asked for and however often, keeps the invariant. */
  lemma RefundKeepsInv(t: Tables, policy: Policy, id: string, chars: int)
    requires LedgerInv(t, policy)
    ensures LedgerInv(AfterRefund(t, id, chars), policy)
  {
    var target := RefundTarget(t, id, chars);
    if target.Some? {
      var refunded := Min(Positive(chars), t.reservations[target.value].chars);
      RefundKeepsFree(t, policy, target.value, refunded);
      RefundKeepsPasses(t, target.value, refunded);
      RefundKeepsWallets(t, target.value, refunded);
      RefundKeepsShape(t, target.value, refunded);
      RefundKeepsRows(t, target.value, refunded);
      RefundMovesPasses(t, target.value, refunded);
      PassesStayBought(t, WithRefund(t, target.value, refunded));
    }
  }

  // ---- one purchase more ----

  lemma GrantKeepsFree(t: Tables, policy: Policy, q: GrantRequest, grant: PurchaseGrant)
    requires FreeConserved(t, policy)
    ensures FreeConserved(Record(t, q, grant), policy)
  {
    var after := Record(t, q, grant);
    forall u, p ensures && UsageOf(after, u, p) == Sum(after.reservations, FreeShare(u, p))
                        && 0 <= UsageOf(after, u, p) <= policy.freeUnitsPerMonth {
      assert UsageOf(t, u, p) == Sum(t.reservations, FreeShare(u, p));
    }
  }

  lemma GrantKeepsPasses(t: Tables, q: GrantRequest, grant: PurchaseGrant)
    requires PassesConserved(t) && RowsOk(t)
    requires forall i :: 0 <= i < |t.passes| ==> t.passes[i].id != q.passId
    ensures PassesConserved(Record(t, q, grant))
  {
    var after := Record(t, q, grant);
    forall k | 0 <= k < |after.passes|
      ensures after.passes[k].used == Sum(after.reservations, PassShare(after.passes[k].id))
      ensures 0 <= after.passes[k].used <= after.passes[k].included
    {
      if k == |t.passes| {
        forall r | r in t.reservations ensures PassShare(q.passId)(r) == 0 {
          assert RowOk(t, r);
        }
        SumZero(t.reservations, PassShare(q.passId));
      } else {
        assert after.passes[k] == t.passes[k];
      }
    }
  }

  lemma GrantKeepsWallets(t: Tables, q: GrantRequest, grant: PurchaseGrant)
    requires WalletsConserved(t) && q.user in t.wallets
    ensures WalletsConserved(Record(t, q, grant))
  {
    var after := Record(t, q, grant);
    forall u ensures && WalletOf(after, u) == Sum(after.journal, EntryShare(u))
                     && WalletOf(after, u)
                       == Sum(after.purchases, BoughtShare(u)) - Sum(after.reservations, CreditShare(u))
                     && WalletOf(after, u) >= 0 {
      assert WalletOf(t, u) == Sum(t.journal, EntryShare(u));
      SumAppend(t.purchases, Purchase(q.reference, q.user, grant), BoughtShare(u));
      SumAppend(t.journal, Entry(q.user, Bought, grant.units, None), EntryShare(u));
    }
  }

  lemma GrantKeepsRows(t: Tables, q: GrantRequest, grant: PurchaseGrant)
    requires RowsOk(t) && UniqueRows(t) && q.user in t.wallets
    requires FindPurchase(t.purchases, q.reference).None?
    requires forall i :: 0 <= i < |t.passes| ==> t.passes[i].id != q.passId
    ensures RowsOk(Record(t, q, grant)) && UniqueRows(Record(t, q, grant))
  {
    var after := Record(t, q, grant);
    forall k | 0 <= k < |after.reservations| ensures RowOk(after, after.reservations[k]) {
      RowStaysOk(t, after, t.reservations[k]);
    }
  }

  lemma GrantKeepsPeriods(t: Tables, q: GrantRequest)
    requires PeriodsOk(t) && q.offer.Valid()
    ensures PeriodsOk(Record(t, q, GrantFor(q.offer, q.now, LatestPassEnd(t.passes, q.user))))
  {
    var grant := GrantFor(q.offer, q.now, LatestPassEnd(t.passes, q.user));
    var after := Record(t, q, grant);
    if grant.PassGrant? {
      PassLength(q.offer);
    }
    forall i, j | 0 <= i < j < |after.passes| && after.passes[i].user == after.passes[j].user
      ensures Disjoint(after.passes[i], after.passes[j])
    {
      if j < |t.passes| {
        assert Disjoint(t.passes[i], t.passes[j]);
      } else {
        assert t.passes[i].endsAt <= LatestPassEnd(t.passes, q.user).value <= grant.startsAt;
      }
    }
  }

  lemma GrantKeepsBought(t: Tables, q: GrantRequest, grant: PurchaseGrant)
    requires PassesBought(t)
    ensures PassesBought(Record(t, q, grant))
  {
    var after := Record(t, q, grant);
    forall i | 0 <= i < |after.passes| ensures HasPurchaseOf(after.passes[i], after.purchases) {
      if i < |t.passes| {
        assert HasPurchaseOf(t.passes[i], t.purchases);
        var k :| 0 <= k < |t.purchases| && IsPassOf(t.passes[i], t.purchases[k]);
        assert IsPassOf(after.passes[i], after.purchases[k]);
      } else {
        assert IsPassOf(after.passes[i], after.purchases[|t.purchases|]);
      }
    }
    forall k | 0 <= k < |after.purchases| && after.purchases[k].grant.PassGrant?
      ensures HasPassOf(after.purchases[k], after.passes) {
      if k < |t.purchases| {
        assert HasPassOf(t.purchases[k], t.passes);
        var i :| 0 <= i < |t.passes| && IsPassOf(t.passes[i], t.purchases[k]);
        assert IsPassOf(after.passes[i], after.purchases[k]);
      } else {
        assert IsPassOf(after.passes[|t.passes|], after.purchases[k]);
      }
    }
  }

  lemma PassLength(offer: Offer)
    requires offer.PassOffer? && offer.durationDays > 0
    ensures Days(offer.durationDays) > 0
  {
  }

  /** A grant, first or replayed, at any reading of the clock, keeps the invariant. */
  lemma GrantKeepsInv(t: Tables, policy: Policy, q: GrantRequest)
    requires LedgerInv(t, policy) && q.offer.Valid()
    requires forall i :: 0 <= i < |t.passes| ==> t.passes[i].id != q.passId
    ensures LedgerInv(AfterGrant(t, q), policy)
  {
    if GrantResult(t, q).Granted? {
      var locked := LockWallet(t, q.user);
      LockWalletInv(t, policy, q.user);
      var grant := GrantFor(q.offer, q.now, LatestPassEnd(t.passes, q.user));
      GrantKeepsFree(locked, policy, q, grant);
      GrantKeepsPasses(locked, q, grant);
      GrantKeepsWallets(locked, q, grant);
      GrantKeepsRows(locked, q, grant);
      GrantKeepsPeriods(locked, q);
      GrantKeepsBought(locked, q, grant);
    }
  }
}
