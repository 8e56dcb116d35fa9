/**
 * The billing tables: the monthly free counters, the passes, the wallets with
 * their journal, the reservations and the purchases. The transactions that
 * change them are functions on `Tables`; `BillingLedger.dfy` holds the class
 * that carries them out.
 */
module UnitsLedger {
  import opened Numbers
  import opened Wrappers
  import opened Allocation
  import opened Sums

  type UserId = string
  type Reference = string

  /** A civil month. */
  type Period = string

  /** Milliseconds. */
  type Instant = int

  /** 24 hours of 60 minutes of 60 seconds. */
  function Days(n: nat): Instant {
    86_400_000 * n
  }

  datatype Policy = Policy(freeUnitsPerMonth: nat, maxCharsPerConversion: nat)

  datatype Offer =
    | PassOffer(code: string, price: nat, units: nat, durationDays: nat)
    | CreditsOffer(code: string, price: nat, units: nat)
  {
    /** The `CHECK` constraints of the catalogue. */
    predicate Valid() {
      units > 0 && (PassOffer? ==> durationDays > 0)
    }
  }

  datatype PurchaseGrant =
    | PassGrant(offerCode: string, price: nat, units: nat, startsAt: Instant, endsAt: Instant)
    | CreditsGrant(offerCode: string, price: nat, units: nat)

  /** A pass bought while another one is running starts at the end of the last one. */
  function GrantFor(offer: Offer, now: Instant, latestPassEnd: Option<Instant>): PurchaseGrant {
    match offer
    case CreditsOffer(code, price, units) => CreditsGrant(code, price, units)
    case PassOffer(code, price, units, days) =>
      var startsAt := if latestPassEnd.Some? && latestPassEnd.value > now then latestPassEnd.value else now;
      PassGrant(code, price, units, startsAt, startsAt + Days(days))
  }

  datatype PassRow = PassRow(
    id: string, user: UserId, reference: Reference, offerCode: string,
    startsAt: Instant, endsAt: Instant, included: nat, used: int)
  {
    predicate ActiveAt(at: Instant) {
      startsAt <= at < endsAt
    }
  }

  datatype Reservation = Reservation(
    id: string, user: UserId, period: Period, tier: VoiceTier, chars: nat,
    passId: Option<string>, taken: UnitsBySource, refundedChars: Option<nat>)

  datatype Purchase = Purchase(reference: Reference, user: UserId, grant: PurchaseGrant)

  datatype EntryKind = Bought | Consumption | Refund

  datatype Entry = Entry(user: UserId, kind: EntryKind, units: int, reservationId: Option<string>)

  datatype Tables = Tables(
    usage: map<(UserId, Period), int>,
    passes: seq<PassRow>,
    wallets: map<UserId, int>,
    reservations: seq<Reservation>,
    purchases: seq<Purchase>,
    journal: seq<Entry>)

  const NoRows := Tables(map[], [], map[], [], [], [])

  // ---- queries ----

  function UsageOf(t: Tables, user: UserId, period: Period): int {
    if (user, period) in t.usage then t.usage[(user, period)] else 0
  }

  function WalletOf(t: Tables, user: UserId): int {
    if user in t.wallets then t.wallets[user] else 0
  }

  function FindReservation(rows: seq<Reservation>, id: string): (r: Option<nat>)
    ensures r.Some? ==> r.value < |rows| && rows[r.value].id == id
    ensures r.None? ==> forall i :: 0 <= i < |rows| ==> rows[i].id != id
  {
    if rows == [] then None
    else if rows[|rows| - 1].id == id then Some(|rows| - 1)
    else FindReservation(rows[..|rows| - 1], id)
  }

  function FindPurchase(rows: seq<Purchase>, reference: Reference): (r: Option<nat>)
    ensures r.Some? ==> r.value < |rows| && rows[r.value].reference == reference
    ensures r.None? ==> forall i :: 0 <= i < |rows| ==> rows[i].reference != reference
  {
    if rows == [] then None
    else if rows[|rows| - 1].reference == reference then Some(|rows| - 1)
    else FindPurchase(rows[..|rows| - 1], reference)
  }

  function FindPass(rows: seq<PassRow>, id: string): (r: Option<nat>)
    ensures r.Some? ==> r.value < |rows| && rows[r.value].id == id
    ensures r.None? ==> forall i :: 0 <= i < |rows| ==> rows[i].id != id
  {
    if rows == [] then None
    else if rows[|rows| - 1].id == id then Some(|rows| - 1)
    else FindPass(rows[..|rows| - 1], id)
  }

  /** The user's pass active at `at`, the earliest one first. */
  function ActivePass(rows: seq<PassRow>, user: UserId, at: Instant): (r: Option<nat>)
    ensures r.Some? ==> r.value < |rows| && rows[r.value].user == user && rows[r.value].ActiveAt(at)
    ensures r.Some? ==> forall i :: 0 <= i < |rows| && rows[i].user == user && rows[i].ActiveAt(at)
                                    ==> rows[r.value].startsAt <= rows[i].startsAt
    ensures r.None? ==> forall i :: 0 <= i < |rows| && rows[i].user == user ==> !rows[i].ActiveAt(at)
  {
    if rows == [] then None
    else
      var last := |rows| - 1;
      var before := ActivePass(rows[..last], user, at);
      if rows[last].user != user || !rows[last].ActiveAt(at) then before
      else if before.Some? && rows[before.value].startsAt <= rows[last].startsAt then before
      else Some(last)
  }

  /** The end of the user's last pass. */
  function LatestPassEnd(rows: seq<PassRow>, user: UserId): (r: Option<Instant>)
    ensures r.Some? ==> exists i :: 0 <= i < |rows| && rows[i].user == user && rows[i].endsAt == r.value
    ensures r.Some? ==> forall i :: 0 <= i < |rows| && rows[i].user == user ==> rows[i].endsAt <= r.value
    ensures r.None? ==> forall i :: 0 <= i < |rows| ==> rows[i].user != user
  {
    if rows == [] then None
    else
      var last := |rows| - 1;
      var before := LatestPassEnd(rows[..last], user);
      if rows[last].user != user then
        assert before.Some? ==>
          exists i :: 0 <= i < last && rows[..last][i].user == user && rows[..last][i].endsAt == before.value;
        before
      else if before.Some? && before.value >= rows[last].endsAt then
        assert exists i :: 0 <= i < last && rows[..last][i].user == user && rows[..last][i].endsAt == before.value;
        before
      else Some(rows[last].endsAt)
  }

  // ---- reserving ----

  datatype ReserveOutcome =
    | Reserved(row: Reservation)
    | AlreadyReserved(row: Reservation)
    | LimitExceeded
    | QuotaExceeded(requested: nat, usable: nat)

  datatype ReserveRequest = ReserveRequest(id: string, user: UserId, chars: nat, tier: VoiceTier, now: Instant,
                                           period: Period)

  /** The rows that the locks need are created empty. */
  function LockRows(t: Tables, user: UserId, period: Period): Tables {
    LockWallet(t.(usage := if (user, period) in t.usage then t.usage else t.usage[(user, period) := 0]), user)
  }

  function LockWallet(t: Tables, user: UserId): Tables {
    t.(wallets := if user in t.wallets then t.wallets else t.wallets[user := 0])
  }

  function Positive(x: int): nat {
    if x > 0 then x else 0
  }

  function Available(t: Tables, policy: Policy, user: UserId, period: Period, now: Instant): UnitsBySource {
    var active := ActivePass(t.passes, user, now);
    UnitsBySource(
      Positive(policy.freeUnitsPerMonth - UsageOf(t, user, period)),
      if active.Some? then Positive(t.passes[active.value].included - t.passes[active.value].used) else 0,
      Positive(WalletOf(t, user)))
  }

  /** The row a new reservation would write, or the refusal. */
  function Priced(t: Tables, policy: Policy, q: ReserveRequest): ReserveOutcome {
    var available := Available(t, policy, q.user, q.period, q.now);
    var requested := ForChars(q.chars, q.tier);
    var usable := Usable(q.tier, available).Total();
    if requested > usable then QuotaExceeded(requested, usable)
    else
      var taken := Taken(requested, q.tier, available);
      var active := ActivePass(t.passes, q.user, q.now);
      var passId := if taken.pass > 0 && active.Some? then Some(t.passes[active.value].id) else None;
      Reserved(Reservation(q.id, q.user, q.period, q.tier, q.chars, passId, taken, None))
  }

  function ReserveResult(t: Tables, policy: Policy, q: ReserveRequest): ReserveOutcome {
    if q.chars > policy.maxCharsPerConversion then LimitExceeded
    else
      var existing := FindReservation(t.reservations, q.id);
      if existing.Some? then AlreadyReserved(t.reservations[existing.value]) else Priced(t, policy, q)
  }

  function AfterReserve(t: Tables, policy: Policy, q: ReserveRequest): Tables {
    match ReserveResult(t, policy, q)
    case LimitExceeded => t
    case AlreadyReserved(_) => t
    case QuotaExceeded(_, _) => LockRows(t, q.user, q.period)
    case Reserved(row) =>
      var locked := LockRows(t, q.user, q.period);
      Move(locked.(reservations := locked.reservations + [row]), row, row.taken, -1)
  }

  /**
   * Debits (`sign == -1`) or credits (`sign == 1`) each source of `row` its
   * share of `units`. No clamp: the class shows that the clamps never bite.
   */
  function Move(t: Tables, row: Reservation, units: UnitsBySource, sign: int): Tables {
    t.(usage := MoveUsage(t.usage, (row.user, row.period), Signed(sign, units.free)),
       passes := if units.pass > 0 && row.passId.Some?
                 then MovePass(t.passes, row.passId.value, Signed(sign, units.pass))
                 else t.passes,
       wallets := MoveWallet(t.wallets, row.user, Signed(sign, units.credits)),
       journal := if units.credits > 0
                  then t.journal
                       + [Entry(row.user, if sign < 0 then Consumption else Refund,
                                Signed(sign, units.credits), Some(row.id))]
                  else t.journal)
  }

  function Signed(sign: int, units: nat): int {
    if sign < 0 then -(units as int) else units
  }

  function MoveUsage(usage: map<(UserId, Period), int>, key: (UserId, Period), given: int): map<(UserId, Period), int> {
    if given != 0 && key in usage then usage[key := usage[key] - given] else usage
  }

  function MovePass(rows: seq<PassRow>, id: string, given: int): seq<PassRow> {
    var found := FindPass(rows, id);
    if found.Some? then rows[found.value := rows[found.value].(used := rows[found.value].used - given)] else rows
  }

  function MoveWallet(wallets: map<UserId, int>, user: UserId, given: int): map<UserId, int> {
    if given != 0 && user in wallets then wallets[user := wallets[user] + given] else wallets
  }

  // ---- refunding ----

  /** The reservation a refund of `chars` characters would still pay out of, if any. */
  function RefundTarget(t: Tables, id: string, chars: int): Option<nat> {
    if chars <= 0 then None
    else
      var found := FindReservation(t.reservations, id);
      if found.Some? && t.reservations[found.value].refundedChars.None? then found else None
  }

  function AfterRefund(t: Tables, id: string, chars: int): Tables {
    var target := RefundTarget(t, id, chars);
    if target.None? then t
    else
      var row := t.reservations[target.value];
      var refundedChars := Min(Positive(chars), row.chars);
      var refund := Refunded(row.taken, ForChars(refundedChars, row.tier));
      Move(t.(reservations := t.reservations[target.value := row.(refundedChars := Some(refundedChars))]), row,
           refund, 1)
  }

  // ---- granting ----

  datatype GrantRequest = GrantRequest(reference: Reference, user: UserId, offer: Offer, now: Instant, passId: string)

  datatype GrantOutcome = Granted(grant: PurchaseGrant) | AlreadyGranted(grant: PurchaseGrant) | ReferenceConflict

  function Replayed(existing: Purchase, q: GrantRequest): GrantOutcome {
    if existing.user == q.user && existing.grant.offerCode == q.offer.code then AlreadyGranted(existing.grant)
    else ReferenceConflict
  }

  function GrantResult(t: Tables, q: GrantRequest): GrantOutcome {
    var existing := FindPurchase(t.purchases, q.reference);
    if existing.Some? then Replayed(t.purchases[existing.value], q)
    else Granted(GrantFor(q.offer, q.now, LatestPassEnd(t.passes, q.user)))
  }

  function AfterGrant(t: Tables, q: GrantRequest): Tables {
    match GrantResult(t, q)
    case AlreadyGranted(_) => t
    case ReferenceConflict => t
    case Granted(grant) => Record(LockWallet(t, q.user), q, grant)
  }

  function Record(t: Tables, q: GrantRequest, grant: PurchaseGrant): Tables {
    var bought := t.(purchases := t.purchases + [Purchase(q.reference, q.user, grant)]);
    match grant
    case PassGrant(code, _, units, startsAt, endsAt) =>
      bought.(passes := t.passes + [PassRow(q.passId, q.user, q.reference, code, startsAt, endsAt, units, 0)])
    case CreditsGrant(_, _, units) =>
      bought.(wallets := MoveWallet(t.wallets, q.user, units),
              journal := t.journal + [Entry(q.user, Bought, units, None)])
  }

  // ---- what every run keeps ----

  /** What a reservation still costs each source. */
  ghost function Kept(r: Reservation): UnitsBySource {
    if r.refundedChars.None? then r.taken
    else Subtract(r.taken, Refunded(r.taken, ForChars(r.refundedChars.value, r.tier)))
  }

  ghost function FreeShare(user: UserId, period: Period): Reservation -> int {
    (r: Reservation) => if r.user == user && r.period == period then Kept(r).free else 0
  }

  ghost function PassShare(id: string): Reservation -> int {
    (r: Reservation) => if r.passId == Some(id) then Kept(r).pass else 0
  }

  ghost function CreditShare(user: UserId): Reservation -> int {
    (r: Reservation) => if r.user == user then Kept(r).credits else 0
  }

  ghost function EntryShare(user: UserId): Entry -> int {
    (e: Entry) => if e.user == user then e.units else 0
  }

  ghost function BoughtShare(user: UserId): Purchase -> int {
    (p: Purchase) => if p.user == user && p.grant.CreditsGrant? then p.grant.units else 0
  }

  ghost predicate UniqueRows(t: Tables) {
    && (forall i, j ::
          0 <= i < |t.reservations| && 0 <= j < |t.reservations| && t.reservations[i].id == t.reservations[j].id ==>
            i == j)
    && (forall i, j :: 0 <= i < |t.passes| && 0 <= j < |t.passes| && t.passes[i].id == t.passes[j].id ==> i == j)
    && (forall i, j ::
          0 <= i < |t.purchases| && 0 <= j < |t.purchases| && t.purchases[i].reference == t.purchases[j].reference ==>
            i == j)
  }

  /** A reservation's split is exactly its price, and its sources exist. */
  ghost predicate RowOk(t: Tables, r: Reservation) {
    && r.taken.Total() == ForChars(r.chars, r.tier)
    && (r.tier != Standard ==> r.taken.free == 0)
    && (r.refundedChars.Some? ==> r.refundedChars.value <= r.chars)
    && (r.taken.free > 0 ==> (r.user, r.period) in t.usage)
    && (r.taken.credits > 0 ==> r.user in t.wallets)
    && (r.taken.pass > 0 <==> r.passId.Some?)
    && (r.passId.Some? ==>
        exists i :: 0 <= i < |t.passes| && t.passes[i].id == r.passId.value && t.passes[i].user == r.user)
  }

  ghost predicate RowsOk(t: Tables) {
    forall i :: 0 <= i < |t.reservations| ==> RowOk(t, t.reservations[i])
  }

  /** Each free counter is what was taken and not given back in that month, within the limit. */
  ghost predicate FreeConserved(t: Tables, policy: Policy) {
    forall u, p {:trigger UsageOf(t, u, p)} ::
      && UsageOf(t, u, p) == Sum(t.reservations, FreeShare(u, p))
      && 0 <= UsageOf(t, u, p) <= policy.freeUnitsPerMonth
  }

  /** Each pass has used what was charged to it and not given back, within its units. */
  ghost predicate PassesConserved(t: Tables) {
    forall i :: 0 <= i < |t.passes| ==>
      && t.passes[i].used == Sum(t.reservations, PassShare(t.passes[i].id))
      && 0 <= t.passes[i].used <= t.passes[i].included
  }

  /** Each wallet is the signed sum of its journal: bought minus kept, never negative. */
  ghost predicate WalletsConserved(t: Tables) {
    forall u {:trigger WalletOf(t, u)} ::
      && WalletOf(t, u) == Sum(t.journal, EntryShare(u))
      && WalletOf(t, u) == Sum(t.purchases, BoughtShare(u)) - Sum(t.reservations, CreditShare(u))
      && WalletOf(t, u) >= 0
  }

  ghost predicate Disjoint(a: PassRow, b: PassRow) {
    a.endsAt <= b.startsAt || b.endsAt <= a.startsAt
  }

  /** The pass periods of one user never overlap. */
  ghost predicate PeriodsOk(t: Tables) {
    && (forall i :: 0 <= i < |t.passes| ==> t.passes[i].startsAt < t.passes[i].endsAt)
    && (forall i, j :: 0 <= i < j < |t.passes| && t.passes[i].user == t.passes[j].user ==>
        Disjoint(t.passes[i], t.passes[j]))
  }

  /** The pass that a purchase granted: its user, period and units. */
  predicate IsPassOf(pass: PassRow, p: Purchase) {
    && p.grant.PassGrant? && pass.reference == p.reference && pass.user == p.user
    && pass.offerCode == p.grant.offerCode && pass.included == p.grant.units
    && pass.startsAt == p.grant.startsAt && pass.endsAt == p.grant.endsAt
  }

  ghost predicate HasPurchaseOf(pass: PassRow, purchases: seq<Purchase>) {
    exists k :: 0 <= k < |purchases| && IsPassOf(pass, purchases[k])
  }

  ghost predicate HasPassOf(p: Purchase, passes: seq<PassRow>) {
    exists i :: 0 <= i < |passes| && IsPassOf(passes[i], p)
  }

  /** Every pass was bought, and every pass that was bought is there. */
  ghost predicate PassesBought(t: Tables) {
    && (forall i :: 0 <= i < |t.passes| ==> HasPurchaseOf(t.passes[i], t.purchases))
    && (forall k :: 0 <= k < |t.purchases| && t.purchases[k].grant.PassGrant? ==> HasPassOf(t.purchases[k], t.passes))
  }

  /** Passes that only used more or less, of the same purchases. */
  lemma PassesStayBought(t: Tables, after: Tables)
    requires PassesBought(t) && after.purchases == t.purchases && |after.passes| == |t.passes|
    requires forall i :: 0 <= i < |t.passes| ==> after.passes[i] == t.passes[i].(used := after.passes[i].used)
    ensures PassesBought(after)
  {
    forall i | 0 <= i < |after.passes| ensures HasPurchaseOf(after.passes[i], after.purchases) {
      assert HasPurchaseOf(t.passes[i], t.purchases);
      var k :| 0 <= k < |t.purchases| && IsPassOf(t.passes[i], t.purchases[k]);
      assert IsPassOf(after.passes[i], after.purchases[k]);
    }
    forall k | 0 <= k < |after.purchases| && after.purchases[k].grant.PassGrant?
      ensures HasPassOf(after.purchases[k], after.passes) {
      assert HasPassOf(t.purchases[k], t.passes);
      var i :| 0 <= i < |t.passes| && IsPassOf(t.passes[i], t.purchases[k]);
      assert IsPassOf(after.passes[i], after.purchases[k]);
    }
  }

  ghost predicate LedgerInv(t: Tables, policy: Policy) {
    && UniqueRows(t) && RowsOk(t) && FreeConserved(t, policy) && PassesConserved(t) && WalletsConserved(t)
    && PeriodsOk(t) && PassesBought(t)
  }

  lemma SubtractTotal(a: UnitsBySource, b: UnitsBySource)
    requires b.free <= a.free && b.pass <= a.pass && b.credits <= a.credits
    ensures Subtract(a, b).Total() == a.Total() - b.Total()
  {
  }

  lemma PriceGrows(fewer: nat, more: nat, tier: VoiceTier)
    requires fewer <= more
    ensures ForChars(fewer, tier) <= ForChars(more, tier)
  {
  }

  /** In units: a refunded reservation keeps the price of the characters that were not given back. */
  lemma KeptTotal(r: Reservation)
    requires r.taken.Total() == ForChars(r.chars, r.tier)
    requires r.refundedChars.Some? ==> r.refundedChars.value <= r.chars
    ensures r.refundedChars.None? ==> Kept(r).Total() == ForChars(r.chars, r.tier)
    ensures r.refundedChars.Some? ==> Kept(r).Total() == ForChars(r.chars - r.refundedChars.value, r.tier)
  {
    if r.refundedChars.Some? {
      var back := ForChars(r.refundedChars.value, r.tier);
      PriceGrows(r.refundedChars.value, r.chars, r.tier);
      RefundedTotal(r.taken, back);
      SubtractTotal(r.taken, Refunded(r.taken, back));
      PriceSplits(r.chars, r.refundedChars.value, r.tier);
    }
  }

  lemma PriceSplits(chars: nat, back: nat, tier: VoiceTier)
    requires back <= chars
    ensures ForChars(chars - back, tier) == ForChars(chars, tier) - ForChars(back, tier)
  {
  }

  lemma EmptyInv(policy: Policy)
    ensures LedgerInv(NoRows, policy)
  {
  }

  lemma LockRowsInv(t: Tables, policy: Policy, user: UserId, period: Period)
    requires LedgerInv(t, policy)
    ensures LedgerInv(LockRows(t, user, period), policy)
  {
    var l := LockRows(t, user, period);
    assert forall u, p :: UsageOf(l, u, p) == UsageOf(t, u, p);
    assert forall u :: WalletOf(l, u) == WalletOf(t, u);
    forall i | 0 <= i < |l.reservations| ensures RowOk(l, l.reservations[i]) {
      assert RowOk(t, t.reservations[i]);
    }
  }

  lemma LockWalletInv(t: Tables, policy: Policy, user: UserId)
    requires LedgerInv(t, policy)
    ensures LedgerInv(LockWallet(t, user), policy)
  {
    var l := LockWallet(t, user);
    assert forall u, p :: UsageOf(l, u, p) == UsageOf(t, u, p);
    assert forall u :: WalletOf(l, u) == WalletOf(t, u);
    forall i | 0 <= i < |l.reservations| ensures RowOk(l, l.reservations[i]) {
      assert RowOk(t, t.reservations[i]);
    }
  }
}
