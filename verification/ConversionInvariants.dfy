/** Every step of every worker keeps the invariant of the conversions. */
module ConversionInvariants {
  import opened Wrappers
  import opened UnitsLedger
  import opened LedgerInvariants
  import opened Manifest
  import opened Pipeline
  import opened ConversionState

  // ---- one conversion ----

  lemma {:induction false} PartAudioAt(segments: seq<Segment>, part: nat, n: nat, i: nat)
    requires i < n <= |segments| && segments[i].row.partIndex == part
    ensures segments[i].audio in PartAudioUpTo(segments, part, n)
  {
    if i < n - 1 {
      PartAudioAt(segments, part, n - 1, i);
    }
  }

  lemma {:induction false} PartAudioElsewhere(segments: seq<Segment>, i: nat, audio: Audio, part: nat, n: nat)
    requires i < |segments| && n <= |segments| && segments[i].row.partIndex != part
    ensures PartAudioUpTo(WithAudio(segments, i, audio), part, n) == PartAudioUpTo(segments, part, n)
  {
    if n > 0 {
      PartAudioElsewhere(segments, i, audio, part, n - 1);
    }
  }

  /** An assembled part has all its audio: what arrives late belongs elsewhere. */
  lemma LateIsElsewhere(segments: seq<Segment>, i: nat, part: nat, a: Assembled)
    requires i < |segments| && segments[i].audio.None? && AssembledFrom(segments, part, a)
    ensures segments[i].row.partIndex != part
  {
    if segments[i].row.partIndex == part {
      PartAudioAt(segments, part, |segments|, i);
      assert false;
    }
  }

  lemma LateAudio(segments: seq<Segment>, i: nat, audio: Audio, part: nat, a: Assembled)
    requires i < |segments| && segments[i].audio.None? && AssembledFrom(segments, part, a)
    ensures AssembledFrom(WithAudio(segments, i, audio), part, a)
  {
    assert Rows(WithAudio(segments, i, audio)) == Rows(segments);
    LateIsElsewhere(segments, i, part, a);
    PartAudioElsewhere(segments, i, audio, part, |segments|);
  }

  lemma LateAudioKeepsParts(segments: seq<Segment>, i: nat, audio: Audio, parts: seq<Part>)
    requires i < |segments| && segments[i].audio.None? && PartsSound(segments, parts)
    ensures PartsSound(WithAudio(segments, i, audio), parts)
    ensures Rows(WithAudio(segments, i, audio)) == Rows(segments)
  {
    assert Rows(WithAudio(segments, i, audio)) == Rows(segments);
    forall k | 0 <= k < |parts| && parts[k].assembled.Some?
      ensures AssembledFrom(WithAudio(segments, i, audio), k, parts[k].assembled.value)
    {
      LateAudio(segments, i, audio, k, parts[k].assembled.value);
    }
  }

  lemma CompleteSegmentOk(id: Id, job: Job, index: nat, audio: Audio)
    requires JobOk(id, job)
    ensures JobOk(id, Next(job, CompleteSegment(index, audio)))
  {
    if index < |job.segments| && job.segments[index].audio.None? {
      LateAudioKeepsParts(job.segments, index, audio, job.parts);
    }
  }

  lemma PartsStaySound(segments: seq<Segment>, parts: seq<Part>, part: nat, assembled: Assembled)
    requires part < |parts| && PartsSound(segments, parts) && AssembledFrom(segments, part, assembled)
    ensures PartsSound(segments, WithAssembled(parts, part, assembled))
    ensures Plans(WithAssembled(parts, part, assembled)) == Plans(parts)
  {
    assert Plans(WithAssembled(parts, part, assembled)) == Plans(parts);
  }

  lemma PartsStayPlaced(raws: seq<Raw>, parts: seq<Part>, part: nat, assembled: Assembled)
    requires part < |parts| && PartsPlaced(raws, parts)
    ensures PartsPlaced(raws, WithAssembled(parts, part, assembled))
  {
  }

  lemma CompletePartOk(id: Id, job: Job, part: nat, assembled: Assembled)
    requires JobOk(id, job) && AssembledFrom(job.segments, part, assembled)
    ensures JobOk(id, Next(job, CompletePart(part, assembled)))
  {
    hide WellPrepared, PartsSound, PartsPlaced, AssembledFrom, Rows, Raws, Plans, AllAudio, ManifestOf;
    if part < |job.parts| && job.parts[part].assembled.None? {
      assert job.manifest.None?;
      hide AllAssembled;
      PartsStaySound(job.segments, job.parts, part, assembled);
      PartsStayPlaced(Raws(Rows(job.segments)), job.parts, part, assembled);
    }
  }

  lemma CompletePreparationOk(id: Id, job: Job, rows: seq<Segment>, plan: seq<Part>)
    requires JobOk(id, job) && SoundStep(id, job, CompletePreparation(rows, plan))
    ensures JobOk(id, Next(job, CompletePreparation(rows, plan)))
  {
  }

  /** Every step keeps a conversion and its rows in agreement. */
  lemma NextOk(id: Id, job: Job, step: Step)
    requires JobOk(id, job) && SoundStep(id, job, step)
    ensures JobOk(id, Next(job, step))
  {
    match step
    case CompletePreparation(rows, plan) => CompletePreparationOk(id, job, rows, plan);
    case CompleteSegment(index, audio) => CompleteSegmentOk(id, job, index, audio);
    case CompletePart(part, assembled) => CompletePartOk(id, job, part, assembled);
    case MarkPreparing =>
    case CloseSynthesis =>
    case PutManifest(_) =>
    case MarkReady =>
  }

  // ---- how a conversion evolves ----

  /** The edges of the life cycle. */
  predicate Edge(s: Status, t: Status) {
    || (s == Queued && t == Preparing)
    || (s == Preparing && t == Synthesizing)
    || (s == Synthesizing && t == Synthesized)
    || (s == Synthesized && t == Ready)
    || (InProgress(s) && t == Failed)
  }

  function Rank(s: Status): nat {
    match s
    case Queued => 0
    case Preparing => 1
    case Synthesizing => 2
    case Synthesized => 3
    case Ready => 4
    case Failed => 5
  }

  /** Zero or more edges. */
  predicate CanBecome(s: Status, t: Status) {
    s == t || (t == Failed && InProgress(s)) || (t != Failed && s != Failed && Rank(s) <= Rank(t))
  }

  predicate SameConversion(c: Conversion, d: Conversion) {
    SameTarget(c, d) && c.owner == d.owner && c.tier == d.tier && c.reservedChars == d.reservedChars
  }

  /** Rows are written once, audio and assembled parts are never overwritten, the manifest never changes. */
  predicate NothingOverwritten(a: Job, b: Job) {
    && (a.segments != [] ==> |b.segments| == |a.segments| && |b.parts| == |a.parts|)
    && (a.segments != [] ==> forall i :: 0 <= i < |a.segments| ==> i < |b.segments| ==>
          && b.segments[i].row == a.segments[i].row && b.segments[i].fingerprint == a.segments[i].fingerprint
          && (a.segments[i].audio.Some? ==> b.segments[i].audio == a.segments[i].audio))
    && (a.segments != [] ==> forall k :: 0 <= k < |a.parts| ==> k < |b.parts| ==>
          && b.parts[k].plan == a.parts[k].plan && b.parts[k].firstWordIndex == a.parts[k].firstWordIndex
          && (a.parts[k].assembled.Some? ==> b.parts[k].assembled == a.parts[k].assembled))
    && (a.manifest.Some? ==> b.manifest == a.manifest)
  }

  predicate Evolves(a: Job, b: Job) {
    && SameConversion(a.conversion, b.conversion)
    && CanBecome(a.conversion.status, b.conversion.status)
    && NothingOverwritten(a, b)
  }

  lemma EvolvesTransitive(a: Job, b: Job, c: Job)
    requires Evolves(a, b) && Evolves(b, c)
    ensures Evolves(a, c)
  {
  }

  lemma EvolvesSame(a: Job)
    ensures Evolves(a, a)
  {
  }

  lemma NextStatus(job: Job, step: Step)
    ensures var c, d := job.conversion, Next(job, step).conversion;
            SameConversion(c, d) && (c.status == d.status || (d.status != Failed && Edge(c.status, d.status)))
  {
  }

  lemma NextKeepsRows(job: Job, step: Step)
    requires step.CompletePreparation? && job.conversion.status == Preparing ==> job.segments == []
    requires step.PutManifest? && job.manifest.Some? ==> job.manifest.value == step.manifest
    ensures NothingOverwritten(job, Next(job, step))
  {
  }

  /** One step moves the status along one edge at most and overwrites nothing. */
  lemma NextEvolves(id: Id, job: Job, step: Step)
    requires JobOk(id, job) && SoundStep(id, job, step)
    ensures Evolves(job, Next(job, step))
  {
    hide WellPrepared, PartsSound, AssembledFrom, AllAssembled, AllAudio, Next, NothingOverwritten;
    NextStatus(job, step);
    NextKeepsRows(job, step);
  }

  lemma FailingOk(id: Id, job: Job, reason: FailureReason)
    requires JobOk(id, job) && InProgress(job.conversion.status)
    ensures JobOk(id, Failing(job, reason)) && Evolves(job, Failing(job, reason))
    ensures Edge(job.conversion.status, Failing(job, reason).conversion.status)
  {
  }

  // ---- the whole database: jobs ----

  lemma UpdateJobsOk(db: Db, after: Db, id: Id, job: Job)
    requires JobsOk(db) && JobOk(id, job) && after.jobs == db.jobs[id := job]
    ensures JobsOk(after)
  {
  }

  lemma UpdateOneActive(db: Db, after: Db, id: Id, job: Job)
    requires OneActive(db) && after.jobs == db.jobs[id := job]
    requires id in db.jobs && Evolves(db.jobs[id], job)
    ensures OneActive(after)
  {
    forall a, b | Active(after, a) && Active(after, b)
      && SameTarget(after.jobs[a].conversion, after.jobs[b].conversion) ensures a == b {
      assert Active(db, a) && Active(db, b) && SameTarget(db.jobs[a].conversion, db.jobs[b].conversion);
    }
  }

  lemma InsertOneActive(db: Db, after: Db, id: Id, job: Job)
    requires OneActive(db) && id !in db.jobs && after.jobs == db.jobs[id := job]
    requires !HasActive(db, job.conversion)
    ensures OneActive(after)
  {
    forall a, b | Active(after, a) && Active(after, b)
      && SameTarget(after.jobs[a].conversion, after.jobs[b].conversion) ensures a == b {
      assert a in db.jobs ==> Active(db, a);
      assert b in db.jobs ==> Active(db, b);
    }
  }

  // ---- the whole database: charges ----

  lemma ReserveRows(t: Tables, policy: Policy, q: ReserveRequest)
    ensures AfterReserve(t, policy, q).reservations
            == t.reservations
              + (if ReserveResult(t, policy, q).Reserved? then [ReserveResult(t, policy, q).row] else [])
    ensures ReserveResult(t, policy, q).Reserved? ==>
              var row := ReserveResult(t, policy, q).row;
              row.id == q.id && row.user == q.user && row.chars == q.chars && row.tier == q.tier
                && row.refundedChars.None?
  {
  }

  lemma GrantRows(t: Tables, q: GrantRequest)
    ensures AfterGrant(t, q).reservations == t.reservations
  {
  }

  /** The rows of other conversions are as they were. */
  predicate OthersKept(rows: seq<Reservation>, after: seq<Reservation>, id: Id) {
    && |rows| <= |after|
    && forall k :: 0 <= k < |rows| ==>
      && after[k] == rows[k].(refundedChars := after[k].refundedChars)
      && (rows[k].id != id ==> after[k] == rows[k])
  }

  /** A refund rewrites the refunded characters of one row at most, and only the first time. */
  lemma RefundRows(t: Tables, id: string, chars: int)
    ensures var after := AfterRefund(t, id, chars).reservations;
            && |after| == |t.reservations|
            && OthersKept(t.reservations, after, id)
            && forall k :: 0 <= k < |after| && t.reservations[k].refundedChars.Some? ==> after[k] == t.reservations[k]
  {
  }

  lemma ChargeSurvives(rows: seq<Reservation>, after: seq<Reservation>, changed: Id, id: Id, c: Conversion)
    requires Charged(rows, id, c) && OthersKept(rows, after, changed) && id != changed
    ensures Charged(after, id, c)
  {
    var k :| 0 <= k < |rows| && IsChargeOf(rows[k], id, c);
    assert IsChargeOf(after[k], id, c);
  }

  lemma ChargeFollows(rows: seq<Reservation>, after: seq<Reservation>, id: Id, c: Conversion, d: Conversion)
    requires Charged(rows, id, c) && OthersKept(rows, after, id) && SameConversion(c, d)
    requires d.status == Failed || (c.status != Failed && after == rows)
    ensures Charged(after, id, d)
  {
    var k :| 0 <= k < |rows| && IsChargeOf(rows[k], id, c);
    assert IsChargeOf(after[k], id, d);
  }

  /** One conversion changes with its charge; nothing is reserved or refunded for the others. */
  lemma UpdateCharges(db: Db, after: Db, id: Id, job: Job)
    requires ChargesOk(db) && after.jobs == db.jobs[id := job] && id in db.jobs
    requires OthersKept(db.ledger.reservations, after.ledger.reservations, id)
    requires |after.ledger.reservations| == |db.ledger.reservations|
    requires Charged(after.ledger.reservations, id, job.conversion)
    ensures ChargesOk(after)
  {
    forall i | i in after.jobs ensures Charged(after.ledger.reservations, i, after.jobs[i].conversion) {
      if i != id {
        ChargeSurvives(db.ledger.reservations, after.ledger.reservations, id, i, db.jobs[i].conversion);
      }
    }
  }

  lemma InsertCharges(db: Db, after: Db, id: Id, job: Job, row: Reservation)
    requires ChargesOk(db) && after.jobs == db.jobs[id := job] && id !in db.jobs
    requires after.ledger.reservations == db.ledger.reservations + [row] && IsChargeOf(row, id, job.conversion)
    ensures ChargesOk(after)
  {
    forall i | i in after.jobs ensures Charged(after.ledger.reservations, i, after.jobs[i].conversion) {
      if i != id {
        ChargeSurvives(db.ledger.reservations, after.ledger.reservations, id, i, db.jobs[i].conversion);
      } else {
        assert IsChargeOf(after.ledger.reservations[|db.ledger.reservations|], id, job.conversion);
      }
    }
  }

  // ---- each action keeps the invariant ----

  lemma AdvanceKeeps(db: Db, policy: Policy, id: Id, step: Step)
    requires Inv(db, policy) && Sound(db, Advance(id, step))
    ensures Inv(Apply(db, policy, Advance(id, step)), policy)
  {
    hide JobOk, SoundStep, NothingOverwritten, OneActive, LedgerInv;
    var job := db.jobs[id];
    var after := Apply(db, policy, Advance(id, step));
    NextOk(id, job, step);
    NextEvolves(id, job, step);
    UpdateJobsOk(db, after, id, Next(job, step));
    UpdateOneActive(db, after, id, Next(job, step));
    ChargeFollows(db.ledger.reservations, db.ledger.reservations, id, job.conversion, Next(job, step).conversion);
    UpdateCharges(db, after, id, Next(job, step));
  }

  lemma FailJobsKeep(db: Db, id: Id, reason: FailureReason)
    requires JobsOk(db) && OneActive(db)
    ensures JobsOk(AfterFail(db, id, reason)) && OneActive(AfterFail(db, id, reason))
  {
    if id in db.jobs && InProgress(db.jobs[id].conversion.status) {
      FailingOk(id, db.jobs[id], reason);
      UpdateJobsOk(db, AfterFail(db, id, reason), id, Failing(db.jobs[id], reason));
      UpdateOneActive(db, AfterFail(db, id, reason), id, Failing(db.jobs[id], reason));
    }
  }

  lemma FailedCharges(db: Db, after: Db, id: Id, job: Job)
    requires ChargesOk(db) && id in db.jobs && SameConversion(db.jobs[id].conversion, job.conversion)
    requires job.conversion.status == Failed && after.jobs == db.jobs[id := job]
    requires OthersKept(db.ledger.reservations, after.ledger.reservations, id)
    requires |after.ledger.reservations| == |db.ledger.reservations|
    ensures ChargesOk(after)
  {
    ChargeFollows(db.ledger.reservations, after.ledger.reservations, id, db.jobs[id].conversion, job.conversion);
    UpdateCharges(db, after, id, job);
  }

  lemma FailChargesKeep(db: Db, id: Id, reason: FailureReason)
    requires ChargesOk(db)
    ensures ChargesOk(AfterFail(db, id, reason))
  {
    hide AfterRefund, Consumed, Charged;
    if id in db.jobs && InProgress(db.jobs[id].conversion.status) {
      var job := db.jobs[id];
      var after := AfterFail(db, id, reason);
      RefundRows(db.ledger, id, job.conversion.reservedChars - Consumed(job.segments));
      FailedCharges(db, after, id, Failing(job, reason));
    }
  }

  lemma FailLedgerKeeps(db: Db, policy: Policy, id: Id, reason: FailureReason)
    requires LedgerInv(db.ledger, policy)
    ensures LedgerInv(AfterFail(db, id, reason).ledger, policy)
  {
    if id in db.jobs && InProgress(db.jobs[id].conversion.status) {
      RefundKeepsInv(db.ledger, policy, id, db.jobs[id].conversion.reservedChars - Consumed(db.jobs[id].segments));
    }
  }

  lemma FailKeeps(db: Db, policy: Policy, id: Id, reason: FailureReason)
    requires Inv(db, policy)
    ensures Inv(AfterFail(db, id, reason), policy)
  {
    FailLedgerKeeps(db, policy, id, reason);
    FailJobsKeep(db, id, reason);
    FailChargesKeep(db, id, reason);
  }

  /** The ledger may have grown empty rows; the reservations are the same. */
  lemma LedgerOnlyKeeps(db: Db, after: Db, policy: Policy)
    requires Inv(db, policy) && after.jobs == db.jobs
    requires after.ledger.reservations == db.ledger.reservations && LedgerInv(after.ledger, policy)
    ensures Inv(after, policy)
  {
    forall a, b | Active(after, a) && Active(after, b)
      && SameTarget(after.jobs[a].conversion, after.jobs[b].conversion) ensures a == b {
      assert Active(db, a) && Active(db, b);
    }
  }

  lemma InsertKeeps(db: Db, policy: Policy, id: Id, c: Conversion, now: Instant, period: Period)
    requires Inv(db, policy) && Sound(db, Start(id, c, now, period)) && !HasActive(db, c)
    requires ReserveResult(db.ledger, policy, ReserveRequestOf(id, c, now, period)).Reserved?
    ensures Inv(AfterStart(db, policy, id, c, now, period), policy)
  {
    var q := ReserveRequestOf(id, c, now, period);
    var after := AfterStart(db, policy, id, c, now, period);
    var job := Job(c, [], [], None);
    ReserveKeepsInv(db.ledger, policy, q);
    ReserveRows(db.ledger, policy, q);
    UpdateJobsOk(db, after, id, job);
    InsertOneActive(db, after, id, job);
    InsertCharges(db, after, id, job, ReserveResult(db.ledger, policy, q).row);
  }

  lemma StartKeeps(db: Db, policy: Policy, id: Id, c: Conversion, now: Instant, period: Period)
    requires Inv(db, policy) && Sound(db, Start(id, c, now, period))
    ensures Inv(AfterStart(db, policy, id, c, now, period), policy)
  {
    var q := ReserveRequestOf(id, c, now, period);
    var outcome := ReserveResult(db.ledger, policy, q);
    if outcome.Reserved? {
      if !HasActive(db, c) {
        InsertKeeps(db, policy, id, c, now, period);
      }
    } else {
      ReserveKeepsInv(db.ledger, policy, q);
      ReserveRows(db.ledger, policy, q);
      LedgerOnlyKeeps(db, AfterStart(db, policy, id, c, now, period), policy);
    }
  }

  lemma BuyKeeps(db: Db, policy: Policy, q: GrantRequest)
    requires Inv(db, policy) && Sound(db, Buy(q))
    ensures Inv(db.(ledger := AfterGrant(db.ledger, q)), policy)
  {
    GrantKeepsInv(db.ledger, policy, q);
    GrantRows(db.ledger, q);
    LedgerOnlyKeeps(db, db.(ledger := AfterGrant(db.ledger, q)), policy);
  }

  lemma ApplyKeeps(db: Db, policy: Policy, a: Action)
    requires Inv(db, policy)
    ensures Inv(Apply(db, policy, a), policy)
  {
    if Sound(db, a) {
      match a
      case Start(id, c, now, period) => StartKeeps(db, policy, id, c, now, period);
      case Advance(id, step) => AdvanceKeeps(db, policy, id, step);
      case Fail(id, reason) => FailKeeps(db, policy, id, reason);
      case Buy(q) => BuyKeeps(db, policy, q);
    }
  }

  lemma {:induction false} RunKeeps(db: Db, policy: Policy, actions: seq<Action>)
    requires Inv(db, policy)
    ensures Inv(Run(db, policy, actions), policy)
  {
    if actions != [] {
      RunKeeps(db, policy, actions[..|actions| - 1]);
      ApplyKeeps(Run(db, policy, actions[..|actions| - 1]), policy, actions[|actions| - 1]);
    }
  }

  /** The agreement of each conversion with its rows does not need the rest of the invariant. */
  lemma ApplyKeepsJobs(db: Db, policy: Policy, a: Action)
    requires JobsOk(db)
    ensures JobsOk(Apply(db, policy, a))
  {
    hide Next, SoundStep, Failing, HasActive, ReserveResult, AfterReserve, AfterRefund, AfterGrant, Consumed;
    if Sound(db, a) {
      match a
      case Start(id, c, _, _) =>
        if id in Apply(db, policy, a).jobs {
          UpdateJobsOk(db, Apply(db, policy, a), id, Job(c, [], [], None));
        }
      case Advance(id, step) =>
        NextOk(id, db.jobs[id], step);
        UpdateJobsOk(db, Apply(db, policy, a), id, Next(db.jobs[id], step));
      case Fail(id, reason) =>
        if id in db.jobs && InProgress(db.jobs[id].conversion.status) {
          FailingOk(id, db.jobs[id], reason);
          UpdateJobsOk(db, Apply(db, policy, a), id, Failing(db.jobs[id], reason));
        }
      case Buy(_) =>
    }
  }

  lemma {:induction false} RunKeepsJobs(db: Db, policy: Policy, actions: seq<Action>)
    requires JobsOk(db)
    ensures JobsOk(Run(db, policy, actions))
  {
    if actions != [] {
      RunKeepsJobs(db, policy, actions[..|actions| - 1]);
      ApplyKeepsJobs(Run(db, policy, actions[..|actions| - 1]), policy, actions[|actions| - 1]);
    }
  }

  lemma EmptyKeeps(policy: Policy)
    ensures Inv(EmptyDb, policy)
  {
    EmptyInv(policy);
  }
}
