/**
 * The conversions with their rows, and the atomic steps that any worker can
 * take on them. Each step is one repository method or one transaction.
 */
module ConversionState {
  import opened Wrappers
  import opened Allocation
  import opened UnitsLedger
  import opened PartPlan
  import opened Pipeline
  import opened PartTimeline
  import opened Manifest

  type Id = string

  datatype Status = Queued | Preparing | Synthesizing | Synthesized | Ready | Failed

  /** Statuses from which a conversion can still fail, and be refunded. */
  predicate InProgress(s: Status) {
    s == Queued || s == Preparing || s == Synthesizing
  }

  datatype FailureReason = TextChanged | SourceUnavailable | EmptyText | TtsRejected | Internal

  datatype Conversion = Conversion(
    owner: UserId, document: string, voice: string, tier: VoiceTier, textRevision: nat,
    reservedChars: nat, status: Status, failureReason: Option<FailureReason>,
    segmentCount: Option<nat>, partCount: Option<nat>)

  datatype Segment = Segment(row: Prepared, fingerprint: string, audio: Option<Audio>)

  /** One conversion with the rows that reference it, and its manifest in storage. */
  datatype Job = Job(conversion: Conversion, segments: seq<Segment>, parts: seq<Part>,
                     manifest: Option<ConversionManifest>)

  datatype Db = Db(jobs: map<Id, Job>, ledger: Tables)

  const EmptyDb := Db(map[], NoRows)

  function NewQueued(owner: UserId, document: string, voice: string, tier: VoiceTier, revision: nat,
                     chars: nat): Conversion {
    Conversion(owner, document, voice, tier, revision, chars, Queued, None, None, None)
  }

  // ---- queries ----

  predicate SameTarget(a: Conversion, b: Conversion) {
    a.document == b.document && a.voice == b.voice && a.textRevision == b.textRevision
  }

  predicate Active(db: Db, id: Id) {
    id in db.jobs && db.jobs[id].conversion.status != Failed
  }

  /** The partial unique index: one conversion that has not failed per target. */
  predicate HasActive(db: Db, c: Conversion) {
    exists id :: id in db.jobs && Active(db, id) && SameTarget(db.jobs[id].conversion, c)
  }

  predicate AllAudio(segments: seq<Segment>) {
    forall i :: 0 <= i < |segments| ==> segments[i].audio.Some?
  }

  function Rows(segments: seq<Segment>): (rows: seq<Prepared>)
    ensures |rows| == |segments|
  {
    seq(|segments|, i requires 0 <= i < |segments| => segments[i].row)
  }

  function Raws(rows: seq<Prepared>): (raws: seq<Raw>)
    ensures |raws| == |rows|
  {
    seq(|rows|, i requires 0 <= i < |rows| => rows[i].raw)
  }

  function Plans(parts: seq<Part>): (plans: seq<PlannedPart>)
    ensures |plans| == |parts|
  {
    seq(|parts|, k requires 0 <= k < |parts| => parts[k].plan)
  }

  /** Characters of the first `n` segments that have their audio. */
  function ConsumedUpTo(segments: seq<Segment>, n: nat): nat
    requires n <= |segments|
  {
    if n == 0 then 0
    else ConsumedUpTo(segments, n - 1) + (if segments[n - 1].audio.Some? then segments[n - 1].row.raw.charCount else 0)
  }

  function Consumed(segments: seq<Segment>): nat {
    ConsumedUpTo(segments, |segments|)
  }

  /** The audio of the segments of one part, in order. */
  function PartAudioUpTo(segments: seq<Segment>, part: nat, n: nat): seq<Option<Audio>>
    requires n <= |segments|
  {
    if n == 0 then []
    else
      PartAudioUpTo(segments, part, n - 1)
      + (if segments[n - 1].row.partIndex == part then [segments[n - 1].audio] else [])
  }

  function PartAudio(segments: seq<Segment>, part: nat): seq<Option<Audio>> {
    PartAudioUpTo(segments, part, |segments|)
  }

  /** `a` was assembled from exactly the audio of the part's segments, none missing. */
  predicate AssembledFrom(segments: seq<Segment>, part: nat, a: Assembled) {
    && |a.sources| == |PartAudio(segments, part)|
    && (forall i :: 0 <= i < |a.sources| ==> PartAudio(segments, part)[i] == Some(a.sources[i]))
    && IsTimed(PartSegments(Rows(segments), part), a)
    && a.wordCount == |PlacedWords(PartSegments(Rows(segments), part))|
    && a.pageStarts == StartsOfPart(Rows(segments), part)
  }

  /** The rows of a part as they are heard. */
  function HeardSegments(rows: seq<Prepared>, sources: seq<Audio>, durationsMs: seq<nat>): (s: seq<TimelineSegment>)
    requires |sources| == |durationsMs| == |rows|
    ensures |s| == |rows|
  {
    seq(|rows|, i requires 0 <= i < |rows| =>
      TimelineSegment(rows[i].firstWordIndex, rows[i].raw.words, sources[i].timepoints, durationsMs[i]))
  }

  function TotalMs(durationsMs: seq<nat>): nat {
    if durationsMs == [] then 0 else TotalMs(durationsMs[..|durationsMs| - 1]) + durationsMs[|durationsMs| - 1]
  }

  /** The part lasts what its audio lasts, and its words are timed in it. */
  predicate IsTimed(rows: seq<Prepared>, a: Assembled) {
    && |a.sources| == |a.durationsMs| == |rows|
    && a.durationMs == TotalMs(a.durationsMs)
    && a.words == TimelineUpTo(HeardSegments(rows, a.sources, a.durationsMs), |rows|)
  }

  /** Segments as the preparation writes them: a plan, positions, and words in each. */
  predicate WellPrepared(rows: seq<Prepared>, plans: seq<PlannedPart>) {
    && rows != []
    && IsPlan(CharCounts(Raws(rows)), plans)
    && Positioned(Raws(rows), plans, rows)
    && forall i :: 0 <= i < |rows| ==> rows[i].raw.words != []
  }

  /** A part knows how many words come before its first segment. */
  predicate StartsAtWord(raws: seq<Raw>, part: Part) {
    part.plan.firstSegment < |raws| && part.firstWordIndex == WordsBefore(raws, part.plan.firstSegment)
  }

  predicate PartsPlaced(raws: seq<Raw>, parts: seq<Part>) {
    forall k :: 0 <= k < |parts| ==> StartsAtWord(raws, parts[k])
  }

  function BookOf(id: Id, c: Conversion): Book {
    Book(id, c.document, c.voice, c.textRevision)
  }

  // ---- the atomic steps on one conversion ----

  datatype Step =
    | MarkPreparing
    | CompletePreparation(rows: seq<Segment>, plan: seq<Part>)
    | CompleteSegment(index: nat, audio: Audio)
    | CloseSynthesis
    | CompletePart(part: nat, assembled: Assembled)
    | PutManifest(manifest: ConversionManifest)
    | MarkReady

  /** What the worker that takes a step has made sure of. */
  predicate SoundStep(id: Id, job: Job, step: Step) {
    match step
    case CompletePreparation(rows, plan) =>
      && WellPrepared(Rows(rows), Plans(plan)) && PartsPlaced(Raws(Rows(rows)), plan)
      && (forall i :: 0 <= i < |rows| ==> rows[i].audio.None?)
      && (forall k :: 0 <= k < |plan| ==> plan[k].assembled.None?)
    case CompletePart(part, assembled) => AssembledFrom(job.segments, part, assembled)
    case PutManifest(manifest) =>
      && (job.conversion.status == Synthesized || job.conversion.status == Ready)
      && AllAssembled(job.parts)
      && manifest == ManifestOf(BookOf(id, job.conversion), job.parts)
    case MarkReady => job.manifest.Some?
    case _ => true
  }

  function WithStatus(job: Job, status: Status): Job {
    job.(conversion := job.conversion.(status := status))
  }

  function AfterPreparation(job: Job, rows: seq<Segment>, plan: seq<Part>): Job {
    Job(job.conversion.(status := Synthesizing, segmentCount := Some(|rows|), partCount := Some(|plan|)), rows, plan,
        job.manifest)
  }

  function WithAudio(segments: seq<Segment>, index: nat, audio: Audio): seq<Segment>
    requires index < |segments|
  {
    segments[index := segments[index].(audio := Some(audio))]
  }

  function WithAssembled(parts: seq<Part>, part: nat, assembled: Assembled): seq<Part>
    requires part < |parts|
  {
    parts[part := parts[part].(assembled := Some(assembled))]
  }

  /** Each step tests its own condition where it writes; when that fails, it writes nothing. */
  function Next(job: Job, step: Step): Job {
    var status := job.conversion.status;
    match step
    case MarkPreparing =>
      if status == Queued || status == Preparing then WithStatus(job, Preparing) else job
    case CompletePreparation(rows, plan) =>
      if status == Preparing then AfterPreparation(job, rows, plan) else job
    case CompleteSegment(index, audio) =>
      if index < |job.segments| && job.segments[index].audio.None?
      then job.(segments := WithAudio(job.segments, index, audio)) else job
    case CloseSynthesis =>
      if status == Synthesizing && AllAudio(job.segments) then WithStatus(job, Synthesized) else job
    case CompletePart(part, assembled) =>
      if part < |job.parts| && job.parts[part].assembled.None?
      then job.(parts := WithAssembled(job.parts, part, assembled)) else job
    case PutManifest(manifest) => job.(manifest := Some(manifest))
    case MarkReady =>
      if status == Synthesized && AllAssembled(job.parts) then WithStatus(job, Ready) else job
  }

  function Failing(job: Job, reason: FailureReason): Job {
    job.(conversion := job.conversion.(status := Failed, failureReason := Some(reason)))
  }

  // ---- the atomic steps on the whole database ----

  datatype Action =
    | Start(id: Id, conversion: Conversion, now: Instant, period: Period)
    | Advance(id: Id, step: Step)
    | Fail(id: Id, reason: FailureReason)
    | Buy(grant: GrantRequest)

  /** New conversions and passes get fresh identifiers; the other steps are sound for their conversion. */
  predicate Sound(db: Db, a: Action) {
    match a
    case Start(id, c, _, _) =>
      && id !in db.jobs && FindReservation(db.ledger.reservations, id).None?
      && c == NewQueued(c.owner, c.document, c.voice, c.tier, c.textRevision, c.reservedChars)
      && c.reservedChars > 0
    case Advance(id, step) => id in db.jobs && SoundStep(id, db.jobs[id], step)
    case Fail(_, _) => true
    case Buy(q) => q.offer.Valid() && FindPass(db.ledger.passes, q.passId).None?
  }

  function ReserveRequestOf(id: Id, c: Conversion, now: Instant, period: Period): ReserveRequest {
    ReserveRequest(id, c.owner, c.reservedChars, c.tier, now, period)
  }

  /** Reservation and insertion together; a duplicate target rolls both back. */
  function AfterStart(db: Db, policy: Policy, id: Id, c: Conversion, now: Instant, period: Period): Db {
    var q := ReserveRequestOf(id, c, now, period);
    var outcome := ReserveResult(db.ledger, policy, q);
    if outcome.Reserved? || outcome.AlreadyReserved? then
      if HasActive(db, c) then db
      else Db(db.jobs[id := Job(c, [], [], None)], AfterReserve(db.ledger, policy, q))
    else db.(ledger := AfterReserve(db.ledger, policy, q))
  }

  /** `failed` and the refund of what was not consumed, in one transaction. */
  function AfterFail(db: Db, id: Id, reason: FailureReason): Db {
    if id in db.jobs && InProgress(db.jobs[id].conversion.status) then
      var job := db.jobs[id];
      Db(db.jobs[id := Failing(job, reason)],
         AfterRefund(db.ledger, id, job.conversion.reservedChars - Consumed(job.segments)))
    else db
  }

  /** A step that its worker had no right to take never happens. */
  function Apply(db: Db, policy: Policy, a: Action): Db {
    if !Sound(db, a) then db
    else
      match a
      case Start(id, c, now, period) => AfterStart(db, policy, id, c, now, period)
      case Advance(id, step) => db.(jobs := db.jobs[id := Next(db.jobs[id], step)])
      case Fail(id, reason) => AfterFail(db, id, reason)
      case Buy(q) => db.(ledger := AfterGrant(db.ledger, q))
  }

  /** The tables after the steps `actions`, whichever workers took them. */
  function Run(db: Db, policy: Policy, actions: seq<Action>): Db {
    if actions == [] then db else Apply(Run(db, policy, actions[..|actions| - 1]), policy, actions[|actions| - 1])
  }

  lemma RunOne(db: Db, policy: Policy, before: seq<Action>, a: Action)
    ensures Run(db, policy, before + [a]) == Apply(Run(db, policy, before), policy, a)
  {
    assert (before + [a])[..|before|] == before;
  }

  lemma {:induction false} RunConcat(db: Db, policy: Policy, before: seq<Action>, after: seq<Action>)
    ensures Run(db, policy, before + after) == Run(Run(db, policy, before), policy, after)
  {
    if after == [] {
      assert before + after == before;
    } else {
      var last := |after| - 1;
      assert before + after == (before + after[..last]) + [after[last]];
      RunConcat(db, policy, before, after[..last]);
      RunOne(db, policy, before + after[..last], after[last]);
    }
  }

  // ---- what every reachable state keeps ----

  ghost predicate PartsSound(segments: seq<Segment>, parts: seq<Part>) {
    forall k :: 0 <= k < |parts| && parts[k].assembled.Some? ==> AssembledFrom(segments, k, parts[k].assembled.value)
  }

  ghost predicate JobOk(id: Id, job: Job) {
    var status := job.conversion.status;
    && (status == Queued || status == Preparing ==> job.segments == [] && job.parts == [])
    && (status == Synthesizing || status == Synthesized || status == Ready ==> job.segments != [])
    && (job.segments == [] ==> job.parts == [])
    && (job.segments != [] ==>
        && WellPrepared(Rows(job.segments), Plans(job.parts)) && PartsSound(job.segments, job.parts)
        && PartsPlaced(Raws(Rows(job.segments)), job.parts))
    && (status == Synthesized || status == Ready ==> AllAudio(job.segments))
    && (status == Ready ==> job.manifest.Some?)
    && (job.manifest.Some? ==>
          && (status == Synthesized || status == Ready)
          && AllAssembled(job.parts)
          && job.manifest.value == ManifestOf(BookOf(id, job.conversion), job.parts))
    && (job.conversion.failureReason.Some? <==> status == Failed)
    && job.conversion.reservedChars > 0
  }

  ghost predicate JobsOk(db: Db) {
    forall id :: id in db.jobs ==> JobOk(id, db.jobs[id])
  }

  ghost predicate OneActive(db: Db) {
    forall a, b :: Active(db, a) && Active(db, b) && SameTarget(db.jobs[a].conversion, db.jobs[b].conversion) ==> a == b
  }

  predicate IsChargeOf(row: Reservation, id: Id, c: Conversion) {
    && row.id == id && row.user == c.owner && row.chars == c.reservedChars && row.tier == c.tier
    && (c.status != Failed ==> row.refundedChars.None?)
  }

  /** The conversion's own reservation: same user, characters and tier, refunded only by a failure. */
  ghost predicate Charged(rows: seq<Reservation>, id: Id, c: Conversion) {
    exists k :: 0 <= k < |rows| && IsChargeOf(rows[k], id, c)
  }

  ghost predicate ChargesOk(db: Db) {
    && (forall id :: id in db.jobs ==> Charged(db.ledger.reservations, id, db.jobs[id].conversion))
    && (forall k :: 0 <= k < |db.ledger.reservations| ==> db.ledger.reservations[k].id in db.jobs)
  }

  ghost predicate Inv(db: Db, policy: Policy) {
    LedgerInv(db.ledger, policy) && JobsOk(db) && OneActive(db) && ChargesOk(db)
  }
}
