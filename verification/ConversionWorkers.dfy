/**
 * The workers of the conversions, on the tables in place. Between two atomic
 * steps of a worker, `others` is whatever the other workers commit meanwhile.
 */
module ConversionWorkers {
  import opened Wrappers
  import opened Allocation
  import opened UnitsLedger
  import opened PartPlan
  import opened Words
  import opened Pipeline
  import opened PartTimeline
  import opened Manifest
  import opened ConversionState
  import S = ConversionState
  import opened ConversionInvariants
  import opened ConversionProperties

  /** What a worker reads of the document. */
  datatype SourceText = SourceText(textReady: bool, textRevision: nat)

  function UnusableReason(revision: nat, source: Option<SourceText>): Option<FailureReason> {
    if source.None? || !source.value.textReady then Some(SourceUnavailable)
    else if source.value.textRevision != revision then Some(TextChanged)
    else None
  }

  datatype StartSource = StartSource(document: string, textReady: bool, reviewPending: bool, charCount: int,
                                     textRevision: nat)

  datatype StartOutcome =
    | InvalidVoice | DocumentNotFound | TextNotReady | ReviewRequired | InvalidText
    | Existing(id: Id) | Created(id: Id) | Refused(reason: ReserveOutcome) | Conflict

  datatype PreparationOutcome = Planned(segmentCount: nat) | Resumed(pending: set<nat>)
    | PreparationFailed(reason: FailureReason) | NotPrepared

  /** Where the marks of a segment come from: the cache, the engine, or nowhere. */
  datatype Voiced = Voiced(marks: seq<Mark>, durationMs: nat, cacheHit: bool) | EngineRejected | EngineDown

  datatype SynthesisOutcome = SegmentDone(completed: bool) | Rejected | NotSynthesized | Interrupted

  datatype AssemblyOutcome = PartDone(durationMs: nat, ready: bool) | NotAssembled

  /** What is measured of each chunk. */
  function Measured(sources: seq<Audio>, duration: Audio -> nat): (durationsMs: seq<nat>)
    ensures |durationsMs| == |sources|
  {
    seq(|sources|, i requires 0 <= i < |sources| => duration(sources[i]))
  }

  // ---- stale reads stay true ----

  lemma {:induction false} PartAudioStays(a: seq<Segment>, b: seq<Segment>, part: nat, n: nat)
    requires |a| == |b| && n <= |a|
    requires forall i :: 0 <= i < |a| ==> b[i].row == a[i].row && (a[i].audio.Some? ==> b[i].audio == a[i].audio)
    requires forall i :: 0 <= i < |PartAudioUpTo(a, part, n)| ==> PartAudioUpTo(a, part, n)[i].Some?
    ensures PartAudioUpTo(b, part, n) == PartAudioUpTo(a, part, n)
  {
    if n > 0 {
      assert forall i :: 0 <= i < |PartAudioUpTo(a, part, n - 1)| ==>
        PartAudioUpTo(a, part, n - 1)[i] == PartAudioUpTo(a, part, n)[i];
      var all, front := PartAudioUpTo(a, part, n), PartAudioUpTo(a, part, n - 1);
      assert a[n - 1].row.partIndex == part ==> all[|all| - 1] == a[n - 1].audio;
      forall i | 0 <= i < |front| ensures front[i].Some? {
        assert front[i] == all[i];
      }
      PartAudioStays(a, b, part, n - 1);
    }
  }

  lemma RowsStay(a: Job, b: Job)
    requires Evolves(a, b) && a.segments != []
    ensures Rows(b.segments) == Rows(a.segments)
  {
  }

  /** What was assembled from a stale read of the segments is still sound when it is written. */
  lemma AssembledStays(a: Job, b: Job, part: nat, assembled: Assembled)
    requires Evolves(a, b) && a.segments != [] && AssembledFrom(a.segments, part, assembled)
    ensures AssembledFrom(b.segments, part, assembled)
  {
    RowsStay(a, b);
    PartAudioStays(a.segments, b.segments, part, |a.segments|);
  }

  lemma PartsStay(a: Job, b: Job)
    requires Evolves(a, b) && a.segments != [] && AllAssembled(a.parts)
    ensures b.parts == a.parts
  {
    assert forall k :: 0 <= k < |a.parts| ==> b.parts[k] == a.parts[k];
  }

  /** The manifest built from stale reads is the one of the state it is written in. */
  lemma ManifestStays(id: Id, a: Job, b: Job, book: Book)
    requires Evolves(a, b) && a.segments != [] && AllAssembled(a.parts) && book == BookOf(id, a.conversion)
    requires a.conversion.status == Synthesized || a.conversion.status == Ready
    ensures SoundStep(id, b, S.PutManifest(ManifestOf(book, a.parts)))
  {
    PartsStay(a, b);
  }

  // ---- the segments of one part ----

  /** The rows of one part, in order. */
  function PartSegs(segments: seq<Segment>, part: nat, n: nat): seq<Segment>
    requires n <= |segments|
  {
    if n == 0 then []
    else PartSegs(segments, part, n - 1) + (if segments[n - 1].row.partIndex == part then [segments[n - 1]] else [])
  }

  function AudioOf(segments: seq<Segment>): (audio: seq<Option<Audio>>)
    ensures |audio| == |segments|
  {
    seq(|segments|, i requires 0 <= i < |segments| => segments[i].audio)
  }

  lemma {:induction false} PartSegsAre(segments: seq<Segment>, part: nat, n: nat)
    requires n <= |segments|
    ensures Rows(PartSegs(segments, part, n)) == PartRows(Rows(segments), part, n)
    ensures AudioOf(PartSegs(segments, part, n)) == PartAudioUpTo(segments, part, n)
  {
    if n > 0 {
      PartSegsAre(segments, part, n - 1);
    }
  }

  lemma {:induction false} PartSegsAudio(segments: seq<Segment>, part: nat, n: nat)
    requires n <= |segments|
    ensures (forall i :: 0 <= i < n && segments[i].row.partIndex == part ==> segments[i].audio.Some?)
            <==> AllAudio(PartSegs(segments, part, n))
  {
    if n > 0 {
      var front, all := PartSegs(segments, part, n - 1), PartSegs(segments, part, n);
      PartSegsAudio(segments, part, n - 1);
      if AllAudio(front) && (segments[n - 1].row.partIndex == part ==> segments[n - 1].audio.Some?) {
      } else if !AllAudio(front) {
        var i :| 0 <= i < |front| && front[i].audio.None?;
        assert all[i].audio.None?;
      } else {
        assert all[|all| - 1].audio.None?;
      }
    }
  }

  /** The chunks that are joined: the audio of the rows, or nothing when one is missing. */
  method CollectAudio(rows: seq<Segment>) returns (sources: Option<seq<Audio>>)
    ensures sources.Some? <==> AllAudio(rows)
    ensures sources.Some? ==> |sources.value| == |rows| && forall i :: 0 <= i < |rows| ==>
              rows[i].audio == Some(sources.value[i])
  {
    var chunks := [];
    for i := 0 to |rows|
      invariant |chunks| == i && forall k :: 0 <= k < i ==> rows[k].audio == Some(chunks[k])
    {
      if rows[i].audio.None? {
        return None;
      }
      chunks := chunks + [rows[i].audio.value];
    }
    sources := Some(chunks);
  }

  /** The words of a part with their times, from its rows and the measured durations of its chunks. */
  method TimedWordsOf(rows: seq<Segment>, sources: seq<Audio>, durationsMs: seq<nat>) returns (words: seq<TimedWord>)
    requires |sources| == |durationsMs| == |rows|
    ensures words == TimelineUpTo(HeardSegments(Rows(rows), sources, durationsMs), |rows|)
    ensures Untimed(words) == PlacedWords(Rows(rows))
  {
    var segments := seq(|rows|, i requires 0 <= i < |rows| =>
      TimelineSegment(rows[i].row.firstWordIndex, rows[i].row.raw.words, sources[i].timepoints, durationsMs[i]));
    words := BuildPartTimeline(segments);
    assert segments == HeardSegments(Rows(rows), sources, durationsMs);
    TimelineIsPlaced(segments, Rows(rows), |rows|);
  }

  /** What the assembly stores is what its part calls for. */
  lemma AssembledAsRead(segments: seq<Segment>, part: nat, assembled: Assembled)
    requires var rows := PartSegs(segments, part, |segments|);
             && |assembled.sources| == |rows|
             && (forall i :: 0 <= i < |rows| ==> rows[i].audio == Some(assembled.sources[i]))
             && IsTimed(Rows(rows), assembled) && Untimed(assembled.words) == PlacedWords(Rows(rows))
    requires assembled.wordCount == |assembled.words|
    requires assembled.pageStarts == PageStarts(Untimed(assembled.words), LastPageBefore(Rows(segments), part))
    ensures AssembledFrom(segments, part, assembled)
  {
    var rows := PartSegs(segments, part, |segments|);
    PartSegsAre(segments, part, |segments|);
    forall i | 0 <= i < |rows| ensures PartAudio(segments, part)[i] == Some(assembled.sources[i]) {
      assert AudioOf(rows)[i] == rows[i].audio;
    }
  }

  /** A segment that still needs its audio, in a conversion that is being synthesized. */
  predicate ToSynthesize(jobs: map<Id, Job>, id: Id, index: nat) {
    && id in jobs && jobs[id].conversion.status == Synthesizing
    && index < |jobs[id].segments| && jobs[id].segments[index].audio.None?
  }

  /** The audio of a segment as the engine gave it: each word has the time of its own mark. */
  predicate IsVoiced(audio: Audio, segment: Segment, voiced: Voiced)
    requires voiced.Voiced?
  {
    && audio.key == segment.fingerprint
    && audio.durationMs == voiced.durationMs && audio.cacheHit == voiced.cacheHit
    && |audio.timepoints| == |segment.row.raw.words|
    && forall i :: 0 <= i < |audio.timepoints| ==> audio.timepoints[i] == TimeOf(voiced.marks, MarkName(i))
  }

  /** The segment is there and has no audio. */
  predicate LacksAudio(db: Db, id: Id, index: nat) {
    id in db.jobs && index < |db.jobs[id].segments| && db.jobs[id].segments[index].audio.None?
  }

  /** Step `k` of the history stores the audio of this segment. */
  predicate StoresAt(history: seq<Action>, k: nat, id: Id, index: nat) {
    k < |history| && history[k].Advance? && history[k].id == id
    && history[k].step.CompleteSegment? && history[k].step.index == index
  }

  /**
   * Step `k` of the history stores what was assembled of this part, from the
   * measured audio of its segments; `held` is that, if the part had nothing then.
   */
  ghost predicate StoresPart(policy: Policy, history: seq<Action>, k: nat, id: Id, part: nat, duration: Audio -> nat,
                             durationMs: nat, held: Option<Assembled>) {
    && k < |history| && history[k].Advance? && history[k].id == id
    && history[k].step.CompletePart? && history[k].step.part == part
    && StoresAssembled(Run(EmptyDb, policy, history[..k]), id, part, history[k].step.assembled, duration, durationMs,
                       held)
  }

  ghost predicate StoresAssembled(db: Db, id: Id, part: nat, a: Assembled, duration: Audio -> nat, durationMs: nat,
                                  held: Option<Assembled>) {
    && id in db.jobs && AssembledFrom(db.jobs[id].segments, part, a)
    && a.durationsMs == Measured(a.sources, duration) && a.durationMs == durationMs
    && (part < |db.jobs[id].parts| && db.jobs[id].parts[part].assembled.None? ==> held == Some(a))
  }

  /** A conversion whose parts may be assembled. */
  predicate IsAssemblable(jobs: map<Id, Job>, id: Id) {
    id in jobs && (jobs[id].conversion.status == Synthesizing || jobs[id].conversion.status == Synthesized)
  }

  /** The part is there, and it is assembled already or all its segments have their audio. */
  predicate IsPartReady(job: Job, part: nat) {
    part < |job.parts| && (job.parts[part].assembled.Some? || PartHasAudio(job.segments, part))
  }

  /**
   * After `before` a conversion that is synthesized with every part assembled
   * gets its manifest and becomes ready, if nothing else happened to it; any
   * other stays as it is.
   */
  ghost predicate FinalizesAs(policy: Policy, before: seq<Action>, after: seq<Action>, id: Id,
                              others: (seq<Action>, seq<Action>, seq<Action>), ready: bool) {
    var db, mid := Run(EmptyDb, policy, before), Run(EmptyDb, policy, before + others.0);
    && id in db.jobs
    && if db.jobs[id].conversion.status != Synthesized then after == before && !ready
       else if id !in mid.jobs || !AllAssembled(mid.jobs[id].parts) then after == before + others.0 && !ready
       else
         var manifest := ManifestOf(BookOf(id, db.jobs[id].conversion), mid.jobs[id].parts);
         && after == before + others.0 + others.1 + [Advance(id, S.PutManifest(manifest))] + others.2
                     + [Advance(id, MarkReady)]
         && (ready <==> IsFinished(Run(EmptyDb, policy, after[..|after| - 1]), id))
  }

  predicate IsFinished(db: Db, id: Id) {
    id in db.jobs && db.jobs[id].conversion.status == Synthesized && AllAssembled(db.jobs[id].parts)
  }

  lemma StoredStill(policy: Policy, before: seq<Action>, after: seq<Action>, k: nat, id: Id, part: nat,
                    duration: Audio -> nat, durationMs: nat, held: Option<Assembled>)
    requires before <= after && StoresPart(policy, before, k, id, part, duration, durationMs, held)
    ensures StoresPart(policy, after, k, id, part, duration, durationMs, held)
  {
    hide StoresAssembled;
    assert after[..k] == before[..k] && after[k] == before[k];
  }

  /** A segment that has its audio, in a conversion that is still being synthesized. */
  predicate HasVoice(jobs: map<Id, Job>, id: Id, index: nat) {
    && id in jobs && jobs[id].conversion.status == Synthesizing
    && index < |jobs[id].segments| && jobs[id].segments[index].audio.Some?
  }

  /** Every segment has its audio and the synthesis still runs. */
  predicate Closes(db: Db, id: Id) {
    id in db.jobs && db.jobs[id].conversion.status == Synthesizing && PendingSegments(db.jobs[id]) == {}
  }

  /** The part is assembled next when none of its segments lacks its audio. */
  function PartToAssemble(segments: seq<Segment>, part: nat): Option<nat> {
    if PartHasAudio(segments, part) then Some(part) else None
  }

  predicate PartHasAudio(segments: seq<Segment>, part: nat) {
    forall i :: 0 <= i < |segments| && segments[i].row.partIndex == part ==> segments[i].audio.Some?
  }

  /** What stays of a segment: its row, and its audio once it has one. */
  predicate SegmentsKept(a: Job, b: Job) {
    && |b.segments| == |a.segments|
    && forall i :: 0 <= i < |a.segments| ==>
      b.segments[i].row == a.segments[i].row
      && (a.segments[i].audio.Some? ==> b.segments[i].audio == a.segments[i].audio)
  }

  lemma LaterSegments(policy: Policy, before: seq<Action>, after: seq<Action>, id: Id)
    requires before <= after && id in Run(EmptyDb, policy, before).jobs
             && Run(EmptyDb, policy, before).jobs[id].segments != []
    ensures id in Run(EmptyDb, policy, after).jobs
    ensures SegmentsKept(Run(EmptyDb, policy, before).jobs[id], Run(EmptyDb, policy, after).jobs[id])
  {
    Later(policy, before, after, id);
  }

  /** Parts come with segments. */
  lemma PartsHaveSegments(policy: Policy, actions: seq<Action>, id: Id)
    requires id in Run(EmptyDb, policy, actions).jobs && Run(EmptyDb, policy, actions).jobs[id].parts != []
    ensures Run(EmptyDb, policy, actions).jobs[id].segments != []
  {
    ReachableJob(policy, actions, id);
  }

  /** Neither parts nor segments are ever taken back. */
  lemma LaterParts(policy: Policy, before: seq<Action>, after: seq<Action>, id: Id)
    requires before <= after && id in Run(EmptyDb, policy, before).jobs
    ensures id in Run(EmptyDb, policy, after).jobs
    ensures var a, b := Run(EmptyDb, policy, before).jobs[id], Run(EmptyDb, policy, after).jobs[id];
            a.segments != [] ==>
              && b.segments != [] && |b.parts| == |a.parts|
              && forall k :: 0 <= k < |a.parts| && a.parts[k].assembled.Some? ==>
                   b.parts[k].assembled == a.parts[k].assembled
  {
    Later(policy, before, after, id);
  }

  lemma LaterManifest(policy: Policy, before: seq<Action>, after: seq<Action>, id: Id, book: Book)
    requires before <= after && id in Run(EmptyDb, policy, before).jobs
    requires var a := Run(EmptyDb, policy, before).jobs[id];
             && a.segments != [] && AllAssembled(a.parts) && book == BookOf(id, a.conversion)
             && (a.conversion.status == Synthesized || a.conversion.status == Ready)
    ensures id in Run(EmptyDb, policy, after).jobs
    ensures SoundStep(id, Run(EmptyDb, policy, after).jobs[id],
                      S.PutManifest(ManifestOf(book, Run(EmptyDb, policy, before).jobs[id].parts)))
  {
    Later(policy, before, after, id);
    ManifestStays(id, Run(EmptyDb, policy, before).jobs[id], Run(EmptyDb, policy, after).jobs[id], book);
  }

  lemma LaterAssembled(policy: Policy, before: seq<Action>, after: seq<Action>, id: Id, part: nat, assembled: Assembled)
    requires before <= after && id in Run(EmptyDb, policy, before).jobs
    requires var a := Run(EmptyDb, policy, before).jobs[id];
             a.segments != [] && AssembledFrom(a.segments, part, assembled)
    ensures id in Run(EmptyDb, policy, after).jobs
    ensures AssembledFrom(Run(EmptyDb, policy, after).jobs[id].segments, part, assembled)
  {
    Later(policy, before, after, id);
    AssembledStays(Run(EmptyDb, policy, before).jobs[id], Run(EmptyDb, policy, after).jobs[id], part, assembled);
  }

  lemma LaterRows(policy: Policy, before: seq<Action>, after: seq<Action>, id: Id)
    requires before <= after && id in Run(EmptyDb, policy, before).jobs
             && Run(EmptyDb, policy, before).jobs[id].segments != []
    ensures id in Run(EmptyDb, policy, after).jobs
    ensures Rows(Run(EmptyDb, policy, after).jobs[id].segments) == Rows(Run(EmptyDb, policy, before).jobs[id].segments)
  {
    Later(policy, before, after, id);
    RowsStay(Run(EmptyDb, policy, before).jobs[id], Run(EmptyDb, policy, after).jobs[id]);
  }

  /** A manifest that was written stays there. */
  lemma LaterHasManifest(policy: Policy, before: seq<Action>, after: seq<Action>, id: Id)
    requires before <= after && id in Run(EmptyDb, policy, before).jobs
             && Run(EmptyDb, policy, before).jobs[id].manifest.Some?
    ensures id in Run(EmptyDb, policy, after).jobs
    ensures var job := Run(EmptyDb, policy, after).jobs[id];
            job.manifest.Some? && AllAssembled(job.parts)
              && (job.conversion.status == Synthesized || job.conversion.status == Ready)
  {
    Later(policy, before, after, id);
    ReachableJob(policy, after, id);
  }

  /** A voice and a document that are known, with a text that is ready, reviewed and not empty. */
  predicate IsStartable(voice: Option<(string, VoiceTier)>, source: Option<StartSource>) {
    && voice.Some? && source.Some?
    && source.value.textReady && !source.value.reviewPending && source.value.charCount > 0
  }

  /** A conversion of that target that has not failed. */
  predicate HasTarget(jobs: map<Id, Job>, document: string, voice: string, revision: nat) {
    exists id :: id in jobs && jobs[id].conversion.status != Failed
                 && IsTarget(jobs[id].conversion, document, voice, revision)
  }

  /**
   * A launch with no active conversion of its target: refused as the
   * reservation was, created, or rolled back because another launch of the
   * target was faster; then that one, or nothing if it has failed meanwhile.
   */
  ghost predicate LaunchesAs(policy: Policy, before: seq<Action>, after: seq<Action>, a: Action,
                             others: (seq<Action>, seq<Action>), outcome: StartOutcome)
    requires a.Start?
  {
    var mid, c := Run(EmptyDb, policy, before + others.0), a.conversion;
    var reserved := ReserveResult(mid.ledger, policy, ReserveRequestOf(a.id, c, a.now, a.period));
    if !reserved.Reserved? then after == before + others.0 + [a] && outcome == Refused(reserved)
    else if !HasTarget(mid.jobs, c.document, c.voice, c.textRevision) then
      after == before + others.0 + [a] && outcome == Created(a.id)
    else
      && after == before + others.0 + [a] + others.1
      && if HasTarget(Run(EmptyDb, policy, after).jobs, c.document, c.voice, c.textRevision) then outcome.Existing?
         else outcome == Conflict
  }

  predicate IsTarget(c: Conversion, document: string, voice: string, revision: nat) {
    c.document == document && c.voice == voice && c.textRevision == revision
  }

  function Launch(id: Id, owner: UserId, voice: (string, VoiceTier), source: StartSource, now: Instant,
                  period: Period): (a: Action)
    requires source.charCount > 0
    ensures a.Start?
  {
    Start(id, NewQueued(owner, source.document, voice.0, voice.1, source.textRevision, source.charCount), now, period)
  }

  /** Between two moments, only steps of `foreign` failed a conversion. */
  predicate FailsOnlyIn(before: seq<Action>, after: seq<Action>, foreign: seq<Action>) {
    forall k :: |before| <= k < |after| && after[k].Fail? ==> after[k] in foreign
  }

  lemma OwnStepsDoNotFail(before: seq<Action>, first: seq<Action>, step: Action, second: seq<Action>, last: Action)
    requires !step.Fail? && !last.Fail?
    ensures FailsOnlyIn(before, before + first + ([step] + second + [last]), first + second)
    ensures FailsOnlyIn(before, before + first + (second + [last]), first + second)
  {
  }

  lemma StartIsNew(db: Db, a: Action)
    requires a.Start? && Sound(db, a)
    ensures a.id !in db.jobs && FindReservation(db.ledger.reservations, a.id).None?
  {
  }

  /** The partial unique index and the query speak of the same conversions. */
  lemma TargetIsActive(db: Db, c: Conversion)
    ensures HasActive(db, c) <==> HasTarget(db.jobs, c.document, c.voice, c.textRevision)
  {
    if HasTarget(db.jobs, c.document, c.voice, c.textRevision) {
      var id :| id in db.jobs && db.jobs[id].conversion.status != Failed
        && IsTarget(db.jobs[id].conversion, c.document, c.voice, c.textRevision);
      assert Active(db, id);
    }
  }

  /** A new conversion has no reservation yet. */
  lemma FirstReservation(t: Tables, policy: Policy, q: ReserveRequest)
    requires FindReservation(t.reservations, q.id).None?
    ensures !ReserveResult(t, policy, q).AlreadyReserved?
  {
  }

  /** The first reason not to prepare, in the order the worker meets them. */
  function Unpreparable(revision: nat, before: Option<SourceText>, raws: seq<Raw>,
                        after: Option<SourceText>): Option<FailureReason> {
    if UnusableReason(revision, before).Some? then UnusableReason(revision, before)
    else if UnusableReason(revision, after).Some? then UnusableReason(revision, after)
    else if raws == [] then Some(EmptyText)
    else None
  }

  /** The step that writes these segments, each with its fingerprint. */
  predicate WritesRows(a: Action, id: Id, raws: seq<Raw>, fingerprint: Text -> string) {
    && a.Advance? && a.id == id && a.step.CompletePreparation? && Raws(Rows(a.step.rows)) == raws
    && forall i :: 0 <= i < |raws| ==> a.step.rows[i].fingerprint == fingerprint(raws[i].ssml)
  }

  /** A planned part starts at the position of its first segment. */
  function PlannedRow(part: PlannedPart, prepared: seq<Prepared>): Part {
    Part(part, if part.firstSegment < |prepared| then prepared[part.firstSegment].firstWordIndex else 0, None)
  }

  lemma PlannedRowStarts(raws: seq<Raw>, parts: seq<PlannedPart>, prepared: seq<Prepared>, k: nat)
    requires Positioned(raws, parts, prepared) && k < |parts|
    ensures StartsAtWord(raws, PlannedRow(parts[k], prepared))
  {
    var first := parts[k].firstSegment;
    assert PositionedAt(raws, parts, prepared[first], first);
  }

  lemma RawsOfPrepared(raws: seq<Raw>, parts: seq<PlannedPart>, prepared: seq<Prepared>)
    requires Positioned(raws, parts, prepared)
    ensures Raws(prepared) == raws
  {
    forall i | 0 <= i < |raws| ensures prepared[i].raw == raws[i] {
      assert PositionedAt(raws, parts, prepared[i], i);
    }
  }

  /** The rows of a prepared text: its segments, positioned, and the parts that hold them. */
  method RowsAndPlan(raws: seq<Raw>, fingerprint: Text -> string) returns (rows: seq<Segment>, plan: seq<Part>)
    requires raws != [] && forall i :: 0 <= i < |raws| ==> raws[i].words != []
    ensures Raws(Rows(rows)) == raws && WellPrepared(Rows(rows), Plans(plan))
    ensures |rows| == |raws| && forall i :: 0 <= i < |rows| ==>
              rows[i].audio.None? && rows[i].fingerprint == fingerprint(raws[i].ssml)
    ensures forall k :: 0 <= k < |plan| ==> plan[k].assembled.None? && StartsAtWord(raws, plan[k])
  {
    hide StartsAtWord, IsPlan, Positioned;
    var parts, prepared := Position(raws);
    rows := seq(|raws|, i requires 0 <= i < |raws| => Segment(prepared[i], fingerprint(raws[i].ssml), None));
    plan := seq(|parts|, k requires 0 <= k < |parts| => PlannedRow(parts[k], prepared));
    assert Rows(rows) == prepared;
    assert Plans(plan) == parts;
    RawsOfPrepared(raws, parts, prepared);
    forall k | 0 <= k < |plan| ensures StartsAtWord(raws, plan[k]) {
      PlannedRowStarts(raws, parts, prepared, k);
    }
  }

  /** A conversion of an earlier state, later in the same history. */
  lemma Later(policy: Policy, before: seq<Action>, after: seq<Action>, id: Id)
    requires before <= after && id in Run(EmptyDb, policy, before).jobs
    ensures id in Run(EmptyDb, policy, after).jobs
    ensures Evolves(Run(EmptyDb, policy, before).jobs[id], Run(EmptyDb, policy, after).jobs[id])
  {
    var since := after[|before|..];
    assert after == before + since;
    Reachable(policy, before);
    RunConcat(EmptyDb, policy, before, since);
    RunEvolves(Run(EmptyDb, policy, before), policy, since, id);
  }

  lemma LaterStatus(policy: Policy, before: seq<Action>, after: seq<Action>, id: Id)
    requires before <= after && id in Run(EmptyDb, policy, before).jobs
    ensures id in Run(EmptyDb, policy, after).jobs
    ensures var c, d :=
            Run(EmptyDb, policy, before).jobs[id].conversion, Run(EmptyDb, policy, after).jobs[id].conversion;
            SameConversion(c, d) && CanBecome(c.status, d.status)
  {
    Later(policy, before, after, id);
  }

  lemma NoPending(job: Job)
    ensures PendingSegments(job) == {} <==> AllAudio(job.segments)
  {
    forall i | 0 <= i < |job.segments| ensures i in PendingSegments(job) <==> job.segments[i].audio.None? {
    }
  }

  class ConversionTables {
    const policy: Policy
    var jobs: map<Id, Job>
    var ledger: Tables

    /** Every step taken so far, by whichever worker. */
    ghost var history: seq<Action>

    function Snapshot(): Db
      reads this
    {
      Db(jobs, ledger)
    }

    /** The tables are in a reachable state. */
    ghost predicate Valid()
      reads this
    {
      Snapshot() == Run(EmptyDb, policy, history)
    }

    constructor (policy: Policy)
      ensures Valid() && this.policy == policy && history == []
    {
      this.policy := policy;
      jobs, ledger, history := map[], NoRows, [];
    }

    /** What the other workers commit between two steps of this one. */
    method Others(actions: seq<Action>)
      requires Valid()
      modifies this
      ensures Valid() && history == old(history) + actions && Snapshot() == Run(old(Snapshot()), policy, actions)
    {
      RunConcat(EmptyDb, policy, history, actions);
      var after := Run(Snapshot(), policy, actions);
      jobs, ledger := after.jobs, after.ledger;
      history := history + actions;
    }

    // ---- the conditional writes ----

    method MarkPreparing(id: Id) returns (updated: bool)
      requires Valid()
      modifies this
      ensures Valid() && history == old(history) + [Advance(id, S.MarkPreparing)]
      ensures Snapshot() == Apply(old(Snapshot()), policy, Advance(id, S.MarkPreparing))
      ensures updated <==> id in jobs && jobs[id].conversion.status == Preparing
    {
      RunOne(EmptyDb, policy, history, Advance(id, S.MarkPreparing));
      history := history + [Advance(id, S.MarkPreparing)];
      if id !in jobs {
        return false;
      }
      var c := jobs[id].conversion;
      updated := c.status == Queued || c.status == Preparing;
      if updated {
        jobs := jobs[id := jobs[id].(conversion := c.(status := Preparing))];
      }
    }

    method CompletePreparation(id: Id, rows: seq<Segment>, plan: seq<Part>) returns (updated: bool)
      requires Valid() && id in jobs && SoundStep(id, jobs[id], S.CompletePreparation(rows, plan))
      modifies this
      ensures Valid() && history == old(history) + [Advance(id, S.CompletePreparation(rows, plan))]
      ensures Snapshot() == Apply(old(Snapshot()), policy, Advance(id, S.CompletePreparation(rows, plan)))
      ensures updated <==> old(jobs)[id].conversion.status == Preparing
    {
      hide SoundStep;
      RunOne(EmptyDb, policy, history, Advance(id, S.CompletePreparation(rows, plan)));
      history := history + [Advance(id, S.CompletePreparation(rows, plan))];
      var job := jobs[id];
      if job.conversion.status != Preparing {
        return false;
      }
      var c := job.conversion.(status := Synthesizing, segmentCount := Some(|rows|), partCount := Some(|plan|));
      jobs := jobs[id := job.(conversion := c, segments := rows, parts := plan)];
      updated := true;
    }

    method CompleteSegment(id: Id, index: nat, audio: Audio) returns (updated: bool)
      requires Valid()
      modifies this
      ensures Valid() && history == old(history) + [Advance(id, S.CompleteSegment(index, audio))]
      ensures Snapshot() == Apply(old(Snapshot()), policy, Advance(id, S.CompleteSegment(index, audio)))
      ensures updated <==>
                id in old(jobs) && index < |old(jobs)[id].segments| && old(jobs)[id].segments[index].audio.None?
    {
      RunOne(EmptyDb, policy, history, Advance(id, S.CompleteSegment(index, audio)));
      history := history + [Advance(id, S.CompleteSegment(index, audio))];
      if id !in jobs || index >= |jobs[id].segments| || jobs[id].segments[index].audio.Some? {
        return false;
      }
      var segments := jobs[id].segments;
      jobs := jobs[id := jobs[id].(segments := segments[index := segments[index].(audio := Some(audio))])];
      updated := true;
    }

    method CompleteIfAllSegmentsSynthesized(id: Id) returns (updated: bool)
      requires Valid()
      modifies this
      ensures Valid() && history == old(history) + [Advance(id, CloseSynthesis)]
      ensures Snapshot() == Apply(old(Snapshot()), policy, Advance(id, CloseSynthesis))
      ensures updated <==>
                && id in old(jobs) && old(jobs)[id].conversion.status == Synthesizing
                && PendingSegments(old(jobs)[id]) == {}
    {
      RunOne(EmptyDb, policy, history, Advance(id, CloseSynthesis));
      history := history + [Advance(id, CloseSynthesis)];
      if id !in jobs {
        return false;
      }
      NoPending(jobs[id]);
      if jobs[id].conversion.status != Synthesizing || PendingSegments(jobs[id]) != {} {
        return false;
      }
      jobs := jobs[id := jobs[id].(conversion := jobs[id].conversion.(status := Synthesized))];
      updated := true;
    }

    method CompletePart(id: Id, part: nat, assembled: Assembled) returns (updated: bool)
      requires Valid() && id in jobs && AssembledFrom(jobs[id].segments, part, assembled)
      modifies this
      ensures Valid() && history == old(history) + [Advance(id, S.CompletePart(part, assembled))]
      ensures Snapshot() == Apply(old(Snapshot()), policy, Advance(id, S.CompletePart(part, assembled)))
      ensures updated <==> part < |old(jobs)[id].parts| && old(jobs)[id].parts[part].assembled.None?
    {
      RunOne(EmptyDb, policy, history, Advance(id, S.CompletePart(part, assembled)));
      history := history + [Advance(id, S.CompletePart(part, assembled))];
      var parts := jobs[id].parts;
      if part >= |parts| || parts[part].assembled.Some? {
        return false;
      }
      jobs := jobs[id := jobs[id].(parts := parts[part := parts[part].(assembled := Some(assembled))])];
      updated := true;
    }

    /** The manifest goes to the object storage: a plain write, whatever is there. */
    method PutManifest(id: Id, manifest: ConversionManifest)
      requires Valid() && id in jobs && SoundStep(id, jobs[id], S.PutManifest(manifest))
      modifies this
      ensures Valid() && history == old(history) + [Advance(id, S.PutManifest(manifest))]
      ensures Snapshot() == Apply(old(Snapshot()), policy, Advance(id, S.PutManifest(manifest)))
    {
      RunOne(EmptyDb, policy, history, Advance(id, S.PutManifest(manifest)));
      history := history + [Advance(id, S.PutManifest(manifest))];
      jobs := jobs[id := jobs[id].(manifest := Some(manifest))];
    }

    method MarkReadyIfAllPartsAssembled(id: Id) returns (updated: bool)
      requires Valid() && id in jobs && jobs[id].manifest.Some?
      modifies this
      ensures Valid() && history == old(history) + [Advance(id, MarkReady)]
      ensures Snapshot() == Apply(old(Snapshot()), policy, Advance(id, MarkReady))
      ensures updated <==> old(jobs)[id].conversion.status == Synthesized && AllAssembled(old(jobs)[id].parts)
    {
      RunOne(EmptyDb, policy, history, Advance(id, MarkReady));
      history := history + [Advance(id, MarkReady)];
      var job := jobs[id];
      updated := job.conversion.status == Synthesized && forall k :: 0 <= k < |job.parts| ==>
        job.parts[k].assembled.Some?;
      if updated {
        jobs := jobs[id := job.(conversion := job.conversion.(status := Ready))];
      }
    }

    /** `failed` and the refund of what was not consumed, in one transaction. */
    method FailConversion(id: Id, reason: FailureReason) returns (failed: bool)
      requires Valid()
      modifies this
      ensures Valid() && history == old(history) + [S.Fail(id, reason)]
      ensures Snapshot() == Apply(old(Snapshot()), policy, S.Fail(id, reason))
      ensures failed <==> id in old(jobs) && InProgress(old(jobs)[id].conversion.status)
    {
      hide AfterRefund, Consumed, SoundStep, Next, AfterStart;
      RunOne(EmptyDb, policy, history, S.Fail(id, reason));
      history := history + [S.Fail(id, reason)];
      if id !in jobs || !InProgress(jobs[id].conversion.status) {
        return false;
      }
      var job := jobs[id];
      jobs := jobs[id := job.(conversion := job.conversion.(status := Failed, failureReason := Some(reason)))];
      ledger := AfterRefund(ledger, id, job.conversion.reservedChars - Consumed(job.segments));
      failed := true;
    }

    // ---- start ----

    method FindActive(document: string, voice: string, revision: nat) returns (found: Option<Id>)
      ensures found.Some? ==>
                found.value in jobs && Active(Snapshot(), found.value)
                && IsTarget(jobs[found.value].conversion, document, voice, revision)
      ensures found.None? ==> forall id :: id in jobs && Active(Snapshot(), id) ==>
                !IsTarget(jobs[id].conversion, document, voice, revision)
      ensures found.Some? <==> HasTarget(jobs, document, voice, revision)
    {
      var matches := set id | id in jobs && jobs[id].conversion.status != S.Failed
        && IsTarget(jobs[id].conversion, document, voice, revision);
      if matches == {} {
        forall id | id in jobs && Active(Snapshot(), id)
          ensures !IsTarget(jobs[id].conversion, document, voice, revision) {
          assert id !in matches;
        }
        return None;
      }
      var id :| id in matches;
      found := Some(id);
    }

    /** The launch itself, once there is no active conversion of the target: `others.1` goes on after a lost race. */
    method LaunchOnce(a: Action, others: (seq<Action>, seq<Action>)) returns (outcome: StartOutcome)
      requires Valid() && a.Start?
      requires Sound(Run(EmptyDb, policy, history + others.0), a)
      modifies this
      ensures Valid() && old(history) <= history
      ensures LaunchesAs(policy, old(history), history, a, others, outcome)
      ensures outcome.Created? ==>
                && outcome.id == a.id && history == old(history) + others.0 + [a]
                && a.id in jobs && jobs[a.id] == Job(a.conversion, [], [], None)
      ensures outcome.Existing? ==>
                && outcome.id in jobs && Active(Snapshot(), outcome.id)
                && SameTarget(jobs[outcome.id].conversion, a.conversion)
      ensures outcome.Refused? ==> !outcome.reason.Reserved? && a.id !in jobs
      ensures outcome.Created? || outcome.Existing? || outcome.Refused? || outcome.Conflict?
    {
      hide Sound, ReserveResult, Apply, Run;
      ghost var start := history;
      var c := a.conversion;
      Others(others.0);
      StartIsNew(Snapshot(), a);
      assert Snapshot() == Run(EmptyDb, policy, start + others.0);
      var reserved := ReserveResult(ledger, policy, ReserveRequestOf(a.id, c, a.now, a.period));
      ghost var mid := jobs;
      var conflict := InsertReserved(a, reserved);
      TargetIsActive(Db(mid, ledger), c);
      if conflict {
        Others(others.1);
        assert Snapshot() == Run(EmptyDb, policy, history);
        var winner := FindActive(c.document, c.voice, c.textRevision);
        return if winner.Some? then Existing(winner.value) else Conflict;
      }
      if !reserved.Reserved? { return Refused(reserved); }
      outcome := Created(a.id);
    }

    /**
     * Reservation and insertion in one transaction, or neither. `id` is the new
     * identifier; `others.0` commits before the transaction, `others.1` after it.
     */
    method StartConversion(id: Id, owner: UserId, voice: Option<(string, VoiceTier)>, source: Option<StartSource>,
                           now: Instant, period: Period, others: (seq<Action>, seq<Action>))
      returns (outcome: StartOutcome)
      requires Valid()
      requires var mid := Run(Snapshot(), policy, others.0);
               id !in mid.jobs && FindReservation(mid.ledger.reservations, id).None?
      modifies this
      ensures Valid() && old(history) <= history
      ensures outcome.Created? ==>
                && outcome.id == id && voice.Some? && source.Some? && source.value.textReady
                && !source.value.reviewPending
                && source.value.charCount > 0
                && history == old(history) + others.0 + [Launch(id, owner, voice.value, source.value, now, period)]
                && id in jobs
                && jobs[id] == Job(Launch(id, owner, voice.value, source.value, now, period).conversion, [], [], None)
      ensures outcome.Existing? ==>
                && voice.Some? && source.Some? && outcome.id in jobs && Active(Snapshot(), outcome.id)
                && IsTarget(jobs[outcome.id].conversion, source.value.document, voice.value.0,
                            source.value.textRevision)
      ensures outcome.Refused? ==> !outcome.reason.Reserved? && id !in jobs
      ensures outcome == InvalidVoice <==> voice.None?
      ensures outcome == DocumentNotFound <==> voice.Some? && source.None?
      ensures outcome == TextNotReady <==> voice.Some? && source.Some? && !source.value.textReady
      ensures outcome == ReviewRequired <==>
                voice.Some? && source.Some? && source.value.textReady && source.value.reviewPending
      ensures outcome == InvalidText <==>
                && voice.Some? && source.Some? && source.value.textReady && !source.value.reviewPending
                && source.value.charCount <= 0
      ensures !IsStartable(voice, source) ==> history == old(history)
      ensures IsStartable(voice, source) ==>
                var (s, v) := (source.value, voice.value);
                if HasTarget(old(jobs), s.document, v.0, s.textRevision)
                then outcome.Existing? && history == old(history)
                else LaunchesAs(policy, old(history), history, Launch(id, owner, v, s, now, period), others, outcome)
    {
      if voice.None? { return InvalidVoice; }
      if source.None? { return DocumentNotFound; }
      var s := source.value;
      if !s.textReady { return TextNotReady; }
      if s.reviewPending { return ReviewRequired; }
      if s.charCount <= 0 { return InvalidText; }
      var existing := FindActive(s.document, voice.value.0, s.textRevision);
      if existing.Some? { return Existing(existing.value); }
      hide LaunchesAs, HasTarget, ReserveResult;
      RunConcat(EmptyDb, policy, history, others.0);
      outcome := LaunchOnce(Launch(id, owner, voice.value, s, now, period), others);
    }

    /** The transaction: a duplicate target rolls the reservation back. */
    method InsertReserved(a: Action, reserved: ReserveOutcome) returns (conflict: bool)
      requires Valid() && a.Start? && Sound(Snapshot(), a)
      requires reserved == ReserveResult(ledger, policy, ReserveRequestOf(a.id, a.conversion, a.now, a.period))
      modifies this
      ensures Valid() && history == old(history) + [a]
      ensures Snapshot() == Apply(old(Snapshot()), policy, a)
      ensures conflict <==> reserved.Reserved? && HasActive(old(Snapshot()), a.conversion)
      ensures reserved.Reserved? && !conflict ==> a.id in jobs && jobs[a.id] == Job(a.conversion, [], [], None)
      ensures !reserved.Reserved? ==> jobs == old(jobs)
    {
      hide AfterReserve, ReserveResult, JobOk;
      RunOne(EmptyDb, policy, history, a);
      FirstReservation(ledger, policy, ReserveRequestOf(a.id, a.conversion, a.now, a.period));
      history := history + [a];
      var after := AfterReserve(ledger, policy, ReserveRequestOf(a.id, a.conversion, a.now, a.period));
      if !reserved.Reserved? {
        ledger := after;
        return false;
      }
      var winner := FindActive(a.conversion.document, a.conversion.voice, a.conversion.textRevision);
      if winner.Some? {
        return true;
      }
      jobs, ledger := jobs[a.id := Job(a.conversion, [], [], None)], after;
      conflict := false;
    }

    // ---- preparation ----

    /** The mark, then the reads of the document while others go on. */
    method MarkAndRead(id: Id, others: seq<Action>) returns (marked: bool)
      requires Valid() && id in jobs
      modifies this
      ensures Valid() && old(history) <= history && id in jobs
              && SameConversion(old(jobs)[id].conversion, jobs[id].conversion)
      ensures history == old(history) + [Advance(id, S.MarkPreparing)] + (if marked then others else [])
      ensures marked <==> Rank(old(jobs)[id].conversion.status) <= Rank(S.Preparing)
      ensures marked ==> jobs[id].conversion.status != Queued
      ensures !marked ==> jobs == old(jobs)
    {
      LaterStatus(policy, history, history + [Advance(id, S.MarkPreparing)], id);
      marked := MarkPreparing(id);
      if marked {
        LaterStatus(policy, history, history + others, id);
        Others(others);
      }
    }

    method PrepareMarked(id: Id, revision: nat, before: Option<SourceText>, raws: seq<Raw>,
                         after: Option<SourceText>, fingerprint: Text -> string)
      returns (outcome: PreparationOutcome)
      requires Valid() && forall i :: 0 <= i < |raws| ==> raws[i].words != []
      requires id in jobs && jobs[id].conversion.status != Queued
      modifies this
      ensures Valid() && old(history) <= history && |history| == |old(history)| + 1 && id in jobs
      ensures var reason := Unpreparable(revision, before, raws, after);
              outcome == if reason.Some? then PreparationFailed(reason.value) else Planned(|raws|)
      ensures outcome.PreparationFailed? ==>
                !InProgress(jobs[id].conversion.status) && history == old(history) + [S.Fail(id, outcome.reason)]
      ensures outcome.Planned? ==>
                && Rank(jobs[id].conversion.status) > Rank(S.Preparing)
                && WritesRows(history[|old(history)|], id, raws, fingerprint)
      ensures outcome.Planned? && old(jobs[id].conversion.status) == S.Preparing ==>
                Raws(Rows(jobs[id].segments)) == raws && forall i :: 0 <= i < |raws| ==>
                  jobs[id].segments[i].fingerprint == fingerprint(raws[i].ssml)
    {
      var unusable := UnusableReason(revision, before);
      if unusable.None? {
        unusable := UnusableReason(revision, after);
      }
      if unusable.None? && raws == [] {
        unusable := Some(EmptyText);
      }
      if unusable.Some? {
        var failed := FailConversion(id, unusable.value);
        return PreparationFailed(unusable.value);
      }
      var rows, plan := RowsAndPlan(raws, fingerprint);
      var written := CompletePreparation(id, rows, plan);
      outcome := Planned(|raws|);
    }

    // ---- synthesis ----

    /** A complete part is scheduled for assembly; the last segment closes the synthesis. */
    method AfterSegment(id: Id, part: nat, others: seq<Action>) returns (closed: bool, assembly: Option<nat>)
      requires Valid() && id in jobs && jobs[id].segments != []
      modifies this
      ensures Valid() && history == old(history) + (others + [Advance(id, CloseSynthesis)])
      ensures id in jobs && SegmentsKept(old(jobs)[id], jobs[id])
      ensures assembly == if PartHasAudio(old(jobs)[id].segments, part) then Some(part) else None
      ensures closed <==> Closes(Run(EmptyDb, policy, old(history) + others), id)
      ensures closed ==> jobs[id].conversion.status == Synthesized && AllAudio(jobs[id].segments)
      ensures jobs[id].conversion.status == Synthesizing ==> !AllAudio(jobs[id].segments)
    {
      assembly := None;
      if PartHasAudio(jobs[id].segments, part) {
        assembly := Some(part);
      }
      LaterSegments(policy, history, history + others, id);
      Others(others);
      LaterSegments(policy, history, history + [Advance(id, CloseSynthesis)], id);
      NoPending(jobs[id]);
      closed := CompleteIfAllSegmentsSynthesized(id);
    }

    /**
     * One segment: its marks come from the cache or the engine; the audio is
     * written only if the segment has none.
     */
    method SynthesizeSegment(id: Id, index: nat, voiced: Voiced, others: (seq<Action>, seq<Action>))
      returns (outcome: SynthesisOutcome, assembly: Option<nat>)
      requires Valid()
      modifies this
      ensures Valid() && old(history) <= history
      ensures outcome.Rejected? <==>
                && ToSynthesize(old(jobs), id, index) && voiced.EngineRejected?
      ensures outcome.Interrupted? <==> ToSynthesize(old(jobs), id, index) && voiced.EngineDown?
      ensures outcome.SegmentDone? <==> ToSynthesize(old(jobs), id, index) && voiced.Voiced?
      ensures outcome.NotSynthesized? ==>
                if HasVoice(old(jobs), id, index) then
                  var segments := old(jobs)[id].segments;
                  && history == old(history) + [Advance(id, CloseSynthesis)]
                  && assembly == PartToAssemble(segments, segments[index].row.partIndex)
                else history == old(history) && assembly.None?
      ensures outcome.Rejected? ==> assembly.None? && history == old(history) + others.0 + [S.Fail(id, TtsRejected)]
      ensures outcome.Rejected? ==> id in jobs && !InProgress(jobs[id].conversion.status)
      ensures !outcome.Rejected? ==> FailsOnlyIn(old(history), history, others.0 + others.1)
      ensures outcome.Interrupted? ==> history == old(history) && assembly.None?
      ensures outcome.SegmentDone? ==>
                && ToSynthesize(old(jobs), id, index) && voiced.Voiced?
                && id in jobs && index < |jobs[id].segments| && jobs[id].segments[index].audio.Some?
                && (outcome.completed ==> jobs[id].conversion.status == Synthesized && AllAudio(jobs[id].segments))
                && (jobs[id].conversion.status == Synthesizing ==> !AllAudio(jobs[id].segments))
      ensures outcome.SegmentDone? ==>
                var k := |old(history)| + |others.0|;
                && StoresAt(history, k, id, index)
                && history == old(history) + others.0 + [history[k]] + others.1 + [Advance(id, CloseSynthesis)]
                && (outcome.completed <==> Closes(Run(EmptyDb, policy, history[..|history| - 1]), id))
                && id in Run(EmptyDb, policy, history[..k + 1]).jobs
                && assembly == PartToAssemble(Run(EmptyDb, policy, history[..k + 1]).jobs[id].segments,
                                              old(jobs)[id].segments[index].row.partIndex)
                && IsVoiced(history[k].step.audio, old(jobs)[id].segments[index], voiced)
                && (LacksAudio(Run(EmptyDb, policy, history[..k]), id, index) ==>
                    jobs[id].segments[index].audio == Some(history[k].step.audio))
      ensures assembly.Some? ==>
                id in jobs && PartHasAudio(jobs[id].segments, assembly.value)
    {
      hide Run, JobOk, SoundStep, AfterStart, AfterRefund, AfterGrant, Consumed;
      assembly := None;
      if id !in jobs || jobs[id].conversion.status != Synthesizing || index >= |jobs[id].segments| {
        return NotSynthesized, None;
      }
      ghost var start := history;
      var segment := jobs[id].segments[index];
      if segment.audio.Some? {
        var closed;
        closed, assembly := AfterSegment(id, segment.row.partIndex, []);
        OwnStepsDoNotFail(start, [], Advance(id, CloseSynthesis), [], Advance(id, CloseSynthesis));
        assert history == start + [] + ([] + [Advance(id, CloseSynthesis)]);
        return NotSynthesized, assembly;
      }
      if voiced.EngineDown? {
        return Interrupted, None;
      }
      Others(others.0);
      LaterStatus(policy, start, history, id);
      if voiced.EngineRejected? {
        var failed := FailConversion(id, TtsRejected);
        return Rejected, None;
      }
      LaterSegments(policy, start, history, id);
      ghost var before := history;
      var timepoints := AlignTimepoints(segment.row.raw.words, voiced.marks);
      var completed;
      var audio := Audio(segment.fingerprint, timepoints, voiced.durationMs, voiced.cacheHit);
      completed, assembly := StoreAudio(id, index, audio, others.1);
      OwnStepsDoNotFail(start, others.0, Advance(id, S.CompleteSegment(index, audio)), others.1,
                        Advance(id, CloseSynthesis));
      assert history[..|before|] == before;
      assert history[..|before| + 1] == before + [Advance(id, S.CompleteSegment(index, audio))];
      outcome := SegmentDone(completed);
    }

    /** Writes the audio if the segment has none, then looks at what it completes. */
    method StoreAudio(id: Id, index: nat, audio: Audio, others: seq<Action>)
      returns (completed: bool, assembly: Option<nat>)
      requires Valid() && id in jobs && index < |jobs[id].segments|
      modifies this
      ensures Valid()
      ensures var written, closed := Advance(id, S.CompleteSegment(index, audio)), Advance(id, CloseSynthesis);
              && history == old(history) + ([written] + others + [closed])
              && (completed <==> Closes(Run(EmptyDb, policy, old(history) + [written] + others), id))
      ensures id in jobs && index < |jobs[id].segments| && jobs[id].segments[index].audio.Some?
      ensures old(jobs)[id].segments[index].audio.None? ==> jobs[id].segments[index].audio == Some(audio)
      ensures completed ==> jobs[id].conversion.status == Synthesized && AllAudio(jobs[id].segments)
      ensures jobs[id].conversion.status == Synthesizing ==> !AllAudio(jobs[id].segments)
      ensures assembly.Some? ==> PartHasAudio(jobs[id].segments, assembly.value)
      ensures var stored := Run(EmptyDb, policy, old(history) + [Advance(id, S.CompleteSegment(index, audio))]);
              && id in stored.jobs
              && assembly == PartToAssemble(stored.jobs[id].segments, old(jobs)[id].segments[index].row.partIndex)
    {
      var part := jobs[id].segments[index].row.partIndex;
      var written := CompleteSegment(id, index, audio);
      completed, assembly := AfterSegment(id, part, others);
    }

    // ---- assembly ----

    /** Joins the part's segments; `None` while one of them has no audio. The previous part is read after `others`. */
    method Assemble(id: Id, part: nat, duration: Audio -> nat, others: seq<Action>)
      returns (assembled: Option<Assembled>)
      requires Valid() && id in jobs && jobs[id].segments != []
      modifies this
      ensures Valid() && old(history) <= history && id in jobs
      ensures assembled.Some? <==> PartHasAudio(old(jobs)[id].segments, part)
      ensures assembled.Some? ==>
                && AssembledFrom(jobs[id].segments, part, assembled.value)
                && assembled.value.durationsMs == Measured(assembled.value.sources, duration)
      ensures history == old(history) + if assembled.Some? then others else []
    {
      var segments := jobs[id].segments;
      var rows := PartSegs(segments, part, |segments|);
      PartSegsAudio(segments, part, |segments|);
      var sources := CollectAudio(rows);
      if sources.None? {
        return None;
      }
      var durationsMs := Measured(sources.value, duration);
      var words := TimedWordsOf(rows, sources.value, durationsMs);
      ghost var start := history;
      Others(others);
      LaterRows(policy, start, history, id);
      var previousPage := LastPageBefore(Rows(jobs[id].segments), part);
      var starts := PageStartsOf(Untimed(words), previousPage);
      assembled := Some(Assembled(sources.value, durationsMs, words, TotalMs(durationsMs), |words|, starts));
      AssembledAsRead(segments, part, assembled.value);
      LaterAssembled(policy, start, history, id, part, assembled.value);
    }

    method StorePart(id: Id, part: nat, a: Assembled, duration: Audio -> nat)
      requires Valid() && id in jobs && AssembledFrom(jobs[id].segments, part, a)
      requires jobs[id].segments != [] && part < |jobs[id].parts| && a.durationsMs == Measured(a.sources, duration)
      modifies this
      ensures Valid() && |history| == |old(history)| + 1 && old(history) <= history
      ensures id in jobs && jobs[id].segments != []
      ensures part < |jobs[id].parts| && jobs[id].parts[part].assembled.Some?
      ensures StoresPart(policy, history, |old(history)|, id, part, duration, a.durationMs,
                         jobs[id].parts[part].assembled)
    {
      hide AssembledFrom, Measured;
      ghost var before := history;
      var written := CompletePart(id, part, a);
      assert history[..|before|] == before;
    }

    /** Assembles the part unless it already is; its duration, or `None` while a segment has no audio. */
    method AssembleOnce(id: Id, part: nat, duration: Audio -> nat, others: (seq<Action>, seq<Action>))
      returns (durationMs: Option<nat>)
      requires Valid() && id in jobs && jobs[id].segments != [] && part < |jobs[id].parts|
      modifies this
      ensures Valid() && old(history) <= history && id in jobs && jobs[id].segments != []
      ensures durationMs.None? <==>
                old(jobs)[id].parts[part].assembled.None? && !PartHasAudio(old(jobs)[id].segments, part)
      ensures durationMs.None? ==> history == old(history)
      ensures old(jobs)[id].parts[part].assembled.None? && durationMs.Some? ==>
                |history| > 0 && history == old(history) + others.0 + others.1 + [history[|history| - 1]]
      ensures durationMs.Some? ==> part < |jobs[id].parts| && jobs[id].parts[part].assembled.Some?
      ensures old(jobs)[id].parts[part].assembled.Some? ==>
                && history == old(history)
                && durationMs == Some(old(jobs)[id].parts[part].assembled.value.durationMs)
      ensures old(jobs)[id].parts[part].assembled.None? && durationMs.Some? ==>
                StoresPart(policy, history, |old(history)| + |others.0| + |others.1|, id, part, duration,
                           durationMs.value, jobs[id].parts[part].assembled)
    {
      hide AssembledFrom, Measured, StoresPart, PartHasAudio, JobOk, Apply;
      if jobs[id].parts[part].assembled.Some? {
        return Some(jobs[id].parts[part].assembled.value.durationMs);
      }
      ghost var start := history;
      var assembled := Assemble(id, part, duration, others.0);
      LaterParts(policy, start, history, id);
      if assembled.None? {
        return None;
      }
      LaterAssembled(policy, history, history + others.1, id, part, assembled.value);
      LaterParts(policy, start, history + others.1, id);
      Others(others.1);
      StorePart(id, part, assembled.value, duration);
      durationMs := Some(assembled.value.durationMs);
    }

    /** The manifest is written whatever happened since the parts were read; then the status, if it still applies. */
    method WriteManifest(id: Id, manifest: ConversionManifest, others: seq<Action>) returns (ready: bool)
      requires Valid() && id in jobs && SoundStep(id, jobs[id], S.PutManifest(manifest))
      modifies this
      ensures Valid() && old(history) <= history && id in jobs && jobs[id].conversion.status == Ready
      ensures history == old(history) + [Advance(id, S.PutManifest(manifest))] + others + [Advance(id, MarkReady)]
      ensures ready <==> IsFinished(Run(EmptyDb, policy, history[..|history| - 1]), id)
    {
      PutManifest(id, manifest);
      LaterHasManifest(policy, history, history + others, id);
      Others(others);
      ghost var before := history;
      ready := MarkReadyIfAllPartsAssembled(id);
      assert history[..|history| - 1] == before;
    }

    /** Every part assembled: the manifest is written, then the conversion is ready. */
    method Finalize(id: Id, others: (seq<Action>, seq<Action>, seq<Action>)) returns (ready: bool)
      requires Valid() && id in jobs && jobs[id].segments != []
      modifies this
      ensures Valid() && old(history) <= history && id in jobs
      ensures ready ==> jobs[id].conversion.status == Ready
      ensures old(jobs)[id].conversion.status == Synthesized && AllAssembled(old(jobs)[id].parts) ==>
                jobs[id].conversion.status == Ready
      ensures old(jobs)[id].conversion.status != Synthesized ==> !ready && history == old(history)
      ensures FinalizesAs(policy, old(history), history, id, others, ready)
    {
      hide IsFinished, JobOk, IsTimed, AssembledFrom;
      var conversion := jobs[id].conversion;
      if conversion.status != Synthesized {
        return false;
      }
      LaterStatus(policy, history, history + others.0, id);
      LaterParts(policy, history, history + others.0, id);
      Others(others.0);
      var parts := jobs[id].parts;
      if !AllAssembled(parts) {
        return false;
      }
      var manifest := BuildManifest(BookOf(id, conversion), parts);
      LaterManifest(policy, history, history + others.1, id, BookOf(id, conversion));
      Others(others.1);
      ready := WriteManifest(id, manifest, others.2);
    }

    /** One part: assembled at most once, then the conversion is finalized if it was the last. */
    method AssemblePart(id: Id, part: nat, duration: Audio -> nat, others: (seq<Action>, (seq<Action>, seq<Action>)),
                        finalizing: (seq<Action>, seq<Action>, seq<Action>))
      returns (outcome: AssemblyOutcome)
      requires Valid()
      modifies this
      ensures Valid() && old(history) <= history
      ensures outcome.PartDone? <==>
                && IsAssemblable(old(jobs), id) && id in Run(EmptyDb, policy, old(history) + others.0).jobs
                && IsPartReady(Run(EmptyDb, policy, old(history) + others.0).jobs[id], part)
      ensures outcome.NotAssembled? ==>
                history == old(history) + if IsAssemblable(old(jobs), id) then others.0 else []
      ensures outcome.PartDone? ==>
                var k := |old(history)| + |others.0| + |others.1.0| + |others.1.1|;
                var db := Run(EmptyDb, policy, old(history) + others.0);
                && id in db.jobs && part < |db.jobs[id].parts|
                && if db.jobs[id].parts[part].assembled.Some?
                   then FinalizesAs(policy, old(history) + others.0, history, id, finalizing, outcome.ready)
                   else
                     && k < |history|
                     && history[..k] == old(history) + others.0 + others.1.0 + others.1.1
                     && FinalizesAs(policy, history[..k + 1], history, id, finalizing, outcome.ready)
      ensures outcome.PartDone? ==>
                && id in jobs && part < |jobs[id].parts| && jobs[id].parts[part].assembled.Some?
                && (outcome.ready ==> jobs[id].conversion.status == Ready)
      ensures outcome.PartDone? ==>
                var db := Run(EmptyDb, policy, old(history) + others.0);
                && id in db.jobs && part < |db.jobs[id].parts|
                && if db.jobs[id].parts[part].assembled.Some?
                   then outcome.durationMs == db.jobs[id].parts[part].assembled.value.durationMs
                   else StoresPart(policy, history, |old(history)| + |others.0| + |others.1.0| + |others.1.1|, id,
                                   part, duration, outcome.durationMs, jobs[id].parts[part].assembled)
    {
      hide StoresPart, Run, AssembledFrom, FinalizesAs;
      if id !in jobs || (jobs[id].conversion.status != Synthesizing && jobs[id].conversion.status != Synthesized) {
        return NotAssembled;
      }
      LaterParts(policy, history, history + others.0, id);
      Others(others.0);
      if part >= |jobs[id].parts| {
        return NotAssembled;
      }
      PartsHaveSegments(policy, history, id);
      ghost var start, had := history, jobs[id].parts[part].assembled.Some?;
      var durationMs := AssembleOnce(id, part, duration, others.1);
      if durationMs.None? {
        return NotAssembled;
      }
      ghost var done, stored := history, jobs[id].parts[part].assembled;
      var ready := Finalize(id, finalizing);
      assert history[..|done|] == done;
      LaterParts(policy, done, history, id);
      if !had {
        StoredStill(policy, done, history, |start| + |others.1.0| + |others.1.1|, id, part, duration,
                    durationMs.value, stored);
      }
      outcome := PartDone(durationMs.value, ready);
    }
  }
}
