/** What every run of the conversions guarantees, and what it does not. */
module ConversionProperties {
  import opened Numbers
  import opened Wrappers
  import opened Allocation
  import opened UnitsLedger
  import opened Pipeline
  import opened PartTimeline
  import opened Manifest
  import opened ConversionState
  import opened ConversionInvariants

  // ---- safety of every reachable state ----

  lemma Reachable(policy: Policy, actions: seq<Action>)
    ensures Inv(Run(EmptyDb, policy, actions), policy)
  {
    EmptyKeeps(policy);
    RunKeeps(EmptyDb, policy, actions);
  }

  lemma ReachableJob(policy: Policy, actions: seq<Action>, id: Id)
    requires id in Run(EmptyDb, policy, actions).jobs
    ensures JobOk(id, Run(EmptyDb, policy, actions).jobs[id])
  {
    Reachable(policy, actions);
  }

  /**
   * `synthesized` and `ready` mean that no segment lacks audio; `ready` means
   * that every part is assembled from the complete audio of its own segments,
   * its words timed in it, and that the stored manifest is the complete one.
   */
  ghost predicate Safe(id: Id, job: Job) {
    var status := job.conversion.status;
    && (status == Synthesized || status == Ready ==> job.segments != [] && AllAudio(job.segments))
    && (status == Ready ==>
          && (forall k :: 0 <= k < |job.parts| ==>
                && job.parts[k].assembled.Some? && AssembledFrom(job.segments, k, job.parts[k].assembled.value)
                && IsHeardAsTimed(PartSegments(Rows(job.segments), k), job.parts[k].assembled.value))
          && job.manifest.Some? && job.manifest.value.complete
          && job.manifest.value == ManifestOf(BookOf(id, job.conversion), job.parts))
  }

  /** The stored words are a timeline of the rows, as long as their measured audio. */
  ghost predicate IsHeardAsTimed(rows: seq<Prepared>, a: Assembled) {
    && |a.sources| == |a.durationsMs| == |rows| && a.durationMs == TotalMs(a.durationsMs)
    && IsTimelineOf(a.words, HeardSegments(rows, a.sources, a.durationsMs))
    && Untimed(a.words) == PlacedWords(rows)
  }

  lemma PartIsHeard(segments: seq<Segment>, part: nat, a: Assembled)
    requires AssembledFrom(segments, part, a)
    ensures IsHeardAsTimed(PartSegments(Rows(segments), part), a)
  {
    hide IsTimelineOf, TimelineUpTo, PartSegments, PlacedWords;
    var rows := PartSegments(Rows(segments), part);
    var heard := HeardSegments(rows, a.sources, a.durationsMs);
    TimelineIs(heard);
    TimelineIsPlacedAll(heard, rows);
  }

  lemma TimelineIsPlacedAll(heard: seq<TimelineSegment>, rows: seq<Prepared>)
    requires SegmentsOfRows(heard, rows)
    ensures Untimed(TimelineUpTo(heard, |rows|)) == PlacedWords(rows)
  {
    TimelineIsPlaced(heard, rows, |rows|);
  }

  lemma OkIsSafe(id: Id, job: Job)
    requires JobOk(id, job)
    ensures Safe(id, job)
  {
    if job.conversion.status == Ready {
      hide AssembledFrom, IsHeardAsTimed, ManifestOf;
      assert Plans(job.parts) != [];
      forall k | 0 <= k < |job.parts|
        ensures IsHeardAsTimed(PartSegments(Rows(job.segments), k), job.parts[k].assembled.value) {
        PartIsHeard(job.segments, k, job.parts[k].assembled.value);
      }
    }
  }

  /** Safety in every interleaving of the workers. */
  lemma EveryRunIsSafe(policy: Policy, actions: seq<Action>, id: Id)
    requires id in Run(EmptyDb, policy, actions).jobs
    ensures Safe(id, Run(EmptyDb, policy, actions).jobs[id])
  {
    ReachableJob(policy, actions, id);
    OkIsSafe(id, Run(EmptyDb, policy, actions).jobs[id]);
  }

  /** The page starts that the assembled parts store, in part order. */
  function StoredStarts(parts: seq<Part>, k: nat): seq<PageStart>
    requires k <= |parts| && AllAssembled(parts)
  {
    if k == 0 then [] else StoredStarts(parts, k - 1) + parts[k - 1].assembled.value.pageStarts
  }

  function StoredWords(parts: seq<Part>, k: nat): nat
    requires k <= |parts| && AllAssembled(parts)
  {
    if k == 0 then 0 else StoredWords(parts, k - 1) + parts[k - 1].assembled.value.wordCount
  }

  lemma AssembledStores(segments: seq<Segment>, part: nat, a: Assembled)
    requires AssembledFrom(segments, part, a)
    ensures a.wordCount == |PlacedWords(PartSegments(Rows(segments), part))|
    ensures a.pageStarts == StartsOfPart(Rows(segments), part)
  {
  }

  lemma {:induction false} StoredSoFar(segments: seq<Segment>, parts: seq<Part>, k: nat)
    requires k <= |parts| && AllAssembled(parts) && PartsSound(segments, parts)
    ensures StoredStarts(parts, k) == StartsOfParts(Rows(segments), k)
    ensures StoredWords(parts, k) == |PlacedOfParts(Rows(segments), k)|
  {
    hide PartsSound, AllAssembled, AssembledFrom, Rows;
    if k > 0 {
      hide StoredStarts, StoredWords, StartsOfParts, PlacedOfParts;
      StoredSoFar(segments, parts, k - 1);
      StoredNext(segments, parts, k);
    }
  }

  lemma StoredNext(segments: seq<Segment>, parts: seq<Part>, k: nat)
    requires 0 < k <= |parts| && AllAssembled(parts) && PartsSound(segments, parts)
    requires StoredStarts(parts, k - 1) == StartsOfParts(Rows(segments), k - 1)
    requires StoredWords(parts, k - 1) == |PlacedOfParts(Rows(segments), k - 1)|
    ensures StoredStarts(parts, k) == StartsOfParts(Rows(segments), k)
    ensures StoredWords(parts, k) == |PlacedOfParts(Rows(segments), k)|
  {
    hide AssembledFrom, PlacedWords, PartSegments, StartsOfPart, Rows;
    AssembledStores(segments, k - 1, parts[k - 1].assembled.value);
  }

  /** What a ready conversion stores, part by part, is the page starts and the word count of the whole book. */
  lemma ReadyCoversTheBook(id: Id, job: Job)
    requires JobOk(id, job) && job.conversion.status == Ready
    ensures var words := WordsOf(Raws(Rows(job.segments)));
            && StoredStarts(job.parts, |job.parts|) == PageStarts(Numbered(words, 0), None)
            && StoredWords(job.parts, |job.parts|) == |words|
  {
    var rows, plans := Rows(job.segments), Plans(job.parts);
    hide AssembledFrom, PartsPlaced, PositionedAt, PartsSound;
    StoredSoFar(job.segments, job.parts, |job.parts|);
    PageStartsCoverTheBook(Raws(rows), plans, rows);
    TimelinesCoverTheBook(Raws(rows), plans, rows);
  }

  /** The page starts that the first `k` entries of a manifest list. */
  function ListedStarts(entries: seq<ManifestPart>, k: nat): seq<PageStart>
    requires k <= |entries|
  {
    if k == 0 then [] else ListedStarts(entries, k - 1) + entries[k - 1].pageStarts
  }

  function ListedWords(entries: seq<ManifestPart>, k: nat): nat
    requires k <= |entries|
  {
    if k == 0 then 0
    else ListedWords(entries, k - 1) + (if entries[k - 1].wordCount.Some? then entries[k - 1].wordCount.value else 0)
  }

  lemma {:induction false} ListedIsStored(book: Book, parts: seq<Part>, k: nat)
    requires AllAssembled(parts) && k <= |parts|
    ensures ListedStarts(ManifestOf(book, parts).parts, k) == StoredStarts(parts, k)
    ensures ListedWords(ManifestOf(book, parts).parts, k) == StoredWords(parts, k)
  {
    if k > 0 {
      ListedIsStored(book, parts, k - 1);
      assert ManifestOf(book, parts).parts[k - 1] == EntryOf(parts, k - 1);
    }
  }

  lemma StoredBefore(id: Id, job: Job, k: nat)
    requires JobOk(id, job) && AllAssembled(job.parts) && job.segments != [] && k < |job.parts|
    ensures StoredWords(job.parts, k) == job.parts[k].firstWordIndex
  {
    var rows, plans := Rows(job.segments), Plans(job.parts);
    StoredSoFar(job.segments, job.parts, k);
    PartsSoFar(Raws(rows), plans, rows, k);
    BookIsNumbered(Raws(rows), EndOf(plans, k));
    EndIsStart(plans, |rows|, k);
    assert StartsAtWord(Raws(rows), job.parts[k]);
    assert plans[k] == job.parts[k].plan;
  }

  /**
   * The manifest of a ready conversion is that of the book: its parts in order,
   * each at its first word and where the ones before it end, and together their
   * page starts, words and duration are those of the whole.
   */
  lemma ManifestCoversTheBook(id: Id, job: Job)
    requires JobOk(id, job) && job.conversion.status == Ready
    ensures var m, words := job.manifest.value, WordsOf(Raws(Rows(job.segments)));
            && m.book == BookOf(id, job.conversion) && m.complete && m.partCount == |m.parts| == |job.parts|
            && ListedStarts(m.parts, |m.parts|) == PageStarts(Numbered(words, 0), None)
            && ListedWords(m.parts, |m.parts|) == |words|
            && (forall k :: 0 <= k < |m.parts| ==>
                  && m.parts[k].index == k && m.parts[k].ready && m.parts[k].wordCount.Some?
                  && m.parts[k].firstWordIndex == ListedWords(m.parts, k)
                  && m.parts[k].durationMs == Some(job.parts[k].assembled.value.durationMs))
  {
    hide PartsSound, Positioned, WordsOf, Numbered, PageStarts;
    var m, book := job.manifest.value, BookOf(id, job.conversion);
    ReadyCoversTheBook(id, job);
    assert Plans(job.parts) != [];
    ListedIsStored(book, job.parts, |job.parts|);
    forall k | 0 <= k < |m.parts|
      ensures && m.parts[k].index == k && m.parts[k].ready && m.parts[k].wordCount.Some?
              && m.parts[k].firstWordIndex == ListedWords(m.parts, k)
              && m.parts[k].durationMs == Some(job.parts[k].assembled.value.durationMs) {
      ListedIsStored(book, job.parts, k);
      StoredBefore(id, job, k);
      assert Plans(job.parts)[k] == job.parts[k].plan;
    }
  }

  /** At most one conversion that has not failed per document, voice and revision. */
  lemma OneActivePerTarget(policy: Policy, actions: seq<Action>, a: Id, b: Id)
    requires var db := Run(EmptyDb, policy, actions);
             Active(db, a) && Active(db, b) && SameTarget(db.jobs[a].conversion, db.jobs[b].conversion)
    ensures a == b
  {
    Reachable(policy, actions);
  }

  // ---- how a run changes a conversion ----

  lemma ApplyEvolves(db: Db, policy: Policy, a: Action, id: Id)
    requires JobsOk(db) && id in db.jobs
    ensures id in Apply(db, policy, a).jobs
    ensures Evolves(db.jobs[id], Apply(db, policy, a).jobs[id])
  {
    hide Evolves, JobOk, SoundStep, Next, Failing, HasActive, ReserveResult, AfterReserve, AfterRefund, AfterGrant,
      Consumed;
    EvolvesSame(db.jobs[id]);
    if a.Advance? && a.id == id && Sound(db, a) {
      NextEvolves(id, db.jobs[id], a.step);
    } else if a.Fail? && a.id == id && InProgress(db.jobs[id].conversion.status) {
      FailingOk(id, db.jobs[id], a.reason);
    }
  }

  /**
   * Over every run: statuses only move along the edges of the life cycle (so
   * nothing fails from `synthesized` or `ready`), the identity and the reserved
   * characters never change, and audio, assembled parts and the manifest are
   * never overwritten.
   */
  lemma {:induction false} RunEvolves(db: Db, policy: Policy, actions: seq<Action>, id: Id)
    requires JobsOk(db) && id in db.jobs
    ensures id in Run(db, policy, actions).jobs
    ensures Evolves(db.jobs[id], Run(db, policy, actions).jobs[id])
  {
    if actions != [] {
      var before, last := actions[..|actions| - 1], actions[|actions| - 1];
      RunEvolves(db, policy, before, id);
      RunKeepsJobs(db, policy, before);
      ApplyEvolves(Run(db, policy, before), policy, last, id);
      EvolvesTransitive(db.jobs[id], Run(db, policy, before).jobs[id], Run(db, policy, actions).jobs[id]);
    }
  }

  // ---- what a conversion costs ----

  /** The units that the conversion's reservation still holds. */
  ghost function KeptUnits(rows: seq<Reservation>, id: Id): nat {
    var found := FindReservation(rows, id);
    if found.Some? then Kept(rows[found.value]).Total() else 0
  }

  /** Row `k` is the conversion's one reservation, at its price. */
  predicate OwnRow(rows: seq<Reservation>, id: Id, c: Conversion, k: nat) {
    && FindReservation(rows, id) == Some(k)
    && IsChargeOf(rows[k], id, c)
    && rows[k].taken.Total() == ForChars(c.reservedChars, c.tier)
  }

  lemma FindReservationUnique(t: Tables, k: nat)
    requires UniqueRows(t) && k < |t.reservations|
    ensures FindReservation(t.reservations, t.reservations[k].id) == Some(k)
  {
  }

  lemma ChargeRow(db: Db, policy: Policy, id: Id) returns (k: nat)
    requires UniqueRows(db.ledger) && RowsOk(db.ledger) && ChargesOk(db) && id in db.jobs
    ensures OwnRow(db.ledger.reservations, id, db.jobs[id].conversion, k)
  {
    var rows := db.ledger.reservations;
    assert Charged(rows, id, db.jobs[id].conversion);
    k :| 0 <= k < |rows| && IsChargeOf(rows[k], id, db.jobs[id].conversion);
    FindReservationUnique(db.ledger, k);
    assert RowOk(db.ledger, rows[k]);
  }

  /** In every reachable state a conversion has exactly one reservation: its own, at its price. */
  lemma ReachableCharge(policy: Policy, actions: seq<Action>, id: Id) returns (k: nat)
    requires id in Run(EmptyDb, policy, actions).jobs
    ensures OwnRow(Run(EmptyDb, policy, actions).ledger.reservations, id,
                   Run(EmptyDb, policy, actions).jobs[id].conversion, k)
    ensures var rows := Run(EmptyDb, policy, actions).ledger.reservations;
            forall i :: 0 <= i < |rows| && rows[i].id == id ==> i == k
  {
    Reachable(policy, actions);
    k := ChargeRow(Run(EmptyDb, policy, actions), policy, id);
  }

  /** A conversion that has not failed costs exactly its reserved characters. */
  lemma ActiveCharge(policy: Policy, actions: seq<Action>, id: Id)
    requires Active(Run(EmptyDb, policy, actions), id)
    ensures var db := Run(EmptyDb, policy, actions);
            KeptUnits(db.ledger.reservations, id)
              == ForChars(db.jobs[id].conversion.reservedChars, db.jobs[id].conversion.tier)
  {
    var k := ReachableCharge(policy, actions, id);
  }

  /** The row that a failure leaves. */
  function Settling(row: Reservation, consumed: nat): Reservation {
    if consumed < row.chars then row.(refundedChars := Some(row.chars - consumed)) else row
  }

  lemma SettlingKeeps(row: Reservation, consumed: nat)
    requires row.refundedChars.None? && row.taken.Total() == ForChars(row.chars, row.tier)
    ensures Kept(Settling(row, consumed)).Total() == ForChars(Min(row.chars, consumed), row.tier)
  {
    KeptTotal(Settling(row, consumed));
  }

  lemma RefundSettles(t: Tables, id: string, k: nat, consumed: nat)
    requires FindReservation(t.reservations, id) == Some(k) && t.reservations[k].refundedChars.None?
    ensures AfterRefund(t, id, t.reservations[k].chars - consumed).reservations
            == t.reservations[k := Settling(t.reservations[k], consumed)]
  {
  }

  lemma {:induction false} FoundAgain(rows: seq<Reservation>, k: nat, row: Reservation)
    requires k < |rows| && row.id == rows[k].id
    ensures FindReservation(rows[k := row], row.id) == FindReservation(rows, row.id)
  {
    var last := |rows| - 1;
    if k < last && rows[last].id != row.id {
      assert rows[k := row][..last] == rows[..last][k := row];
      FoundAgain(rows[..last], k, row);
    }
  }

  lemma SettledRows(rows: seq<Reservation>, id: Id, c: Conversion, k: nat, consumed: nat)
    requires OwnRow(rows, id, c, k) && rows[k].refundedChars.None?
    ensures var after := rows[k := Settling(rows[k], consumed)];
            && FindReservation(after, id) == Some(k)
            && KeptUnits(after, id) == ForChars(Min(c.reservedChars, consumed), c.tier)
            && (after[k].refundedChars.Some? <==> consumed < c.reservedChars)
  {
    FoundAgain(rows, k, Settling(rows[k], consumed));
    SettlingKeeps(rows[k], consumed);
  }

  /**
   * A failure leaves the price of the characters synthesized so far, up to
   * those reserved. It refunds exactly when less was consumed than reserved:
   * consumed characters count a separator where the text has a line break, so
   * they can exceed the reserved ones, and the refund is then skipped.
   */
  lemma FailureCharge(db: Db, id: Id, reason: FailureReason, k: nat)
    requires id in db.jobs && InProgress(db.jobs[id].conversion.status)
    requires OwnRow(db.ledger.reservations, id, db.jobs[id].conversion, k)
    ensures var c := db.jobs[id].conversion;
            var consumed := Consumed(db.jobs[id].segments);
            var rows := AfterFail(db, id, reason).ledger.reservations;
            && FindReservation(rows, id) == Some(k)
            && KeptUnits(rows, id) == ForChars(Min(c.reservedChars, consumed), c.tier)
            && (rows[k].refundedChars.Some? <==> consumed < c.reservedChars)
  {
    hide AfterRefund, Consumed, Failing, ForChars;
    RefundSettles(db.ledger, id, k, Consumed(db.jobs[id].segments));
    SettledRows(db.ledger.reservations, id, db.jobs[id].conversion, k, Consumed(db.jobs[id].segments));
  }

  // ---- a failed conversion is settled ----

  /** Row `k` is the reservation of a conversion that has failed. */
  predicate Settled(db: Db, id: Id, k: nat) {
    && id in db.jobs && db.jobs[id].conversion.status == Failed
    && k < |db.ledger.reservations| && db.ledger.reservations[k].id == id
  }

  lemma RowUntouched(db: Db, policy: Policy, a: Action, id: Id, k: nat)
    requires Settled(db, id, k)
    ensures Settled(Apply(db, policy, a), id, k)
    ensures Apply(db, policy, a).ledger.reservations[k] == db.ledger.reservations[k]
  {
    hide SoundStep, AfterReserve, ReserveResult, AfterGrant, HasActive, Consumed;
    if Sound(db, a) {
      match a
      case Start(other, c, now, period) => ReserveRows(db.ledger, policy, ReserveRequestOf(other, c, now, period));
      case Advance(_, step) => if a.id == id { NextStatus(db.jobs[id], step); }
      case Fail(other, _) =>
        if other != id && other in db.jobs {
          RefundRows(db.ledger, other, db.jobs[other].conversion.reservedChars - Consumed(db.jobs[other].segments));
        }
      case Buy(q) => GrantRows(db.ledger, q);
    }
  }

  /** Whatever happens after a failure, late audio and repeated failures included, its charge stays. */
  lemma {:induction false} SettledForever(db: Db, policy: Policy, actions: seq<Action>, id: Id, k: nat)
    requires Settled(db, id, k)
    ensures var after := Run(db, policy, actions);
            Settled(after, id, k) && after.ledger.reservations[k] == db.ledger.reservations[k]
  {
    if actions != [] {
      var before := actions[..|actions| - 1];
      SettledForever(db, policy, before, id, k);
      RowUntouched(Run(db, policy, before), policy, actions[|actions| - 1], id, k);
    }
  }

  /** A settled row stays the one that is found. */
  lemma SettledCharge(policy: Policy, before: seq<Action>, later: seq<Action>, id: Id, k: nat)
    requires var failed := Run(EmptyDb, policy, before);
             && Settled(failed, id, k) && FindReservation(failed.ledger.reservations, id) == Some(k)
    ensures var end := Run(EmptyDb, policy, before + later);
            && id in end.jobs && end.jobs[id].conversion.status == Failed
            && KeptUnits(end.ledger.reservations, id) == KeptUnits(Run(EmptyDb, policy, before).ledger.reservations, id)
  {
    var failed := Run(EmptyDb, policy, before);
    RunConcat(EmptyDb, policy, before, later);
    SettledForever(failed, policy, later, id, k);
    var m := ReachableCharge(policy, before + later, id);
    assert m == k;
  }

  /**
   * Net charge, over every run from empty tables: the conversion fails in some
   * reachable state; from then on, however often failure is reported and
   * whatever else runs, it costs its weight times min(reserved, consumed then).
   */
  lemma NetCharge(policy: Policy, before: seq<Action>, id: Id, reason: FailureReason, later: seq<Action>)
    requires var db := Run(EmptyDb, policy, before);
             id in db.jobs && InProgress(db.jobs[id].conversion.status)
    ensures var job := Run(EmptyDb, policy, before).jobs[id];
            var end := Run(EmptyDb, policy, before + [Fail(id, reason)] + later);
            && id in end.jobs && end.jobs[id].conversion.status == Failed
            && KeptUnits(end.ledger.reservations, id)
               == ForChars(Min(job.conversion.reservedChars, Consumed(job.segments)), job.conversion.tier)
  {
    var db := Run(EmptyDb, policy, before);
    var k := ReachableCharge(policy, before, id);
    FailureCharge(db, id, reason, k);
    RunOne(EmptyDb, policy, before, Fail(id, reason));
    SettledCharge(policy, before + [Fail(id, reason)], later, id, k);
  }

  // ---- what the code does not guarantee ----

  /**
   * A segment can gain its audio after the conversion has failed: the write
   * tests the segment, not the status. The charge is unaffected (`NetCharge`).
   */
  lemma AudioAfterFailure(db: Db, policy: Policy, id: Id, index: nat, audio: Audio)
    requires id in db.jobs && db.jobs[id].conversion.status == Failed
    requires index < |db.jobs[id].segments| && db.jobs[id].segments[index].audio.None?
    ensures var after := Apply(db, policy, Advance(id, CompleteSegment(index, audio))).jobs[id];
            after.conversion.status == Failed && after.segments[index].audio == Some(audio)
  {
  }

  /** The segments that the sweep schedules again. */
  function PendingSegments(job: Job): set<nat> {
    set i: nat | i < |job.segments| && job.segments[i].audio.None?
  }

  /** The parts whose assembly the sweep schedules again. */
  function AssemblableParts(job: Job): set<nat> {
    set k: nat | k < |job.parts| && job.parts[k].assembled.None?
              && forall i :: 0 <= i < |job.segments| && job.segments[i].row.partIndex == k ==>
                job.segments[i].audio.Some?
  }

  /** Complete but for its last status, and no task is left that would finalize it. */
  predicate Stuck(job: Job) {
    && job.conversion.status == Synthesized
    && PendingSegments(job) == {} && AssemblableParts(job) == {}
  }

  /** The sweep has nothing to schedule for a `synthesized` conversion exactly when all its parts are assembled. */
  lemma StuckIff(id: Id, job: Job)
    requires JobOk(id, job) && job.conversion.status == Synthesized
    ensures Stuck(job) <==> AllAssembled(job.parts)
  {
    if AllAssembled(job.parts) {
      assert AssemblableParts(job) == {};
      assert PendingSegments(job) == {};
    } else {
      var k :| 0 <= k < |job.parts| && job.parts[k].assembled.None?;
      assert k in AssemblableParts(job);
    }
  }

  function Sources(audio: seq<Option<Audio>>): seq<Audio>
    requires forall i :: 0 <= i < |audio| ==> audio[i].Some?
  {
    seq(|audio|, i requires 0 <= i < |audio| => audio[i].value)
  }

  lemma {:induction false} PartAudioComplete(segments: seq<Segment>, part: nat, n: nat)
    requires AllAudio(segments) && n <= |segments|
    ensures forall i :: 0 <= i < |PartAudioUpTo(segments, part, n)| ==> PartAudioUpTo(segments, part, n)[i].Some?
  {
    if n > 0 {
      PartAudioComplete(segments, part, n - 1);
    }
  }

  lemma {:induction false} PartAudioSize(segments: seq<Segment>, part: nat, n: nat)
    requires n <= |segments|
    ensures |PartAudioUpTo(segments, part, n)| == |PartRows(Rows(segments), part, n)|
  {
    if n > 0 {
      PartAudioSize(segments, part, n - 1);
    }
  }

  lemma CanAssemble(segments: seq<Segment>, part: nat) returns (a: Assembled)
    requires AllAudio(segments)
    ensures AssembledFrom(segments, part, a)
  {
    PartAudioComplete(segments, part, |segments|);
    PartAudioSize(segments, part, |segments|);
    var rows, sources := PartSegments(Rows(segments), part), Sources(PartAudio(segments, part));
    var durationsMs: seq<nat> := seq(|rows|, i requires 0 <= i < |rows| => 0);
    a := Assembled(sources, durationsMs, TimelineUpTo(HeardSegments(rows, sources, durationsMs), |rows|),
                   TotalMs(durationsMs), |PlacedWords(rows)|, StartsOfPart(Rows(segments), part));
  }

  /** Assembly workers, one part after the other, while the synthesis is not closed yet. */
  lemma {:induction false} AssembleAll(db: Db, policy: Policy, id: Id, n: nat) returns (actions: seq<Action>)
    requires id in db.jobs && AllAudio(db.jobs[id].segments) && n <= |db.jobs[id].parts|
    ensures var after := Run(db, policy, actions);
            && id in after.jobs && |after.jobs[id].parts| == |db.jobs[id].parts|
            && after.jobs[id].(parts := db.jobs[id].parts) == db.jobs[id]
            && forall k :: 0 <= k < n ==> after.jobs[id].parts[k].assembled.Some?
  {
    hide AssembledFrom, AllAudio, WellPrepared;
    if n == 0 {
      actions := [];
    } else {
      var before := AssembleAll(db, policy, id, n - 1);
      var a := CanAssemble(db.jobs[id].segments, n - 1);
      actions := before + [Advance(id, CompletePart(n - 1, a))];
      RunOne(db, policy, before, Advance(id, CompletePart(n - 1, a)));
    }
  }

  /**
   * No liveness: every conversion whose segments all have audio, but whose
   * synthesis is not closed yet, can end `synthesized` and stuck. The last
   * assembly then looks at the status while it is still `synthesizing`, so it
   * does not finalize, and nothing schedules another assembly.
   */
  lemma StuckIsReachable(db: Db, policy: Policy, id: Id) returns (actions: seq<Action>)
    requires id in db.jobs && db.jobs[id].conversion.status == Synthesizing && AllAudio(db.jobs[id].segments)
    ensures id in Run(db, policy, actions).jobs && Stuck(Run(db, policy, actions).jobs[id])
  {
    var assembled := AssembleAll(db, policy, id, |db.jobs[id].parts|);
    actions := assembled + [Advance(id, CloseSynthesis)];
    RunOne(db, policy, assembled, Advance(id, CloseSynthesis));
    var job := Run(db, policy, actions).jobs[id];
    assert PendingSegments(job) == {} && AssemblableParts(job) == {};
  }
}
