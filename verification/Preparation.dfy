/**
 * Starting and preparing a conversion across the two tables: the conversions
 * with what they reserved, and the document that is corrected meanwhile.
 */
module Preparation {
  import opened Wrappers
  import opened Words
  import Delivery
  import WebVtt
  import PartTimeline
  import opened UnitsLedger
  import opened Allocation
  import opened Pipeline
  import opened Manifest
  import opened Tokenizer
  import opened Segmenter
  import D = DocumentText
  import opened ConversionState
  import opened ConversionInvariants
  import opened ConversionProperties
  import opened ConversionWorkers

  /** The conversion was started on this state of the document: its revision, and its count reserved. */
  predicate Launched(c: Conversion, doc: D.Doc) {
    c.textRevision == doc.revision && c.reservedChars == doc.charCount
  }

  /** What is read of the document, if it is still there. */
  function Source(ready: Option<bool>, revision: nat): Option<SourceText> {
    if ready.None? then None else Some(SourceText(ready.value, revision))
  }

  /** The segments of these pages. */
  ghost predicate AreSegmentsOf(raws: seq<Raw>, texts: seq<PageText>, pronounce: seq<Text> -> Pronunciation,
                                anchor: Text -> bool)
    requires OneFormPerWord(pronounce)
  {
    && IsSegmentation(raws, Groups(SentencesOf(TokensOfPages(texts, pronounce)), SsmlRules(anchor)))
    && WordsOf(raws) == WordsOfPages(texts, |texts|)
  }

  /** What a conversion was started on does not change while it lives. */
  lemma LaunchedStays(policy: Policy, before: seq<Action>, after: seq<Action>, id: Id, doc: D.Doc)
    requires before <= after && id in Run(EmptyDb, policy, before).jobs
    requires Launched(Run(EmptyDb, policy, before).jobs[id].conversion, doc)
    ensures id in Run(EmptyDb, policy, after).jobs && Launched(Run(EmptyDb, policy, after).jobs[id].conversion, doc)
  {
    LaterStatus(policy, before, after, id);
  }

  /** The count and the revision that are reserved are read together. */
  method Start(tables: ConversionTables, documents: D.DocumentTable, id: Id, owner: UserId,
               voice: Option<(string, VoiceTier)>, document: string, reviewPending: bool,
               now: Instant, period: Period, others: (seq<Action>, seq<Action>))
    returns (outcome: StartOutcome)
    requires tables.Valid() && documents.Valid()
    requires var mid := Run(tables.Snapshot(), tables.policy, others.0);
             id !in mid.jobs && FindReservation(mid.ledger.reservations, id).None?
    modifies tables
    ensures tables.Valid()
    ensures outcome.Created? ==>
              id in tables.jobs && Launched(tables.jobs[id].conversion, D.Run(documents.first, documents.history))
  {
    var source := StartSource(document, true, reviewPending, documents.charCount, documents.revision);
    outcome := tables.StartConversion(id, owner, voice, Some(source), now, period, others);
  }

  // ---- the text of the launch ----

  /** A preparation writes the segments of the pages that its conversion was launched on. */
  ghost predicate Sourced(a: Action, launched: map<Id, seq<PageText>>, pronounce: seq<Text> -> Pronunciation,
                          anchor: Text -> bool)
    requires OneFormPerWord(pronounce)
  {
    a.Advance? && a.step.CompletePreparation? ==>
      a.id in launched && AreSegmentsOf(Raws(Rows(a.step.rows)), launched[a.id], pronounce, anchor)
  }

  ghost predicate AllSourced(actions: seq<Action>, launched: map<Id, seq<PageText>>,
                             pronounce: seq<Text> -> Pronunciation, anchor: Text -> bool)
    requires OneFormPerWord(pronounce)
  {
    forall i :: 0 <= i < |actions| ==> Sourced(actions[i], launched, pronounce, anchor)
  }

  /** The rows of a conversion are the segments of the pages it was launched on. */
  ghost predicate HoldsText(id: Id, job: Job, launched: map<Id, seq<PageText>>,
                            pronounce: seq<Text> -> Pronunciation, anchor: Text -> bool)
    requires OneFormPerWord(pronounce)
  {
    job.segments != [] ==> id in launched && AreSegmentsOf(Raws(Rows(job.segments)), launched[id], pronounce, anchor)
  }

  lemma NextKeepsText(job: Job, step: Step)
    requires !step.CompletePreparation?
    ensures Rows(Next(job, step).segments) == Rows(job.segments)
  {
    assert Rows(Next(job, step).segments) == Rows(job.segments);
  }

  lemma ApplyKeepsText(db: Db, policy: Policy, a: Action, id: Id, launched: map<Id, seq<PageText>>,
                       pronounce: seq<Text> -> Pronunciation, anchor: Text -> bool)
    requires OneFormPerWord(pronounce) && Sourced(a, launched, pronounce, anchor)
    requires id in db.jobs ==> HoldsText(id, db.jobs[id], launched, pronounce, anchor)
    requires id in Apply(db, policy, a).jobs
    ensures HoldsText(id, Apply(db, policy, a).jobs[id], launched, pronounce, anchor)
  {
    hide AreSegmentsOf, SoundStep, AfterReserve, AfterRefund, AfterGrant, ReserveResult, HasActive, Consumed;
    if a.Advance? && a.id == id && !a.step.CompletePreparation? {
      NextKeepsText(db.jobs[id], a.step);
    }
  }

  /** Over every run, the rows of every conversion that has any are those segments. */
  lemma {:induction false} RunKeepsText(policy: Policy, actions: seq<Action>, id: Id, launched: map<Id, seq<PageText>>,
                                        pronounce: seq<Text> -> Pronunciation, anchor: Text -> bool)
    requires OneFormPerWord(pronounce) && AllSourced(actions, launched, pronounce, anchor)
    requires id in Run(EmptyDb, policy, actions).jobs
    ensures HoldsText(id, Run(EmptyDb, policy, actions).jobs[id], launched, pronounce, anchor)
  {
    hide HoldsText, Sourced, Apply;
    if actions != [] {
      var before, last := actions[..|actions| - 1], actions[|actions| - 1];
      if id in Run(EmptyDb, policy, before).jobs {
        RunKeepsText(policy, before, id, launched, pronounce, anchor);
      }
      ApplyKeepsText(Run(EmptyDb, policy, before), policy, last, id, launched, pronounce, anchor);
    }
  }

  /** The manifest is there and lists the pages and the words of a book. */
  ghost predicate Lists(manifest: Option<ConversionManifest>, words: seq<Word>) {
    && manifest.Some? && manifest.value.complete
    && ListedStarts(manifest.value.parts, |manifest.value.parts|) == PageStarts(Numbered(words, 0), None)
    && ListedWords(manifest.value.parts, |manifest.value.parts|) == |words|
  }

  /**
   * From the launch to the files: in every run whose preparations write the
   * segments of the pages of the launch, a ready conversion stores the page
   * starts and the word count of those pages, so does its manifest, and whoever
   * reads the cue files of its stored timelines in order gets back their words,
   * numbered from 0, and their text.
   */
  lemma ReadyIsTheDocument(policy: Policy, actions: seq<Action>, id: Id, launched: map<Id, seq<PageText>>,
                           pronounce: seq<Text> -> Pronunciation, anchor: Text -> bool,
                           files: seq<Text>, cues: seq<seq<WebVtt.Cue>>)
    requires OneFormPerWord(pronounce) && AllSourced(actions, launched, pronounce, anchor)
    requires var db := Run(EmptyDb, policy, actions); id in db.jobs && db.jobs[id].conversion.status == Ready
    requires var parts := Run(EmptyDb, policy, actions).jobs[id].parts;
             && |files| == |cues| == |parts|
             && (forall k :: 0 <= k < |files| ==>
                   parts[k].assembled.Some? ==> Delivery.IsFileOf(files[k], parts[k].assembled.value.words))
    requires forall k :: 0 <= k < |files| ==> WebVtt.ParseWebVtt(files[k]) == Some(cues[k])
    ensures id in launched && AllAssembled(Run(EmptyDb, policy, actions).jobs[id].parts)
    ensures var pages, stored := launched[id], Run(EmptyDb, policy, actions).jobs[id].parts;
            var words := WordsOfPages(pages, |pages|);
            && StoredStarts(stored, |stored|) == PageStarts(Numbered(words, 0), None)
            && StoredWords(stored, |stored|) == |words|
            && Lists(Run(EmptyDb, policy, actions).jobs[id].manifest, words)
            && Delivery.Carry(Flatten(cues), Numbered(words, 0))
            && Flatten(Delivery.CueTextsOf(Flatten(cues))) == VisiblePages(pages, |pages|)
  {
    hide Run, IsSegmentation, Groups, SentencesOf, TokensOfPages, WordsOfPages, VisiblePages, Positioned;
    var job := Run(EmptyDb, policy, actions).jobs[id];
    ReachableJob(policy, actions, id);
    RunKeepsText(policy, actions, id, launched, pronounce, anchor);
    ReadyCoversTheBook(id, job);
    ManifestCoversTheBook(id, job);
    OkIsSafe(id, job);
    var words := TimelinesOf(job.parts);
    forall k | 0 <= k < |job.parts| ensures Delivery.IsPart(words[k], PartSegments(Rows(job.segments), k)) {
      TimelineOfPart(id, job, k);
    }
    Delivery.FilesAreTheDocument(launched[id], Raws(Rows(job.segments)), Plans(job.parts), Rows(job.segments),
                                 words, files, cues);
  }

  /** The stored timelines, part by part. */
  function TimelinesOf(parts: seq<Part>): (words: seq<seq<PartTimeline.TimedWord>>)
    requires AllAssembled(parts)
    ensures |words| == |parts|
  {
    seq(|parts|, k requires 0 <= k < |parts| => parts[k].assembled.value.words)
  }

  lemma TimelineOfPart(id: Id, job: Job, k: nat)
    requires Safe(id, job) && job.conversion.status == Ready && k < |job.parts| && AllAssembled(job.parts)
    ensures Delivery.IsPart(TimelinesOf(job.parts)[k], PartSegments(Rows(job.segments), k))
  {
    hide AssembledFrom;
    assert IsHeardAsTimed(PartSegments(Rows(job.segments), k), job.parts[k].assembled.value);
  }

  // ---- preparing ----

  /** The words of some segments are all there is to say. */
  lemma NoSegmentsNoText(raws: seq<Raw>, texts: seq<PageText>)
    requires WordsOf(raws) == WordsOfPages(texts, |texts|) && raws == []
    ensures VisiblePages(texts, |texts|) == []
  {
    WordsKeepTheText(texts, |texts|);
    assert Texts(WordsOfPages(texts, |texts|)) == [];
  }

  /** Why nothing is prepared from these two readings of the document, if the pages between them hold words. */
  function Refusal(revision: nat, before: Option<SourceText>, after: Option<SourceText>): Option<FailureReason> {
    if UnusableReason(revision, before).Some? then UnusableReason(revision, before) else UnusableReason(revision, after)
  }

  /** The text is there, ready, and of that revision. */
  predicate IsUsable(revision: nat, ready: Option<bool>, found: nat) {
    ready == Some(true) && found == revision
  }

  /**
   * Why a preparation fails, from what the document was before and after its
   * pages were read: gone or not ready, corrected, or without a word. What it
   * was before comes first.
   */
  predicate Explains(reason: FailureReason, revision: nat, ready: (Option<bool>, Option<bool>), found: (nat, nat)) {
    match reason
    case SourceUnavailable =>
      ready.0 != Some(true) || (IsUsable(revision, ready.0, found.0) && ready.1 != Some(true))
    case TextChanged =>
      || (ready.0 == Some(true) && found.0 != revision)
      || (IsUsable(revision, ready.0, found.0) && ready.1 == Some(true) && found.1 != revision)
    case EmptyText => IsUsable(revision, ready.0, found.0) && IsUsable(revision, ready.1, found.1)
    case TtsRejected => false
    case Internal => false
  }

  /** The last step of the history wrote the segments of the pages of `doc`. */
  ghost predicate WroteText(history: seq<Action>, id: Id, doc: D.Doc, count: nat, pronounce: seq<Text> -> Pronunciation,
                            anchor: Text -> bool, fingerprint: Text -> string)
    requires OneFormPerWord(pronounce)
  {
    && history != []
    && exists raws :: |raws| == count && AreSegmentsOf(raws, D.PageTexts(doc.pages), pronounce, anchor)
                      && WritesRows(history[|history| - 1], id, raws, fingerprint)
  }

  /** Nothing to read on the pages of `doc`. */
  predicate Wordless(doc: D.Doc) {
    VisiblePages(D.PageTexts(doc.pages), |doc.pages|) == []
  }

  /** What was reserved is the count of exactly the pages of `doc`. */
  predicate Counts(reservedChars: nat, doc: D.Doc) {
    reservedChars == D.CharsOf(D.PageTexts(doc.pages), |doc.pages|)
  }

  /** The step that writes segments of the launched pages is sourced. */
  lemma WrittenIsSourced(before: seq<Action>, after: seq<Action>, id: Id, raws: seq<Raw>, fingerprint: Text -> string,
                         launched: map<Id, seq<PageText>>, pronounce: seq<Text> -> Pronunciation, anchor: Text -> bool)
    requires OneFormPerWord(pronounce) && AllSourced(before, launched, pronounce, anchor)
    requires before <= after && |after| == |before| + 1
    requires after[|before|].Fail? ||
             (WritesRows(after[|before|], id, raws, fingerprint)
              && id in launched && AreSegmentsOf(raws, launched[id], pronounce, anchor))
    ensures AllSourced(after, launched, pronounce, anchor)
  {
    hide AreSegmentsOf;
  }

  lemma MarkIsSourced(before: seq<Action>, id: Id, others: (seq<Action>, seq<Action>), marked: bool,
                      launched: map<Id, seq<PageText>>, pronounce: seq<Text> -> Pronunciation, anchor: Text -> bool)
    requires OneFormPerWord(pronounce) && AllSourced(before, launched, pronounce, anchor)
    requires AllSourced(others.0, launched, pronounce, anchor) && AllSourced(others.1, launched, pronounce, anchor)
    ensures AllSourced(before + others.0 + [Advance(id, MarkPreparing)] + (if marked then others.1 else []),
                       launched, pronounce, anchor)
  {
    hide AreSegmentsOf;
  }

  /**
   * The preparation. `launch` is the history of the document when the
   * conversion was started; `corrections` and `last` go through while the pages
   * are read. What is written are the segments of the pages of that moment,
   * whose count is what was reserved; anything else fails the conversion. So
   * every preparation of the history writes the text of its own launch, if the
   * other workers keep to that too.
   */
  method Prepare(tables: ConversionTables, documents: D.DocumentTable, id: Id, ghost launch: seq<D.Correction>,
                 ghost launched: map<Id, seq<PageText>>, ready: (Option<bool>, Option<bool>),
                 pronounce: seq<Text> -> Pronunciation, anchor: Text -> bool, fingerprint: Text -> string,
                 corrections: nat -> seq<D.Correction>, last: seq<D.Correction>, others: (seq<Action>, seq<Action>))
    returns (outcome: PreparationOutcome)
    requires tables.Valid() && documents.Valid() && launch <= documents.history && OneFormPerWord(pronounce)
    requires id in tables.jobs ==>
               var doc := D.Run(documents.first, launch);
               && Launched(tables.jobs[id].conversion, doc)
               && id in launched && launched[id] == D.PageTexts(doc.pages)
    requires AllSourced(tables.history, launched, pronounce, anchor)
    requires AllSourced(others.0, launched, pronounce, anchor) && AllSourced(others.1, launched, pronounce, anchor)
    modifies tables, documents
    ensures tables.Valid() && documents.Valid()
    ensures old(tables.history) <= tables.history && old(documents.history) <= documents.history
    ensures AllSourced(tables.history, launched, pronounce, anchor)
    ensures outcome.NotPrepared? ==>
              id !in old(tables.jobs)
                || (id in tables.jobs && Rank(tables.jobs[id].conversion.status) > Rank(Preparing))
    ensures outcome.NotPrepared? <==>
              || id !in old(tables.jobs)
              || (old(tables.jobs)[id].conversion.status != Synthesizing
                  && var db := Run(EmptyDb, tables.policy, old(tables.history) + others.0);
                     id in db.jobs && Rank(db.jobs[id].conversion.status) > Rank(Preparing))
    ensures outcome.NotPrepared? ==>
              && documents.history == old(documents.history)
              && tables.history == old(tables.history) + (if id in old(tables.jobs)
                                                          then others.0 + [Advance(id, MarkPreparing)] else [])
    ensures outcome.Resumed? <==> id in old(tables.jobs) && old(tables.jobs)[id].conversion.status == Synthesizing
    ensures outcome.Resumed? ==> tables.history == old(tables.history) && documents.history == old(documents.history)
    ensures outcome.PreparationFailed? ==>
              && tables.history == old(tables.history) + others.0 + [Advance(id, MarkPreparing)] + others.1
                                  + [Fail(id, outcome.reason)]
              && Explains(outcome.reason, old(tables.jobs)[id].conversion.textRevision, ready,
                          (old(documents.revision), documents.revision))
              && (!IsUsable(old(tables.jobs)[id].conversion.textRevision, ready.0, old(documents.revision)) ==>
                  documents.history == old(documents.history))
    ensures outcome.Planned? ==>
              var revision, history := old(tables.jobs)[id].conversion.textRevision, tables.history;
              && history != []
              && history == old(tables.history) + others.0 + [Advance(id, MarkPreparing)] + others.1
                            + [history[|history| - 1]]
              && IsUsable(revision, ready.0, old(documents.revision))
              && IsUsable(revision, ready.1, documents.revision) && outcome.segmentCount > 0
    ensures outcome.Resumed? ==>
              && id in old(tables.jobs) && tables.jobs == old(tables.jobs)
              && outcome.pending == PendingSegments(tables.jobs[id])
    ensures outcome.PreparationFailed? || outcome.Planned? ==> id in old(tables.jobs) && id in tables.jobs
    ensures outcome.PreparationFailed? ==>
              var refusal := Refusal(old(tables.jobs)[id].conversion.textRevision,
                                     Source(ready.0, old(documents.revision)), Source(ready.1, documents.revision));
              && !InProgress(tables.jobs[id].conversion.status)
              && (refusal.Some? ==> outcome.reason == refusal.value)
              && (refusal.None? ==> outcome.reason == EmptyText && Wordless(D.Run(documents.first, launch)))
    ensures outcome.Planned? ==>
              var doc, c := D.Run(documents.first, launch), old(tables.jobs)[id].conversion;
              var refusal := Refusal(c.textRevision,
                                     Source(ready.0, old(documents.revision)), Source(ready.1, documents.revision));
              && Rank(tables.jobs[id].conversion.status) > Rank(Preparing)
              && refusal.None?
              && Counts(c.reservedChars, doc)
              && WroteText(tables.history, id, doc, outcome.segmentCount, pronounce, anchor, fingerprint)
  {
    hide WroteText, Wordless, Counts, Refusal, D.Run, D.DocOk, D.PageTexts, SoundStep, JobOk, Source, Sourced,
      AllSourced, Explains, IsUsable;
    if id !in tables.jobs {
      return NotPrepared;
    }
    var revision := tables.jobs[id].conversion.textRevision;
    if tables.jobs[id].conversion.status == Synthesizing {
      return Resumed(PendingSegments(tables.jobs[id]));
    }
    LaterStatus(tables.policy, tables.history, tables.history + others.0, id);
    tables.Others(others.0);
    var marked := tables.MarkAndRead(id, others.1);
    MarkIsSourced(old(tables.history), id, others, marked, launched, pronounce, anchor);
    if !marked {
      return NotPrepared;
    }
    outcome := PrepareFromPages(tables, documents, id, revision, launch, launched, ready, pronounce, anchor,
                                fingerprint, corrections, last);
  }

  /** The document, its pages, the document again, and then the rows or the failure. */
  method PrepareFromPages(tables: ConversionTables, documents: D.DocumentTable, id: Id, revision: nat,
                          ghost launch: seq<D.Correction>, ghost launched: map<Id, seq<PageText>>,
                          ready: (Option<bool>, Option<bool>), pronounce: seq<Text> -> Pronunciation,
                          anchor: Text -> bool, fingerprint: Text -> string,
                          corrections: nat -> seq<D.Correction>, last: seq<D.Correction>)
    returns (outcome: PreparationOutcome)
    requires tables.Valid() && documents.Valid() && launch <= documents.history && OneFormPerWord(pronounce)
    requires id in tables.jobs && tables.jobs[id].conversion.status != Queued
    requires D.Run(documents.first, launch).revision == revision
    requires id in launched && launched[id] == D.PageTexts(D.Run(documents.first, launch).pages)
    requires AllSourced(tables.history, launched, pronounce, anchor)
    modifies tables, documents
    ensures tables.Valid() && documents.Valid()
    ensures old(tables.history) <= tables.history && old(documents.history) <= documents.history
    ensures AllSourced(tables.history, launched, pronounce, anchor)
    ensures id in tables.jobs && (outcome.PreparationFailed? || outcome.Planned?)
    ensures !IsUsable(revision, ready.0, old(documents.revision)) ==> documents.history == old(documents.history)
    ensures outcome.PreparationFailed? ==>
              && tables.history == old(tables.history) + [Fail(id, outcome.reason)]
              && Explains(outcome.reason, revision, ready, (old(documents.revision), documents.revision))
    ensures outcome.Planned? ==>
              && |tables.history| == |old(tables.history)| + 1
              && IsUsable(revision, ready.0, old(documents.revision))
              && IsUsable(revision, ready.1, documents.revision) && outcome.segmentCount > 0
    ensures outcome.PreparationFailed? ==>
              var refusal :=
                Refusal(revision, Source(ready.0, old(documents.revision)), Source(ready.1, documents.revision));
              && !InProgress(tables.jobs[id].conversion.status)
              && (refusal.Some? ==> outcome.reason == refusal.value)
              && (refusal.None? ==> outcome.reason == EmptyText && Wordless(D.Run(documents.first, launch)))
    ensures outcome.Planned? ==>
              var doc := D.Run(documents.first, launch);
              var refusal :=
                Refusal(revision, Source(ready.0, old(documents.revision)), Source(ready.1, documents.revision));
              && Rank(tables.jobs[id].conversion.status) > Rank(Preparing)
              && refusal.None?
              && Counts(doc.charCount, doc)
              && WroteText(tables.history, id, doc, outcome.segmentCount, pronounce, anchor, fingerprint)
  {
    hide AreSegmentsOf, D.PageTexts, D.CharsOf, VisiblePages, D.Run, D.DocOk, SoundStep, JobOk, WritesRows, Sourced,
      AllSourced;
    var before := Source(ready.0, documents.revision);
    ghost var history := tables.history;
    if UnusableReason(revision, before).Some? {
      outcome := tables.PrepareMarked(id, revision, before, [], before, fingerprint);
      WrittenIsSourced(history, tables.history, id, [], fingerprint, launched, pronounce, anchor);
      return;
    }
    var raws, second := ReadSegments(documents, launch, revision, pronounce, anchor, corrections, last);
    outcome := tables.PrepareMarked(id, revision, before, raws, Source(ready.1, second), fingerprint);
    WrittenIsSourced(history, tables.history, id, raws, fingerprint, launched, pronounce, anchor);
  }

  /** The pages between two readings of the revision, cut into segments. */
  method ReadSegments(documents: D.DocumentTable, ghost launch: seq<D.Correction>, revision: nat,
                      pronounce: seq<Text> -> Pronunciation, anchor: Text -> bool,
                      corrections: nat -> seq<D.Correction>, last: seq<D.Correction>)
    returns (raws: seq<Raw>, second: nat)
    requires documents.Valid() && launch <= documents.history && OneFormPerWord(pronounce)
    requires D.Run(documents.first, launch).revision == revision
    modifies documents
    ensures documents.Valid() && old(documents.history) <= documents.history && second == documents.revision
    ensures forall i :: 0 <= i < |raws| ==> raws[i].words != []
    ensures old(documents.revision) == revision && second == revision ==>
              var doc := D.Run(documents.first, launch);
              && AreSegmentsOf(raws, D.PageTexts(doc.pages), pronounce, anchor) && Counts(doc.charCount, doc)
              && (raws == [] ==> Wordless(doc))
  {
    var first, texts;
    first, texts, second :=
      documents.ReadRevision(launch, revision, D.Run(documents.first, launch).charCount, corrections, last);
    raws := BuildSsmlSegments(texts, pronounce, anchor);
    if raws == [] {
      NoSegmentsNoText(raws, texts);
    }
  }
}
