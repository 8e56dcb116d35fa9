/** The parts of a conversion and the manifest that describes them. */
module Manifest {
  import opened Wrappers
  import opened PartPlan
  import opened Pipeline
  import opened PartTimeline

  /** The audio of one segment, written once. */
  datatype Audio = Audio(key: string, timepoints: seq<Option<real>>, durationMs: nat, cacheHit: bool)

  /**
   * What the assembly of a part stores. `sources` is the audio that was joined,
   * `durationsMs` what was measured of each, `words` the timeline in its cue file.
   */
  datatype Assembled = Assembled(
    sources: seq<Audio>, durationsMs: seq<nat>, words: seq<TimedWord>,
    durationMs: nat, wordCount: nat, pageStarts: seq<PageStart>)

  datatype Part = Part(plan: PlannedPart, firstWordIndex: nat, assembled: Option<Assembled>)

  datatype ManifestPart = ManifestPart(
    index: nat, ready: bool, firstWordIndex: nat, durationMs: Option<nat>, startMs: Option<nat>,
    wordCount: Option<nat>, pageStarts: seq<PageStart>)

  datatype Book = Book(conversionId: string, documentId: string, voiceId: string, textRevision: nat)

  datatype ConversionManifest = ConversionManifest(
    book: Book, complete: bool, durationMs: Option<nat>, partCount: nat, parts: seq<ManifestPart>)

  predicate AllAssembled(parts: seq<Part>) {
    forall k :: 0 <= k < |parts| ==> parts[k].assembled.Some?
  }

  /** Where part `k` starts in the book: known when every part before it is assembled. */
  function StartOf(parts: seq<Part>, k: nat): (start: Option<nat>)
    requires k <= |parts|
    ensures start.Some? <==> forall i :: 0 <= i < k ==> parts[i].assembled.Some?
  {
    if k == 0 then Some(0)
    else
      var before := StartOf(parts, k - 1);
      if before.None? || parts[k - 1].assembled.None? then None
      else Some(before.value + parts[k - 1].assembled.value.durationMs)
  }

  function EntryOf(parts: seq<Part>, k: nat): ManifestPart
    requires k < |parts|
  {
    var part := parts[k];
    match part.assembled
    case None => ManifestPart(part.plan.index, false, part.firstWordIndex, None, None, None, [])
    case Some(a) =>
      ManifestPart(part.plan.index, true, part.firstWordIndex, Some(a.durationMs), StartOf(parts, k),
                   Some(a.wordCount), a.pageStarts)
  }

  function ManifestOf(book: Book, parts: seq<Part>): ConversionManifest {
    var complete := parts != [] && AllAssembled(parts);
    ConversionManifest(book, complete, if complete then StartOf(parts, |parts|) else None, |parts|,
                       seq(|parts|, k requires 0 <= k < |parts| => EntryOf(parts, k)))
  }

  method BuildManifest(book: Book, parts: seq<Part>) returns (m: ConversionManifest)
    ensures m == ManifestOf(book, parts)
  {
    var elapsed: Option<nat> := Some(0);
    var entries: seq<ManifestPart> := [];
    for k := 0 to |parts|
      invariant elapsed == StartOf(parts, k)
      invariant |entries| == k && forall i :: 0 <= i < k ==> entries[i] == EntryOf(parts, i)
    {
      var startMs := elapsed;
      var part := parts[k];
      elapsed := if part.assembled.None? || elapsed.None? then None
        else Some(elapsed.value + part.assembled.value.durationMs);
      if part.assembled.None? {
        entries := entries + [ManifestPart(part.plan.index, false, part.firstWordIndex, None, None, None, [])];
      } else {
        var a := part.assembled.value;
        entries :=
          entries + [ManifestPart(part.plan.index, true, part.firstWordIndex, Some(a.durationMs), startMs,
                                  Some(a.wordCount), a.pageStarts)];
      }
    }
    var complete := |parts| > 0 && forall k :: 0 <= k < |parts| ==> parts[k].assembled.Some?;
    m := ConversionManifest(book, complete, if complete then elapsed else None, |parts|, entries);
  }

  /** In a complete manifest the parts tile the book: each starts where the previous one ends. */
  lemma CompleteManifestTiles(book: Book, parts: seq<Part>)
    requires parts != [] && AllAssembled(parts)
    ensures var m := ManifestOf(book, parts);
            && m.complete && m.durationMs.Some? && |m.parts| == |parts|
            && m.parts[0].startMs == Some(0)
            && (forall k :: 0 <= k < |parts| ==>
                m.parts[k].ready && m.parts[k].startMs.Some? && m.parts[k].durationMs.Some?)
            && (forall k {:trigger m.parts[k + 1]} :: 0 <= k < |parts| - 1 ==>
                  m.parts[k + 1].startMs == Some(m.parts[k].startMs.value + m.parts[k].durationMs.value))
            && m.durationMs == Some(m.parts[|parts| - 1].startMs.value + m.parts[|parts| - 1].durationMs.value)
  {
  }

  /** Whatever is missing, a part has a start time exactly when it and every part before it are assembled. */
  lemma StartsKnown(book: Book, parts: seq<Part>, k: nat)
    requires k < |parts|
    ensures ManifestOf(book, parts).parts[k].startMs.Some? <==> AllAssembled(parts[..k + 1])
  {
    assert forall i :: 0 <= i < k ==> parts[..k + 1][i] == parts[i];
    if AllAssembled(parts[..k + 1]) {
      assert parts[..k + 1][k] == parts[k];
    }
  }
}
