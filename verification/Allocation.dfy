/**
 * Splitting a charge between the free tier, the active pass and the wallet,
 * and giving part of it back.
 */
module Allocation {
  import opened Numbers
  import opened Wrappers

  datatype VoiceTier = Standard | Natural

  /** A character costs one unit with a standard voice, four with a natural one. */
  function ForChars(chars: nat, tier: VoiceTier): nat {
    match tier
    case Standard => chars
    case Natural => 4 * chars
  }

  datatype Source = Free | Pass | Credits

  /** The most perishable source first. */
  const DEBIT_ORDER: seq<Source> := [Free, Pass, Credits]
  const REFUND_ORDER: seq<Source> := [Credits, Pass, Free]

  datatype UnitsBySource = UnitsBySource(free: nat, pass: nat, credits: nat) {
    function Get(source: Source): nat {
      match source
      case Free => free
      case Pass => pass
      case Credits => credits
    }

    function Set(source: Source, units: nat): UnitsBySource {
      match source
      case Free => this.(free := units)
      case Pass => this.(pass := units)
      case Credits => this.(credits := units)
    }

    function Total(): nat {
      free + pass + credits
    }

    /** In debit order. */
    function Parts(): (s: seq<nat>)
      ensures |s| == 3
    {
      [free, pass, credits]
    }
  }

  const Nothing := UnitsBySource(0, 0, 0)

  datatype Shortfall = Shortfall(requested: nat, tier: VoiceTier, available: UnitsBySource, usable: nat)

  /** The free tier pays for standard voices only. */
  function UsableFrom(source: Source, tier: VoiceTier, available: UnitsBySource): nat {
    if source == Free && tier != Standard then 0 else available.Get(source)
  }

  function Usable(tier: VoiceTier, available: UnitsBySource): UnitsBySource {
    available.(free := UsableFrom(Free, tier, available))
  }

  // ---- the order-independent reference: greedy filling of any list of sources ----

  function Total(s: seq<nat>): nat {
    if s == [] then 0 else s[0] + Total(s[1..])
  }

  /** Takes `units` from the front of `caps`, as much as each cap allows. */
  function Fill(caps: seq<nat>, units: nat): (taken: seq<nat>)
    ensures |taken| == |caps|
  {
    if caps == [] then []
    else
      var take := Min(units, caps[0]);
      [take] + Fill(caps[1..], units - take)
  }

  /** Gives `units` back from the end of `taken`. */
  function Drain(taken: seq<nat>, units: nat): (given: seq<nat>)
    ensures |given| == |taken|
    ensures forall i :: 0 <= i < |taken| ==> given[i] <= taken[i]
    decreases |taken|
  {
    if taken == [] then []
    else
      var last := |taken| - 1;
      var give := Min(units, taken[last]);
      Drain(taken[..last], units - give) + [give]
  }

  /** What draining leaves in each source. */
  ghost function Left(taken: seq<nat>, units: nat): (left: seq<nat>)
    ensures |left| == |taken|
    decreases |taken|
  {
    if taken == [] then []
    else
      var last := |taken| - 1;
      var give := Min(units, taken[last]);
      Left(taken[..last], units - give) + [taken[last] - give]
  }

  /** `taken` is the greedy split of `units`: nothing from a source while an earlier one has room. */
  ghost predicate IsGreedy(caps: seq<nat>, units: nat, taken: seq<nat>) {
    && |taken| == |caps|
    && Total(taken) == units
    && (forall i :: 0 <= i < |caps| ==> taken[i] <= caps[i])
    && (forall i, j :: 0 <= i < j < |caps| && taken[j] > 0 ==> taken[i] == caps[i])
  }

  lemma {:induction false} ZeroTotal(s: seq<nat>)
    requires Total(s) == 0
    ensures forall i :: 0 <= i < |s| ==> s[i] == 0
  {
    if s != [] {
      ZeroTotal(s[1..]);
      assert forall i :: 1 <= i < |s| ==> s[i] == s[1..][i - 1];
    }
  }

  lemma {:induction false} FillIsGreedy(caps: seq<nat>, units: nat)
    requires units <= Total(caps)
    ensures IsGreedy(caps, units, Fill(caps, units))
  {
    if caps != [] {
      var take := Min(units, caps[0]);
      var rest := Fill(caps[1..], units - take);
      FillIsGreedy(caps[1..], units - take);
      var taken := Fill(caps, units);
      assert taken[1..] == rest;
      if take < caps[0] {
        ZeroTotal(rest);
      }
      forall i, j | 0 <= i < j < |caps| && taken[j] > 0 ensures taken[i] == caps[i] {
        assert rest[j - 1] > 0;
        if i > 0 {
          assert rest[i - 1] == caps[1..][i - 1];
        }
      }
    }
  }

  lemma {:induction false} TotalSnoc(s: seq<nat>, x: nat)
    ensures Total(s + [x]) == Total(s) + x
  {
    if s == [] {
      assert s + [x] == [x];
      assert [x][1..] == [];
    } else {
      assert (s + [x])[1..] == s[1..] + [x];
      TotalSnoc(s[1..], x);
    }
  }

  lemma {:induction false} DrainSnoc(front: seq<nat>, x: nat, back: nat)
    ensures var give := Min(back, x);
            && Drain(front + [x], back) == Drain(front, back - give) + [give]
            && Left(front + [x], back) == Left(front, back - give) + [x - give]
  {
    assert (front + [x])[..|front|] == front;
  }

  lemma {:induction false} DrainSplits(taken: seq<nat>, back: nat)
    ensures forall i :: 0 <= i < |taken| ==> taken[i] == Drain(taken, back)[i] + Left(taken, back)[i]
    decreases |taken|
  {
    if taken != [] {
      var last := |taken| - 1;
      DrainSplits(taken[..last], back - Min(back, taken[last]));
    }
  }

  lemma {:induction false} LeftOfZero(taken: seq<nat>)
    ensures Left(taken, 0) == taken
    decreases |taken|
  {
    if taken != [] {
      LeftOfZero(taken[..|taken| - 1]);
    }
  }

  lemma {:induction false} DrainTotal(taken: seq<nat>, back: nat)
    requires back <= Total(taken)
    ensures Total(Drain(taken, back)) == back
    decreases |taken|
  {
    if taken != [] {
      var last := |taken| - 1;
      var give := Min(back, taken[last]);
      assert taken == taken[..last] + [taken[last]];
      TotalSnoc(taken[..last], taken[last]);
      DrainTotal(taken[..last], back - give);
      TotalSnoc(Drain(taken[..last], back - give), give);
    }
  }

  lemma {:induction false} FillSaturated(caps: seq<nat>, units: nat)
    requires Total(caps) <= units
    ensures Fill(caps, units) == caps
  {
    if caps != [] {
      FillSaturated(caps[1..], units - caps[0]);
    }
  }

  lemma {:induction false} FillSnoc(caps: seq<nat>, cap: nat, units: nat)
    ensures Fill(caps + [cap], units) == Fill(caps, units) + [Min(cap, units - Min(units, Total(caps)))]
  {
    if caps == [] {
      assert [cap][1..] == [] && caps + [cap] == [cap];
    } else {
      assert (caps + [cap])[1..] == caps[1..] + [cap];
      FillSnoc(caps[1..], cap, units - Min(units, caps[0]));
    }
  }

  /** Asking for more than there is takes what there is. */
  lemma {:induction false} FillCapped(caps: seq<nat>, units: nat)
    ensures Fill(caps, Min(units, Total(caps))) == Fill(caps, units)
  {
    if Total(caps) <= units {
      FillSaturated(caps, units);
      FillSaturated(caps, Total(caps));
    }
  }

  lemma LeftInLast(front: seq<nat>, x: nat, back: nat)
    requires back <= x
    ensures Left(front + [x], back) == front + [x - back]
  {
    DrainSnoc(front, x, back);
    LeftOfZero(front);
  }

  lemma LeftPastLast(front: seq<nat>, x: nat, back: nat)
    requires x < back
    ensures Left(front + [x], back) == Left(front, back - x) + [0]
  {
    DrainSnoc(front, x, back);
  }

  /** A covered request: the last source gives what the ones before do not. */
  lemma FillSplit(front: seq<nat>, cap: nat, units: nat)
    requires units <= Total(front) + cap
    ensures var taken := Min(units, Total(front));
            Fill(front + [cap], units) == Fill(front, taken) + [units - taken]
  {
    FillSnoc(front, cap, units);
    FillCapped(front, units);
  }

  /** The last source gives everything back by itself. */
  lemma LeftOfFillLast(front: seq<nat>, cap: nat, units: nat, back: nat)
    requires units <= Total(front) + cap
    requires back <= units - Min(units, Total(front))
    ensures Left(Fill(front + [cap], units), back) == Fill(front + [cap], units - back)
  {
    var taken := Min(units, Total(front));
    FillSplit(front, cap, units);
    LeftInLast(Fill(front, taken), units - taken, back);
    assert Min(units - back, Total(front)) == taken;
    FillSplit(front, cap, units - back);
  }

  /** The last source is emptied, the ones before give the rest. */
  lemma LeftOfFillFront(front: seq<nat>, cap: nat, units: nat, back: nat)
    requires back <= units <= Total(front) + cap
    requires units - Min(units, Total(front)) < back
    requires var taken := Min(units, Total(front));
             Left(Fill(front, taken), back - (units - taken)) == Fill(front, units - back)
    ensures Left(Fill(front + [cap], units), back) == Fill(front + [cap], units - back)
  {
    var taken := Min(units, Total(front));
    FillSplit(front, cap, units);
    LeftPastLast(Fill(front, taken), units - taken, back);
    FillSplit(front, cap, units - back);
  }

  lemma {:induction false} LeftOfFill(caps: seq<nat>, units: nat, back: nat)
    requires back <= units <= Total(caps)
    ensures Left(Fill(caps, units), back) == Fill(caps, units - back)
    decreases |caps|
  {
    if caps != [] {
      var front, cap := caps[..|caps| - 1], caps[|caps| - 1];
      assert caps == front + [cap];
      TotalSnoc(front, cap);
      var taken := Min(units, Total(front));
      if back <= units - taken {
        LeftOfFillLast(front, cap, units, back);
      } else {
        LeftOfFill(front, taken, back - (units - taken));
        LeftOfFillFront(front, cap, units, back);
      }
    }
  }

  /**
   * For any list of sources: taking `units` and giving `back` of them back is
   * the same as having taken `units - back` in the first place.
   */
  lemma DrainUndoesFill(caps: seq<nat>, units: nat, back: nat)
    requires back <= units <= Total(caps)
    ensures forall i :: 0 <= i < |caps| ==>
              Fill(caps, units)[i] - Drain(Fill(caps, units), back)[i] == Fill(caps, units - back)[i]
  {
    DrainSplits(Fill(caps, units), back);
    LeftOfFill(caps, units, back);
  }

  // ---- the two operations, over the three sources ----

  function FromParts(s: seq<nat>): UnitsBySource
    requires |s| == 3
  {
    UnitsBySource(s[0], s[1], s[2])
  }

  /** What a covered request takes. */
  function Taken(requested: nat, tier: VoiceTier, available: UnitsBySource): UnitsBySource {
    FromParts(Fill(Usable(tier, available).Parts(), requested))
  }

  /** What a refund of `units` gives back to each source. */
  function Refunded(reserved: UnitsBySource, units: nat): (r: UnitsBySource)
    ensures r.free <= reserved.free && r.pass <= reserved.pass && r.credits <= reserved.credits
  {
    FromParts(Drain(reserved.Parts(), units))
  }

  function Subtract(a: UnitsBySource, b: UnitsBySource): UnitsBySource
    requires b.free <= a.free && b.pass <= a.pass && b.credits <= a.credits
  {
    UnitsBySource(a.free - b.free, a.pass - b.pass, a.credits - b.credits)
  }

  lemma TotalOfParts(u: UnitsBySource)
    ensures Total(u.Parts()) == u.Total()
  {
    var p := u.Parts();
    assert p[1..] == [u.pass, u.credits];
    assert p[1..][1..] == [u.credits];
    assert Total([u.credits]) == u.credits + Total([u.credits][1..]);
  }

  /** The two recursions over exactly three sources, written out. */
  lemma FillOfThree(caps: UnitsBySource, units: nat)
    ensures var free := Min(units, caps.free);
            var pass := Min(units - free, caps.pass);
            FromParts(Fill(caps.Parts(), units)) == UnitsBySource(free, pass, Min(units - free - pass, caps.credits))
  {
    var p := caps.Parts();
    var free := Min(units, caps.free);
    var pass := Min(units - free, caps.pass);
    assert p[1..] == [caps.pass, caps.credits];
    assert [caps.pass, caps.credits][1..] == [caps.credits];
    assert Fill([caps.credits], units - free - pass) == [Min(units - free - pass, caps.credits)];
    assert Fill([caps.pass, caps.credits], units - free) == [pass] + Fill([caps.credits], units - free - pass);
    assert Fill(p, units) == [free] + Fill([caps.pass, caps.credits], units - free);
  }

  lemma DrainOfThree(taken: UnitsBySource, units: nat)
    ensures var credits := Min(units, taken.credits);
            var pass := Min(units - credits, taken.pass);
            Refunded(taken, units) == UnitsBySource(Min(units - credits - pass, taken.free), pass, credits)
  {
    var credits := Min(units, taken.credits);
    var pass := Min(units - credits, taken.pass);
    DrainSnoc([], taken.free, units - credits - pass);
    DrainSnoc([taken.free], taken.pass, units - credits);
    DrainSnoc([taken.free, taken.pass], taken.credits, units);
    assert [] + [taken.free] == [taken.free];
    assert [taken.free] + [taken.pass] == [taken.free, taken.pass];
    assert [taken.free, taken.pass] + [taken.credits] == taken.Parts();
  }

  method Allocate(requested: nat, tier: VoiceTier, available: UnitsBySource)
    returns (r: Result<UnitsBySource, Shortfall>)
    ensures r.Ok? <==> requested <= Usable(tier, available).Total()
    ensures r.Ok? ==> r.value == Taken(requested, tier, available)
    ensures r.Err? ==> r.error == Shortfall(requested, tier, available, Usable(tier, available).Total())
  {
    var taken := Nothing;
    var missing := requested;
    ghost var usable := Usable(tier, available);
    for k := 0 to |DEBIT_ORDER|
      invariant missing == requested - taken.free - taken.pass - taken.credits
      invariant taken.free == if k < 1 then 0 else Min(requested, usable.free)
      invariant taken.pass == if k < 2 then 0 else Min(requested - taken.free, usable.pass)
      invariant taken.credits == if k < 3 then 0 else Min(requested - taken.free - taken.pass, usable.credits)
    {
      var source := DEBIT_ORDER[k];
      var take := Min(missing, UsableFrom(source, tier, available));
      taken := taken.Set(source, take);
      missing := missing - take;
    }
    if missing > 0 {
      return Err(Shortfall(requested, tier, available, requested - missing));
    }
    FillOfThree(usable, requested);
    return Ok(taken);
  }

  method SplitRefund(reserved: UnitsBySource, units: nat) returns (refunded: UnitsBySource)
    ensures refunded == Refunded(reserved, units)
  {
    refunded := Nothing;
    var left := units;
    for k := 0 to |REFUND_ORDER|
      invariant left == units - refunded.free - refunded.pass - refunded.credits
      invariant refunded.credits == if k < 1 then 0 else Min(units, reserved.credits)
      invariant refunded.pass == if k < 2 then 0 else Min(units - refunded.credits, reserved.pass)
      invariant refunded.free == if k < 3 then 0 else Min(units - refunded.credits - refunded.pass, reserved.free)
    {
      var source := REFUND_ORDER[k];
      var give := Min(left, reserved.Get(source));
      refunded := refunded.Set(source, give);
      left := left - give;
    }
    DrainOfThree(reserved, units);
  }

  /** A covered request takes exactly what was asked, the most perishable source first. */
  lemma TakenIsGreedy(requested: nat, tier: VoiceTier, available: UnitsBySource)
    requires requested <= Usable(tier, available).Total()
    ensures IsGreedy(Usable(tier, available).Parts(), requested, Taken(requested, tier, available).Parts())
    ensures Taken(requested, tier, available).Total() == requested
  {
    var caps := Usable(tier, available).Parts();
    var taken := Taken(requested, tier, available);
    TotalOfParts(Usable(tier, available));
    FillIsGreedy(caps, requested);
    assert taken.Parts() == Fill(caps, requested);
    TotalOfParts(taken);
  }

  /** No source gives more than it may. */
  lemma TakenWithin(requested: nat, tier: VoiceTier, available: UnitsBySource)
    requires requested <= Usable(tier, available).Total()
    ensures var taken := Taken(requested, tier, available);
            && taken.Total() == requested
            && taken.free <= UsableFrom(Free, tier, available)
            && taken.pass <= available.pass
            && taken.credits <= available.credits
  {
    var caps := Usable(tier, available).Parts();
    TakenIsGreedy(requested, tier, available);
    var parts := Taken(requested, tier, available).Parts();
    assert parts[0] <= caps[0] && parts[1] <= caps[1] && parts[2] <= caps[2];
  }

  /** A refund undoes the debit exactly, source by source. */
  lemma RefundUndoesDebit(requested: nat, tier: VoiceTier, available: UnitsBySource, back: nat)
    requires back <= requested <= Usable(tier, available).Total()
    ensures var taken := Taken(requested, tier, available);
            && Refunded(taken, back).Total() == back
            && Subtract(taken, Refunded(taken, back)) == Taken(requested - back, tier, available)
  {
    var caps := Usable(tier, available).Parts();
    var taken := Taken(requested, tier, available);
    TotalOfParts(Usable(tier, available));
    TakenIsGreedy(requested, tier, available);
    RefundedTotal(taken, back);
    DrainUndoesFill(caps, requested, back);
    assert taken.Parts() == Fill(caps, requested);
  }

  lemma RefundedTotal(reserved: UnitsBySource, back: nat)
    requires back <= reserved.Total()
    ensures Refunded(reserved, back).Total() == back
  {
    TotalOfParts(reserved);
    DrainTotal(reserved.Parts(), back);
    assert Drain(reserved.Parts(), back) == Refunded(reserved, back).Parts();
    TotalOfParts(Refunded(reserved, back));
  }
}
