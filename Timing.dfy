/**
 * Reconciling the requested clip and transition lengths with the probed
 * lengths of the clips (the auto-detect block of `assembleWithTransition`).
 * Lengths are seconds as reals; the requested values come from the command
 * line (integers) and the probes from ffprobe.
 */
module Timing {
  import opened Wrappers

  /** Seconds of each clip kept by `trim`, and seconds of each cross-fade. */
  datatype Timing = Timing(clip: real, transition: real)

  function MaxReal(a: real, b: real): (m: real)
    ensures m >= a && m >= b && (m == a || m == b)
  {
    if a >= b then a else b
  }

  /** The successful duration probes, in clip order; failed probes are dropped. */
  function Durations(probes: seq<Option<real>>): (ds: seq<real>)
    ensures |ds| <= |probes|
    ensures forall d :: d in ds <==> Some(d) in probes
  {
    if |probes| == 0 then []
    else
      var last := probes[|probes| - 1];
      assert probes == probes[..|probes| - 1] + [last];
      Durations(probes[..|probes| - 1]) + (if last.Some? then [last.value] else [])
  }

  /** The shortest of the probed lengths (`Math.min`). */
  function Min(ds: seq<real>): (m: real)
    requires |ds| > 0
    ensures m in ds
    ensures forall d :: d in ds ==> m <= d
  {
    if |ds| == 1 then ds[0]
    else
      var rest := Min(ds[1..]);
      assert ds == [ds[0]] + ds[1..];
      if ds[0] <= rest then ds[0] else rest
  }

  /** `max(2, floor(shortest) - 1)`: a whole number of seconds, at least 2,
      and at least one second shorter than the shortest clip unless the floor of 2 applies;
      it is the largest such number, less than two seconds below the shortest clip. */
  function Candidate(shortest: real): (c: real)
    ensures c >= 2.0 && c == c.Floor as real
    ensures c == 2.0 || c <= shortest - 1.0
    ensures c > shortest - 2.0
  {
    var f := shortest.Floor - 1;
    if f > 2 then f as real else 2.0
  }

  /** The timing actually used: the requested one, unless the user did not set
      the duration, some probe succeeded and the candidate is shorter; then the
      clip shrinks to the candidate and a transition longer than `clip - 1` is
      clamped to `max(0.5, clip - 1)`. */
  function Adjust(requested: Timing, userSet: bool, probes: seq<Option<real>>): (t: Timing)
    ensures t.clip <= requested.clip
    ensures userSet || Durations(probes) == [] ==> t == requested
    ensures t.clip < requested.clip ==> t.clip >= 2.0 && t.transition <= t.clip - 1.0
    ensures t.clip == requested.clip ==> t.transition == requested.transition
    ensures t.transition != requested.transition ==> t.transition == t.clip - 1.0
    ensures requested.transition <= t.clip - 1.0 ==> t.transition == requested.transition
  {
    var ds := Durations(probes);
    if userSet || |ds| == 0 then requested
    else
      var auto := Candidate(Min(ds));
      if auto < requested.clip then
        var transition :=
          if requested.transition > auto - 1.0 then MaxReal(0.5, auto - 1.0) else requested.transition;
        Timing(auto, transition)
      else requested
  }

  /** The xfade offset `max(0, clip - transition)`. */
  function Offset(t: Timing): (o: real)
    ensures o >= 0.0
    ensures o >= t.clip - t.transition
    ensures o == 0.0 || o == t.clip - t.transition
  {
    MaxReal(0.0, t.clip - t.transition)
  }

  /** The clip length shrinks exactly when the candidate from the probes is shorter than the request,
      and then it is that candidate. */
  lemma AdjustShrinksIff(requested: Timing, userSet: bool, probes: seq<Option<real>>)
    ensures var t := Adjust(requested, userSet, probes);
            var ds := Durations(probes);
            (t.clip < requested.clip <==> !userSet && ds != [] && Candidate(Min(ds)) < requested.clip)
            && (t.clip < requested.clip ==> t.clip == Candidate(Min(ds)))
  {
  }

  /** After an adjustment every cross-fade starts at least one second into the clip. */
  lemma AdjustedOffsetAtLeastOne(requested: Timing, userSet: bool, probes: seq<Option<real>>)
    requires Adjust(requested, userSet, probes).clip < requested.clip
    ensures Offset(Adjust(requested, userSet, probes)) >= 1.0
  {
  }

  /** With auto-detection on, the clip length never exceeds `max(2, d - 1)` for any probed length d. */
  lemma {:induction false} AdjustedFitsEveryProbe(requested: Timing, probes: seq<Option<real>>, d: real)
    requires Some(d) in probes
    ensures Adjust(requested, false, probes).clip <= MaxReal(2.0, d - 1.0)
  {
    var ds := Durations(probes);
    assert d in ds;
    var m := Min(ds);
    assert m <= d;
    var c := Candidate(m);
    assert c == 2.0 || c <= d - 1.0;
  }

  /** Adjusting an already adjusted timing changes nothing. */
  lemma AdjustIdempotent(requested: Timing, userSet: bool, probes: seq<Option<real>>)
    ensures var t := Adjust(requested, userSet, probes);
            Adjust(t, userSet, probes) == t
  {
    var t := Adjust(requested, userSet, probes);
    var ds := Durations(probes);
    if !userSet && ds != [] {
      var auto := Candidate(Min(ds));
      assert t.clip <= auto;
    }
  }

  /** Clips of 20, 25 and 30 seconds with the default request: the candidate 19 is not shorter, nothing changes. */
  lemma LongClipsKeepRequest()
    ensures Adjust(Timing(10.0, 1.0), false, [Some(20.0), Some(25.0), Some(30.0)]) == Timing(10.0, 1.0)
  {
    var probes := [Some(20.0), Some(25.0), Some(30.0)];
    assert Durations(probes) == [20.0, 25.0, 30.0] by {
      assert probes[..2] == [Some(20.0), Some(25.0)];
      assert probes[..2][..1] == [Some(20.0)];
    }
    assert Min([20.0, 25.0, 30.0]) == 20.0;
    assert (20.0).Floor == 20;
  }

  /** Clips of 3, 4 and 5 seconds: the candidate max(2, 2) = 2 replaces 10; the transition 1 is not above 2 - 1. */
  lemma ShortClipsShrink()
    ensures Adjust(Timing(10.0, 1.0), false, [Some(3.0), Some(4.0), Some(5.0)]) == Timing(2.0, 1.0)
  {
    var probes := [Some(3.0), Some(4.0), Some(5.0)];
    assert Durations(probes) == [3.0, 4.0, 5.0] by {
      assert probes[..2] == [Some(3.0), Some(4.0)];
      assert probes[..2][..1] == [Some(3.0)];
    }
    assert Min([3.0, 4.0, 5.0]) == 3.0;
    assert (3.0).Floor == 3;
  }

  /** The durations of two runs of probes are those of the first run, then those of the second. */
  lemma {:induction false} DurationsAppend(a: seq<Option<real>>, b: seq<Option<real>>)
    ensures Durations(a + b) == Durations(a) + Durations(b)
    decreases |b|
  {
    if |b| == 0 {
      assert a + b == a;
    } else {
      var init := b[..|b| - 1];
      assert (a + b)[..|a + b| - 1] == a + init;
      DurationsAppend(a, init);
    }
  }

  /** A failed probe is ignored wherever it occurs: only the clips that answered count. */
  lemma FailedProbesIgnored(requested: Timing, userSet: bool, before: seq<Option<real>>, after: seq<Option<real>>)
    ensures Adjust(requested, userSet, before + [None] + after) == Adjust(requested, userSet, before + after)
  {
    DurationsAppend(before + [None], after);
    DurationsAppend(before, [None]);
    DurationsAppend(before, after);
    var failed: seq<Option<real>> := [None];
    assert failed[..0] == [];
    assert Durations(failed) == [];
    assert Durations(before) + [] == Durations(before);
  }
}
