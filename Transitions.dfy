/**
 * The cross-fade composition (`assembleWithTransition`): every clip is
 * trimmed to the clip length, then the clips are folded left to right with
 * `xfade`, each step combining the accumulated stream with the next clip.
 */
module Transitions {
  import opened Wrappers
  import opened Labels
  import opened FilterGraph
  import opened Timing

  /** `[i:v]trim=0:clip[v{i}]` */
  function TrimNode(i: nat, clip: real): Node
  {
    Node([Stream(i)], Trim(clip), ClipLabel(i))
  }

  /** Output of the i-th cross-fade: `v0{i}` while clips remain, `v` for the last one. */
  function FoldResult(n: nat, i: nat): string
  {
    if n > 2 && i < n - 1 then FoldLabel(i) else FinalLabel
  }

  /** The accumulated stream (`current`) that the i-th cross-fade consumes. */
  function FoldInput(n: nat, i: nat): string
  {
    if i <= 1 then ClipLabel(0) else FoldResult(n, i - 1)
  }

  /** `[current][v{i}]xfade=transition=kind:duration=..:offset=..[result]` */
  function XFadeNode(n: nat, i: nat, kind: string, t: Timing): Node
  {
    Node([Label(FoldInput(n, i)), Label(ClipLabel(i))], XFade(kind, t.transition, Offset(t)), FoldResult(n, i))
  }

  /** The trims of clips 0 .. m-1. */
  function Trims(m: nat, clip: real): seq<Node>
  {
    seq(m, i requires 0 <= i < m => TrimNode(i, clip))
  }

  /** The first m cross-fades of an n-clip fold (for clips 1 .. m). */
  function Fades(n: nat, m: nat, kind: string, t: Timing): seq<Node>
  {
    seq(m, k requires 0 <= k < m => XFadeNode(n, k + 1, kind, t))
  }

  lemma TrimsSnoc(m: nat, clip: real)
    ensures Trims(m + 1, clip) == Trims(m, clip) + [TrimNode(m, clip)]
  {
  }

  lemma FadesSnoc(n: nat, m: nat, kind: string, t: Timing)
    ensures Fades(n, m + 1, kind, t) == Fades(n, m, kind, t) + [XFadeNode(n, m + 1, kind, t)]
  {
  }

  /** n trims followed by the n - 1 cross-fades for clips 1 .. n-1. */
  function TransitionGraph(n: nat, kind: string, t: Timing): (g: seq<Node>)
    requires n >= 2
    ensures |g| == 2 * n - 1
  {
    seq(2 * n - 1, k requires 0 <= k < 2 * n - 1 =>
      if k < n then TrimNode(k, t.clip) else XFadeNode(n, k - n + 1, kind, t))
  }

  /** The graph is the trims followed by the cross-fades, as the two loops append them. */
  lemma TransitionGraphParts(n: nat, kind: string, t: Timing)
    requires n >= 2
    ensures TransitionGraph(n, kind, t) == Trims(n, t.clip) + Fades(n, n - 1, kind, t)
  {
    var g, trims, fades := TransitionGraph(n, kind, t), Trims(n, t.clip), Fades(n, n - 1, kind, t);
    forall k | 0 <= k < |g|
      ensures g[k] == (trims + fades)[k]
    {
      if k >= n {
        assert (trims + fades)[k] == fades[k - n];
      }
    }
  }

  /** Node k of a transition graph: the trim of clip k, or cross-fade k - n + 1. */
  lemma TransitionNode(n: nat, kind: string, t: Timing, k: nat)
    requires n >= 2 && k < 2 * n - 1
    ensures TransitionGraph(n, kind, t)[k] == if k < n then TrimNode(k, t.clip) else XFadeNode(n, k - n + 1, kind, t)
  {
  }

  /** The plan of `assembleWithTransition`: refused below two clips, otherwise
      the graph under the adjusted timing, mapped at `v`. */
  function TransitionPlan(n: nat, kind: string, requested: Timing, userSet: bool, probes: seq<Option<real>>): Option<Plan>
  {
    if n < 2 then None
    else Some(Plan(TransitionGraph(n, kind, Adjust(requested, userSet, probes)), FinalLabel))
  }

  /** Builds the graph as `assembleWithTransition` does: adjusts the two lengths in place,
      appends the trims, then folds with a running `current` label. `probes`
      holds the duration probe of each clip in order. */
  method AssembleWithTransition(n: nat, kind: string, duration: real, transitionDuration: real,
                                userSetDuration: bool, probes: seq<Option<real>>)
    returns (plan: Option<Plan>)
    ensures plan == TransitionPlan(n, kind, Timing(duration, transitionDuration), userSetDuration, probes)
  {
    if n < 2 {
      return None;
    }
    var clip, transition := duration, transitionDuration;
    if !userSetDuration {
      var ds := Durations(probes);
      if |ds| > 0 {
        var auto := Candidate(Min(ds));
        if auto < clip {
          clip := auto;
          if transition > clip - 1.0 {
            transition := MaxReal(0.5, clip - 1.0);
          }
        }
      }
    }
    var t := Timing(clip, transition);
    assert t == Adjust(Timing(duration, transitionDuration), userSetDuration, probes);

    var trims := TrimLoop(n, clip);
    var chain := FoldLoop(n, kind, t, trims);
    TransitionGraphParts(n, kind, t);
    plan := Some(Plan(chain, FinalLabel));
  }

  /** The first loop of `assembleWithTransition`: one trim per clip, in order. */
  method TrimLoop(n: nat, clip: real) returns (chain: seq<Node>)
    ensures chain == Trims(n, clip)
  {
    chain := [];
    var i := 0;
    while i < n
      invariant 0 <= i <= n
      invariant chain == Trims(i, clip)
    {
      chain := chain + [Node([Stream(i)], Trim(clip), ClipLabel(i))];
      TrimsSnoc(i, clip);
      i := i + 1;
    }
  }

  /** The fold loop of `assembleWithTransition`: appends one cross-fade per
      clip after the first, each taking the running `current` label and the
      next clip, and moves `current` to its result. */
  method FoldLoop(n: nat, kind: string, t: Timing, trims: seq<Node>) returns (chain: seq<Node>)
    requires n >= 1
    ensures chain == trims + Fades(n, n - 1, kind, t)
  {
    var offset := Offset(t);
    chain := trims;
    var current := ClipLabel(0);
    ghost var fades := [];
    var i := 1;
    while i < n
      invariant 1 <= i <= n
      invariant current == FoldInput(n, i)
      invariant fades == Fades(n, i - 1, kind, t)
      invariant chain == trims + fades
    {
      var next := ClipLabel(i);
      var result := if n > 2 && i < n - 1 then FoldLabel(i) else FinalLabel;
      var node := Node([Label(current), Label(next)], XFade(kind, t.transition, offset), result);
      assert node == XFadeNode(n, i, kind, t);
      FadesSnoc(n, i - 1, kind, t);
      chain, fades := chain + [node], fades + [node];
      assert chain == trims + fades;
      current := result;
      i := i + 1;
    }
  }

  /** n trims of 0..clip producing v0..v(n-1), then n - 1 cross-fades that all
      share the kind, the duration and the offset. */
  lemma TransitionShape(n: nat, kind: string, t: Timing)
    requires n >= 2
    ensures var g := TransitionGraph(n, kind, t);
            && |g| == 2 * n - 1
            && (forall k :: 0 <= k < n ==>
                  g[k].inputs == [Stream(k)] && g[k].filter == Trim(t.clip) && g[k].output == ClipLabel(k))
            && (forall k :: n <= k < |g| ==> g[k].filter == XFade(kind, t.transition, Offset(t)))
            && CountOp(g, TrimOp) == n && CountOp(g, XFadeOp) == n - 1
  {
    var g := TransitionGraph(n, kind, t);
    forall k | 0 <= k < n
      ensures g[k].inputs == [Stream(k)] && g[k].filter == Trim(t.clip) && g[k].output == ClipLabel(k)
    {
      TransitionNode(n, kind, t, k);
    }
    forall k | n <= k < |g|
      ensures g[k].filter == XFade(kind, t.transition, Offset(t))
    {
      TransitionNode(n, kind, t, k);
    }
    TransitionCounts(n, kind, t);
  }

  lemma TransitionCounts(n: nat, kind: string, t: Timing)
    requires n >= 2
    ensures CountOp(TransitionGraph(n, kind, t), TrimOp) == n
    ensures CountOp(TransitionGraph(n, kind, t), XFadeOp) == n - 1
  {
    var trims, fades := Trims(n, t.clip), Fades(n, n - 1, kind, t);
    TransitionGraphParts(n, kind, t);
    CountOpTwoRuns(trims, fades, TrimOp, XFadeOp);
  }

  /** The fold runs left to right: the first cross-fade takes v0 and v1, every
      later one takes the previous cross-fade's output and the next clip;
      intermediate results are v01 .. v0(n-2) and the last is `v`. */
  lemma TransitionFoldOrder(n: nat, kind: string, t: Timing)
    requires n >= 2
    ensures var g := TransitionGraph(n, kind, t);
            && g[n].inputs == [Label(ClipLabel(0)), Label(ClipLabel(1))]
            && (forall i :: 2 <= i < n ==> g[n - 1 + i].inputs == [Label(g[n - 2 + i].output), Label(ClipLabel(i))])
            && (forall i :: 1 <= i < n - 1 ==> g[n - 1 + i].output == FoldLabel(i))
            && g[2 * n - 2].output == FinalLabel
  {
    var g := TransitionGraph(n, kind, t);
    TransitionNode(n, kind, t, n);
    TransitionNode(n, kind, t, 2 * n - 2);
    forall i | 2 <= i < n
      ensures g[n - 1 + i].inputs == [Label(g[n - 2 + i].output), Label(ClipLabel(i))]
    {
      TransitionNode(n, kind, t, n - 1 + i);
      TransitionNode(n, kind, t, n - 2 + i);
    }
    forall i | 1 <= i < n - 1
      ensures g[n - 1 + i].output == FoldLabel(i)
    {
      TransitionNode(n, kind, t, n - 1 + i);
    }
  }

  /** Two nodes of a transition graph never share an output label. */
  lemma TransitionOutputsDiffer(n: nat, kind: string, t: Timing, a: nat, b: nat)
    requires n >= 2 && a < b < 2 * n - 1
    ensures TransitionGraph(n, kind, t)[a].output != TransitionGraph(n, kind, t)[b].output
  {
    TransitionNode(n, kind, t, a);
    TransitionNode(n, kind, t, b);
    if b < n {
      ClipLabelInjective(a, b);
    } else if a < n {
      ClipLabelNotFoldLabel(a, b - n + 1);
      IndexedLabelsNotFinal(a, 0, 0, 0);
    } else {
      FoldLabelInjective(a - n + 1, b - n + 1);
      IndexedLabelsNotFinal(0, a - n + 1, 0, 0);
    }
  }

  /** Every input of node k is an input file or the output of an earlier node. */
  lemma TransitionInputDefined(n: nat, kind: string, t: Timing, k: nat, m: nat)
    requires n >= 2 && k < 2 * n - 1
    requires m < |TransitionGraph(n, kind, t)[k].inputs|
    ensures Defined(TransitionGraph(n, kind, t)[k].inputs[m], TransitionGraph(n, kind, t), k, n)
  {
    var g := TransitionGraph(n, kind, t);
    TransitionNode(n, kind, t, k);
    if k >= n {
      var i := k - n + 1;
      if m == 0 {
        var j := if i == 1 then 0 else k - 1;
        TransitionNode(n, kind, t, j);
        assert g[j].output == FoldInput(n, i);
      } else {
        TransitionNode(n, kind, t, i);
        assert g[i].output == ClipLabel(i);
      }
    }
  }

  /** Every transition graph is well formed and ends in the label that `-map` selects. */
  lemma TransitionWellFormed(n: nat, kind: string, t: Timing)
    requires n >= 2
    ensures WellFormed(Plan(TransitionGraph(n, kind, t), FinalLabel), n)
  {
    var g := TransitionGraph(n, kind, t);
    TransitionNode(n, kind, t, 2 * n - 2);
    forall a, b | 0 <= a < b < |g|
      ensures g[a].output != g[b].output
    {
      TransitionOutputsDiffer(n, kind, t, a, b);
    }
    forall k, m | 0 <= k < |g| && 0 <= m < |g[k].inputs|
      ensures Defined(g[k].inputs[m], g, k, n)
    {
      TransitionInputDefined(n, kind, t, k, m);
    }
  }

  /** Whatever the probes say, the plan for two or more clips is well formed and
      its cross-fades never get a negative offset. */
  lemma TransitionPlanSound(n: nat, kind: string, requested: Timing, userSet: bool, probes: seq<Option<real>>)
    requires n >= 2
    ensures var p := TransitionPlan(n, kind, requested, userSet, probes);
            p.Some? && WellFormed(p.value, n)
            && forall k :: n <= k < |p.value.graph| ==> p.value.graph[k].filter.XFade? && p.value.graph[k].filter.offset >= 0.0
  {
    var t := Adjust(requested, userSet, probes);
    TransitionWellFormed(n, kind, t);
    TransitionShape(n, kind, t);
  }
}
