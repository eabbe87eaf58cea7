/**
 * The filter graph handed to ffmpeg's `-filter_complex`, as structured nodes
 * instead of the `[in][in]op=params[out];...` text. The builders emit node by
 * node what they append to `filterChain`; the predicates here are the
 * invariant every emitted graph keeps: no duplicate output label and no input
 * that refers to a label not produced by an earlier node.
 */
module FilterGraph {

  /** An input pad: the video stream of input file i (`[i:v]`) or a label. */
  datatype Pad = Stream(clip: nat) | Label(name: string)

  /** The filters the planner uses, with their parameters. */
  datatype Filter =
    | Trim(end: real)                                    // trim=0:end
    | XFade(kind: string, duration: real, offset: real)  // xfade=transition=..:duration=..:offset=..
    | Scale(width: int, height: int)                     // scale=W:H
    | Color(width: int, height: int)                     // color=c=black:s=WxH (a source: no inputs)
    | HStack(count: nat)                                 // hstack=inputs=N
    | VStack(count: nat)                                 // vstack=inputs=N

  datatype Node = Node(inputs: seq<Pad>, filter: Filter, output: string)

  /** A built graph and the label that `-map` selects. */
  datatype Plan = Plan(graph: seq<Node>, final: string)

  /** The operation of a filter, without its parameters. */
  datatype Op = TrimOp | XFadeOp | ScaleOp | ColorOp | HStackOp | VStackOp

  function OpOf(f: Filter): Op
  {
    match f
    case Trim(_) => TrimOp
    case XFade(_, _, _) => XFadeOp
    case Scale(_, _) => ScaleOp
    case Color(_, _) => ColorOp
    case HStack(_) => HStackOp
    case VStack(_) => VStackOp
  }

  /** No two nodes produce the same label. */
  predicate UniqueOutputs(g: seq<Node>)
  {
    forall i, j :: 0 <= i < j < |g| ==> g[i].output != g[j].output
  }

  /** Pad p, consumed by node k, refers to an input file or to an earlier node's output. */
  predicate Defined(p: Pad, g: seq<Node>, k: nat, clips: nat)
  {
    match p
    case Stream(c) => c < clips
    case Label(l) => exists j :: 0 <= j < k && j < |g| && g[j].output == l
  }

  /** A label produced by an earlier node is defined. */
  lemma DefinedByEarlier(p: Pad, g: seq<Node>, k: nat, clips: nat, j: nat)
    requires p.Label? && j < k && j < |g| && g[j].output == p.name
    ensures Defined(p, g, k, clips)
  {
  }

  /** No dangling references: every input of every node is defined before it. */
  predicate Closed(g: seq<Node>, clips: nat)
  {
    forall k, m :: 0 <= k < |g| && 0 <= m < |g[k].inputs| ==> Defined(g[k].inputs[m], g, k, clips)
  }

  /** The central invariant of a built graph over `clips` input files. */
  predicate WellFormed(p: Plan, clips: nat)
  {
    && |p.graph| > 0
    && UniqueOutputs(p.graph)
    && Closed(p.graph, clips)
    && p.graph[|p.graph| - 1].output == p.final
  }

  /** Number of nodes of graph g that perform operation op. */
  function CountOp(g: seq<Node>, op: Op): (c: nat)
    ensures c <= |g|
  {
    if |g| == 0 then 0
    else CountOp(g[..|g| - 1], op) + (if OpOf(g[|g| - 1].filter) == op then 1 else 0)
  }

  lemma {:induction false} CountOpAppend(a: seq<Node>, b: seq<Node>, op: Op)
    ensures CountOp(a + b, op) == CountOp(a, op) + CountOp(b, op)
    decreases |b|
  {
    if |b| > 0 {
      var b' := b[..|b| - 1];
      assert (a + b)[..|a + b| - 1] == a + b';
      CountOpAppend(a, b', op);
    } else {
      assert a + b == a;
    }
  }

  /** A graph made of a run of op-a nodes followed by a run of op-b nodes. */
  lemma CountOpTwoRuns(a: seq<Node>, b: seq<Node>, opA: Op, opB: Op)
    requires opA != opB
    requires forall k :: 0 <= k < |a| ==> OpOf(a[k].filter) == opA
    requires forall k :: 0 <= k < |b| ==> OpOf(b[k].filter) == opB
    ensures forall op :: CountOp(a + b, op) == (if op == opA then |a| else if op == opB then |b| else 0)
  {
    CountOpUniform(a, opA);
    CountOpUniform(b, opB);
    forall op
      ensures CountOp(a + b, op) == CountOp(a, op) + CountOp(b, op)
    {
      CountOpAppend(a, b, op);
    }
  }

  /** Counting over a graph cut in three parts. */
  lemma CountOpSum(a: seq<Node>, b: seq<Node>, c: seq<Node>, op: Op)
    ensures CountOp(a + b + c, op) == CountOp(a, op) + CountOp(b, op) + CountOp(c, op)
  {
    CountOpAppend(a, b, op);
    CountOpAppend(a + b, c, op);
  }

  /** In a graph of nodes that all perform op, op is counted |g| times and any other op never. */
  lemma {:induction false} CountOpUniform(g: seq<Node>, op: Op)
    requires forall k :: 0 <= k < |g| ==> OpOf(g[k].filter) == op
    ensures forall other :: CountOp(g, other) == (if other == op then |g| else 0)
    decreases |g|
  {
    if |g| > 0 {
      CountOpUniform(g[..|g| - 1], op);
    }
  }
}
