/**
 * The command line of `assemble-videos.js`: the argument loop of `main`,
 * which collects clip paths and options after the method token, and the
 * table of assembly methods the method token is checked against.
 */
module Cli {
  import opened Wrappers
  import opened Seqs

  /** A value read from the argument list: a token, or JavaScript's `undefined`
      when a value flag is the last token. */
  datatype Arg = Given(text: string) | Undefined

  /** What the argument loop leaves behind. Numbers come from `parseInt`, which
      is a parameter of the parse. */
  datatype Options = Options(
    methodToken: string,
    clips: seq<string>,
    output: Arg,
    duration: int,
    transition: int,
    preview: bool,
    userSetDuration: bool)

  const DefaultOutput := "assembled.mp4"
  const DefaultDuration := 10
  const DefaultTransition := 1

  function Defaults(methodToken: string): Options
  {
    Options(methodToken, [], Given(DefaultOutput), DefaultDuration, DefaultTransition, false, false)
  }

  /** `s.startsWith('--')` */
  predicate IsFlag(s: string)
  {
    |s| >= 2 && s[..2] == "--"
  }

  /** The flags that consume the following token as their value. */
  predicate IsValueFlag(s: string)
  {
    s == "--output" || s == "--duration" || s == "--transition"
  }

  /** `args[j]`, which is `undefined` past the end. */
  function At(args: seq<string>, j: nat): Arg
  {
    if j < |args| then Given(args[j]) else Undefined
  }

  /** The argument loop from position i on, with o the options gathered so far.
      A value flag takes the next token whatever it is (`args[++i]`); an
      unrecognised `--` token is skipped; any other token is a clip. */
  function Scan(args: seq<string>, i: nat, o: Options, parseInt: Arg -> int): (r: Options)
    requires i <= |args| + 1
    ensures r.methodToken == o.methodToken
    ensures o.clips <= r.clips
    ensures i <= |args| ==> |r.clips| <= |o.clips| + |args| - i
    decreases |args| + 1 - i
  {
    if i >= |args| then o
    else if args[i] == "--output" then
      Scan(args, i + 2, o.(output := At(args, i + 1)), parseInt)
    else if args[i] == "--duration" then
      Scan(args, i + 2, o.(duration := parseInt(At(args, i + 1)), userSetDuration := true), parseInt)
    else if args[i] == "--transition" then
      Scan(args, i + 2, o.(transition := parseInt(At(args, i + 1))), parseInt)
    else if args[i] == "--preview" then
      Scan(args, i + 1, o.(preview := true), parseInt)
    else if !IsFlag(args[i]) then
      Scan(args, i + 1, o.(clips := o.clips + [args[i]]), parseInt)
    else
      Scan(args, i + 1, o, parseInt)
  }

  /** The options of a non-empty argument list: args[0] is the method token. */
  function Parse(args: seq<string>, parseInt: Arg -> int): (o: Options)
    requires |args| > 0
    ensures o.methodToken == args[0]
    ensures |o.clips| < |args|
  {
    Scan(args, 1, Defaults(args[0]), parseInt)
  }

  /** The argument loop of `main`, variable by variable. */
  method ParseArgs(args: seq<string>, parseInt: Arg -> int) returns (o: Options)
    requires |args| > 0
    ensures o == Parse(args, parseInt)
  {
    var methodToken := args[0];
    var videoFiles: seq<string> := [];
    var output := Given(DefaultOutput);
    var duration := DefaultDuration;
    var transitionDuration := DefaultTransition;
    var preview := false;
    var userSetDuration := false;
    var i := 1;
    while i < |args|
      invariant 1 <= i <= |args| + 1
      invariant Scan(args, i, Options(methodToken, videoFiles, output, duration, transitionDuration, preview, userSetDuration), parseInt)
                == Parse(args, parseInt)
    {
      if args[i] == "--output" {
        i := i + 1;
        output := At(args, i);
      } else if args[i] == "--duration" {
        i := i + 1;
        duration := parseInt(At(args, i));
        userSetDuration := true;
      } else if args[i] == "--transition" {
        i := i + 1;
        transitionDuration := parseInt(At(args, i));
      } else if args[i] == "--preview" {
        preview := true;
      } else if !IsFlag(args[i]) {
        videoFiles := videoFiles + [args[i]];
      }
      i := i + 1;
    }
    o := Options(methodToken, videoFiles, output, duration, transitionDuration, preview, userSetDuration);
  }

  /** The tokens of ts that do not start with `--`, in order. */
  function Plain(ts: seq<string>): (ps: seq<string>)
    ensures forall k :: 0 <= k < |ps| ==> !IsFlag(ps[k])
  {
    if |ts| == 0 then []
    else (if IsFlag(ts[0]) then [] else [ts[0]]) + Plain(ts[1..])
  }

  lemma {:induction false} ScanClipsFrom(args: seq<string>, i: nat, o: Options, parseInt: Arg -> int)
    requires 1 <= i <= |args|
    requires IsSubsequence(o.clips, args[1..i])
    ensures IsSubsequence(Scan(args, i, o, parseInt).clips, args[1..])
    decreases |args| - i
  {
    if i == |args| {
      assert args[1..i] == args[1..];
    } else {
      var j, next := i + Width(args[i]), Next(args, i, o, parseInt);
      ScanStep(args, i, o, parseInt);
      NextClipsFrom(args, i, o, parseInt);
      if j > |args| {
        assert args[1..|args|] == args[1..];
      } else {
        ScanClipsFrom(args, j, next, parseInt);
      }
    }
  }

  /** How many tokens the token here consumes: itself, and the value of a value flag. */
  function Width(here: string): nat
  {
    if IsValueFlag(here) then 2 else 1
  }

  /** The options after the token at position i and its value, if any. */
  function Next(args: seq<string>, i: nat, o: Options, parseInt: Arg -> int): Options
    requires i < |args|
  {
    if IsValueFlag(args[i]) then ValueStep(o, args[i], At(args, i + 1), parseInt) else PlainStep(o, args[i])
  }

  lemma ScanStep(args: seq<string>, i: nat, o: Options, parseInt: Arg -> int)
    requires i < |args|
    ensures Scan(args, i, o, parseInt) == Scan(args, i + Width(args[i]), Next(args, i, o, parseInt), parseInt)
  {
    if IsValueFlag(args[i]) {
      ScanValueStep(args, i, o, parseInt);
    } else {
      ScanPlainStep(args, i, o, parseInt);
    }
  }

  /** One step of the loop keeps the clips a selection of the tokens read so far. */
  lemma NextClipsFrom(args: seq<string>, i: nat, o: Options, parseInt: Arg -> int)
    requires 1 <= i < |args|
    requires IsSubsequence(o.clips, args[1..i])
    ensures var j := i + Width(args[i]);
            IsSubsequence(Next(args, i, o, parseInt).clips, args[1..if j > |args| then |args| else j])
  {
    var here := args[i];
    var next := Next(args, i, o, parseInt);
    assert args[1..i + 1] == args[1..i] + [here];
    if IsValueFlag(here) {
      assert next.clips == o.clips;
      SubsequenceExtend(o.clips, args[1..i], here);
      if i + 1 < |args| {
        assert args[1..i + 2] == args[1..i + 1] + [args[i + 1]];
        SubsequenceExtend(o.clips, args[1..i + 1], args[i + 1]);
      } else {
        assert args[1..|args|] == args[1..i + 1];
      }
    } else if IsFlag(here) {
      assert next.clips == o.clips;
      SubsequenceExtend(o.clips, args[1..i], here);
    } else {
      assert next.clips == o.clips + [here];
      SubsequenceAppendBoth(o.clips, args[1..i], here);
    }
  }

  /** What a value flag and its value do to the options. */
  function ValueStep(o: Options, flag: string, value: Arg, parseInt: Arg -> int): (next: Options)
    requires IsValueFlag(flag)
    ensures next.clips == o.clips && next.preview == o.preview
  {
    if flag == "--output" then o.(output := value)
    else if flag == "--duration" then o.(duration := parseInt(value), userSetDuration := true)
    else o.(transition := parseInt(value))
  }

  lemma ScanValueStep(args: seq<string>, i: nat, o: Options, parseInt: Arg -> int)
    requires i < |args| && IsValueFlag(args[i])
    ensures Scan(args, i, o, parseInt) == Scan(args, i + 2, ValueStep(o, args[i], At(args, i + 1), parseInt), parseInt)
  {
  }

  /** No token of xs starts with `--`. */
  predicate NoFlags(xs: seq<string>)
  {
    forall k :: 0 <= k < |xs| ==> !IsFlag(xs[k])
  }

  lemma {:induction false} ScanClipsNotFlags(args: seq<string>, i: nat, o: Options, parseInt: Arg -> int)
    requires i <= |args| + 1
    requires NoFlags(o.clips)
    ensures NoFlags(Scan(args, i, o, parseInt).clips)
    decreases |args| + 1 - i
  {
    if i >= |args| {
    } else if args[i] == "--output" {
      ScanClipsNotFlags(args, i + 2, o.(output := At(args, i + 1)), parseInt);
    } else if args[i] == "--duration" {
      ScanClipsNotFlags(args, i + 2, o.(duration := parseInt(At(args, i + 1)), userSetDuration := true), parseInt);
    } else if args[i] == "--transition" {
      ScanClipsNotFlags(args, i + 2, o.(transition := parseInt(At(args, i + 1))), parseInt);
    } else if args[i] == "--preview" {
      ScanClipsNotFlags(args, i + 1, o.(preview := true), parseInt);
    } else if !IsFlag(args[i]) {
      ScanClipsNotFlags(args, i + 1, o.(clips := o.clips + [args[i]]), parseInt);
    } else {
      ScanClipsNotFlags(args, i + 1, o, parseInt);
    }
  }

  /** The clips are argument tokens after the method, in their order, and
      none of them starts with `--`. */
  lemma ClipsAreArguments(args: seq<string>, parseInt: Arg -> int)
    requires |args| > 0
    ensures var clips := Parse(args, parseInt).clips;
            IsSubsequence(clips, args[1..]) && NoFlags(clips)
  {
    ScanClipsFrom(args, 1, Defaults(args[0]), parseInt);
    ScanClipsNotFlags(args, 1, Defaults(args[0]), parseInt);
  }

  predicate NoValueFlags(ts: seq<string>)
  {
    forall k :: 0 <= k < |ts| ==> !IsValueFlag(ts[k])
  }

  lemma {:induction false} ScanWithoutValueFlags(args: seq<string>, i: nat, o: Options, parseInt: Arg -> int)
    requires i <= |args|
    requires NoValueFlags(args[i..])
    ensures var r := Scan(args, i, o, parseInt);
            && r.clips == o.clips + Plain(args[i..])
            && r.output == o.output && r.duration == o.duration && r.transition == o.transition
            && r.userSetDuration == o.userSetDuration
            && r.preview == (o.preview || "--preview" in args[i..])
    decreases |args| - i
  {
    if i == |args| {
      assert args[i..] == [];
    } else {
      var here, rest := args[i], args[i + 1..];
      assert args[i..] == [here] + rest;
      assert !IsValueFlag(args[i..][0]);
      assert NoValueFlags(rest) by {
        forall k | 0 <= k < |rest|
          ensures !IsValueFlag(rest[k])
        {
          assert rest[k] == args[i..][k + 1];
        }
      }
      PlainCons(here, rest);
      var next := PlainStep(o, here);
      ScanPlainStep(args, i, o, parseInt);
      ScanWithoutValueFlags(args, i + 1, next, parseInt);
      AppendAssoc(o.clips, if IsFlag(here) then [] else [here], Plain(rest));
    }
  }

  /** What one token that takes no value does to the options. */
  function PlainStep(o: Options, here: string): (next: Options)
    ensures next.clips == o.clips + (if IsFlag(here) then [] else [here])
    ensures next.preview == (o.preview || here == "--preview")
    ensures next.output == o.output && next.duration == o.duration && next.transition == o.transition
    ensures next.userSetDuration == o.userSetDuration
  {
    if here == "--preview" then o.(preview := true)
    else if !IsFlag(here) then o.(clips := o.clips + [here])
    else o
  }

  lemma ScanPlainStep(args: seq<string>, i: nat, o: Options, parseInt: Arg -> int)
    requires i < |args| && !IsValueFlag(args[i])
    ensures Scan(args, i, o, parseInt) == Scan(args, i + 1, PlainStep(o, args[i]), parseInt)
  {
  }

  lemma PlainCons(here: string, rest: seq<string>)
    ensures Plain([here] + rest) == (if IsFlag(here) then [] else [here]) + Plain(rest)
    ensures ("--preview" in [here] + rest) <==> (here == "--preview" || "--preview" in rest)
  {
    assert ([here] + rest)[1..] == rest;
  }

  /** Without value flags, every token after the method that does not start
      with `--` is a clip, in order, and the defaults stand. */
  lemma PlainTokensAreClips(args: seq<string>, parseInt: Arg -> int)
    requires |args| > 0
    requires NoValueFlags(args[1..])
    ensures var o := Parse(args, parseInt);
            && o.clips == Plain(args[1..])
            && o.output == Given(DefaultOutput) && o.duration == DefaultDuration && o.transition == DefaultTransition
            && !o.userSetDuration
            && (o.preview <==> "--preview" in args[1..])
  {
    ScanWithoutValueFlags(args, 1, Defaults(args[0]), parseInt);
  }

  lemma {:induction false} ScanUserSet(args: seq<string>, i: nat, o: Options, parseInt: Arg -> int)
    requires i <= |args| + 1
    ensures Scan(args, i, o, parseInt).userSetDuration ==> o.userSetDuration || (i < |args| && "--duration" in args[i..])
    decreases |args| + 1 - i
  {
    if i < |args| {
      var here := args[i];
      ScanUserSet(args, i + 2, o.(output := At(args, i + 1)), parseInt);
      ScanUserSet(args, i + 2, o.(transition := parseInt(At(args, i + 1))), parseInt);
      ScanUserSet(args, i + 1, o.(preview := true), parseInt);
      ScanUserSet(args, i + 1, o.(clips := o.clips + [here]), parseInt);
      ScanUserSet(args, i + 1, o, parseInt);
      if i + 2 < |args| {
        assert args[i + 2..] == args[i..][2..];
      }
      if i + 1 < |args| {
        assert args[i + 1..] == args[i..][1..];
      }
    }
  }

  /** `userSetDuration` is only ever set by a `--duration` token. */
  lemma UserSetNeedsDurationFlag(args: seq<string>, parseInt: Arg -> int)
    requires |args| > 0
    ensures Parse(args, parseInt).userSetDuration ==> "--duration" in args[1..]
  {
    ScanUserSet(args, 1, Defaults(args[0]), parseInt);
  }

  /** A `--duration` at position k that the loop reaches (the token before it
      takes no value) sets `userSetDuration`, and its value stands unless a
      later `--duration` follows. */
  lemma {:induction false} ScanReachesDuration(args: seq<string>, i: nat, o: Options, parseInt: Arg -> int, k: nat)
    requires i <= k < |args| && args[k] == "--duration"
    requires i < k ==> !IsValueFlag(args[k - 1])
    ensures Scan(args, i, o, parseInt).userSetDuration
    ensures (forall j :: k + 2 <= j < |args| ==> args[j] != "--duration") ==>
              Scan(args, i, o, parseInt).duration == parseInt(At(args, k + 1))
    decreases k - i
  {
    if i == k {
      var next := ValueStep(o, args[k], At(args, k + 1), parseInt);
      ScanValueStep(args, k, o, parseInt);
      ScanKeepsUserSet(args, k + 2, next, parseInt);
      if forall j :: k + 2 <= j < |args| ==> args[j] != "--duration" {
        ScanKeepsDuration(args, k + 2, next, parseInt);
      }
    } else {
      ScanStep(args, i, o, parseInt);
      ScanReachesDuration(args, i + Width(args[i]), Next(args, i, o, parseInt), parseInt, k);
    }
  }

  /** Without a `--duration` token from position i on, the duration stays as it is. */
  lemma {:induction false} ScanKeepsDuration(args: seq<string>, i: nat, o: Options, parseInt: Arg -> int)
    requires i <= |args| + 1
    requires forall j :: i <= j < |args| ==> args[j] != "--duration"
    ensures Scan(args, i, o, parseInt).duration == o.duration
    decreases |args| + 1 - i
  {
    if i < |args| {
      ScanStep(args, i, o, parseInt);
      ScanKeepsDuration(args, i + Width(args[i]), Next(args, i, o, parseInt), parseInt);
    }
  }

  lemma {:induction false} ScanKeepsUserSet(args: seq<string>, i: nat, o: Options, parseInt: Arg -> int)
    requires i <= |args| + 1
    requires o.userSetDuration
    ensures Scan(args, i, o, parseInt).userSetDuration
    decreases |args| + 1 - i
  {
    if i < |args| {
      ScanKeepsUserSet(args, i + 2, o.(output := At(args, i + 1)), parseInt);
      ScanKeepsUserSet(args, i + 2, o.(duration := parseInt(At(args, i + 1))), parseInt);
      ScanKeepsUserSet(args, i + 2, o.(transition := parseInt(At(args, i + 1))), parseInt);
      ScanKeepsUserSet(args, i + 1, o.(preview := true), parseInt);
      ScanKeepsUserSet(args, i + 1, o.(clips := o.clips + [args[i]]), parseInt);
      ScanKeepsUserSet(args, i + 1, o, parseInt);
    }
  }

  /** A `--duration` token that is not the value of the flag before it sets
      `userSetDuration`, and the duration is the token after it unless a later
      `--duration` overrides it. */
  lemma DurationFlagSetsUserSet(args: seq<string>, parseInt: Arg -> int, k: nat)
    requires 1 <= k < |args| && args[k] == "--duration"
    requires k == 1 || !IsValueFlag(args[k - 1])
    ensures Parse(args, parseInt).userSetDuration
    ensures (forall j :: k + 2 <= j < |args| ==> args[j] != "--duration") ==>
              Parse(args, parseInt).duration == parseInt(At(args, k + 1))
  {
    ScanReachesDuration(args, 1, Defaults(args[0]), parseInt, k);
  }


  /** The tokens left once every value flag has taken the token after it. */
  function DropValues(ts: seq<string>): (kept: seq<string>)
    ensures NoValueFlags(kept)
    ensures |kept| <= |ts|
    decreases |ts|
  {
    if |ts| == 0 then []
    else if IsValueFlag(ts[0]) then (if |ts| == 1 then [] else DropValues(ts[2..]))
    else [ts[0]] + DropValues(ts[1..])
  }

  /** Without value flags nothing is dropped. */
  lemma {:induction false} DropNothing(ts: seq<string>)
    requires NoValueFlags(ts)
    ensures DropValues(ts) == ts
    decreases |ts|
  {
    if |ts| > 0 {
      var rest := ts[1..];
      assert NoValueFlags(rest) by {
        forall k | 0 <= k < |rest|
          ensures !IsValueFlag(rest[k])
        {
          assert rest[k] == ts[k + 1];
        }
      }
      DropNothing(rest);
      assert [ts[0]] + rest == ts;
    }
  }

  lemma {:induction false} ScanClipsExact(args: seq<string>, i: nat, o: Options, parseInt: Arg -> int)
    requires i <= |args|
    ensures Scan(args, i, o, parseInt).clips == o.clips + Plain(DropValues(args[i..]))
    decreases |args| - i
  {
    if i == |args| {
      assert args[i..] == [];
    } else {
      var here, next := args[i], Next(args, i, o, parseInt);
      ScanStep(args, i, o, parseInt);
      if IsValueFlag(here) {
        assert next.clips == o.clips;
        if i + 1 == |args| {
          assert args[i..] == [here];
        } else {
          assert args[i..][2..] == args[i + 2..];
          ScanClipsExact(args, i + 2, next, parseInt);
        }
      } else {
        var rest := DropValues(args[i + 1..]);
        assert args[i..][1..] == args[i + 1..];
        assert DropValues(args[i..]) == [here] + rest;
        assert next.clips == o.clips + (if IsFlag(here) then [] else [here]);
        ScanClipsExact(args, i + 1, next, parseInt);
        PlainCons(here, rest);
        AppendAssoc(o.clips, if IsFlag(here) then [] else [here], Plain(rest));
      }
    }
  }

  /** The clips are exactly the tokens after the method that start without
      `--` and are not the value of a value flag, in order. */
  lemma ParsedClips(args: seq<string>, parseInt: Arg -> int)
    requires |args| > 0
    ensures Parse(args, parseInt).clips == Plain(DropValues(args[1..]))
    ensures NoValueFlags(args[1..]) ==> Parse(args, parseInt).clips == Plain(args[1..])
  {
    ScanClipsExact(args, 1, Defaults(args[0]), parseInt);
    if NoValueFlags(args[1..]) {
      DropNothing(args[1..]);
    }
  }

  /** A token the loop reaches (the token before it takes no value) that does
      not start with `--` is a clip. */
  lemma {:induction false} ScanReachesClip(args: seq<string>, i: nat, o: Options, parseInt: Arg -> int, k: nat)
    requires i <= k < |args| && !IsFlag(args[k])
    requires i < k ==> !IsValueFlag(args[k - 1])
    ensures args[k] in Scan(args, i, o, parseInt).clips
    decreases k - i
  {
    if i == k {
      var next := PlainStep(o, args[k]);
      ScanPlainStep(args, k, o, parseInt);
      assert next.clips[|next.clips| - 1] == args[k];
      assert next.clips <= Scan(args, k + 1, next, parseInt).clips;
    } else {
      ScanStep(args, i, o, parseInt);
      ScanReachesClip(args, i + Width(args[i]), Next(args, i, o, parseInt), parseInt, k);
    }
  }

  /** Every token after the method that does not start with `--` and is not
      the value of the token before it becomes a clip. */
  lemma ReachedPlainTokenIsClip(args: seq<string>, parseInt: Arg -> int, k: nat)
    requires 1 <= k < |args| && !IsFlag(args[k])
    requires k == 1 || !IsValueFlag(args[k - 1])
    ensures args[k] in Parse(args, parseInt).clips
  {
    ScanReachesClip(args, 1, Defaults(args[0]), parseInt, k);
  }

  /** From position i on no token is the value flag `flag`: its field stays. */
  lemma {:induction false} ScanKeepsValue(args: seq<string>, i: nat, o: Options, parseInt: Arg -> int, flag: string)
    requires i <= |args| + 1
    requires forall j :: i <= j < |args| ==> args[j] != flag
    ensures var r := Scan(args, i, o, parseInt);
            && (flag == "--output" ==> r.output == o.output)
            && (flag == "--duration" ==> r.duration == o.duration)
            && (flag == "--transition" ==> r.transition == o.transition)
    decreases |args| + 1 - i
  {
    if i < |args| {
      ScanStep(args, i, o, parseInt);
      ScanKeepsValue(args, i + Width(args[i]), Next(args, i, o, parseInt), parseInt, flag);
    }
  }

  /** A value flag the loop reaches, with no later copy of it, sets its field
      from the token after it. */
  lemma {:induction false} ScanReachesValue(args: seq<string>, i: nat, o: Options, parseInt: Arg -> int, k: nat)
    requires i <= k < |args| && IsValueFlag(args[k])
    requires i < k ==> !IsValueFlag(args[k - 1])
    requires forall j :: k + 2 <= j < |args| ==> args[j] != args[k]
    ensures var r, value := Scan(args, i, o, parseInt), At(args, k + 1);
            && (args[k] == "--output" ==> r.output == value)
            && (args[k] == "--duration" ==> r.duration == parseInt(value))
            && (args[k] == "--transition" ==> r.transition == parseInt(value))
    decreases k - i
  {
    if i == k {
      ScanValueStep(args, k, o, parseInt);
      ScanKeepsValue(args, k + 2, ValueStep(o, args[k], At(args, k + 1), parseInt), parseInt, args[k]);
    } else {
      ScanStep(args, i, o, parseInt);
      ScanReachesValue(args, i + Width(args[i]), Next(args, i, o, parseInt), parseInt, k);
    }
  }

  /** An `--output` or `--transition` that is not the value of the flag before
      it, and is not repeated later, sets its option from the token after it
      (`undefined` past the end). */
  lemma OutputAndTransitionFlags(args: seq<string>, parseInt: Arg -> int, k: nat)
    requires 1 <= k < |args| && (args[k] == "--output" || args[k] == "--transition")
    requires k == 1 || !IsValueFlag(args[k - 1])
    requires forall j :: k + 2 <= j < |args| ==> args[j] != args[k]
    ensures args[k] == "--output" ==> Parse(args, parseInt).output == At(args, k + 1)
    ensures args[k] == "--transition" ==> Parse(args, parseInt).transition == parseInt(At(args, k + 1))
  {
    ScanReachesValue(args, 1, Defaults(args[0]), parseInt, k);
  }

  const ExampleTail: seq<string> := ["a.mp4", "b.mp4", "--output", "o.mp4", "--duration", "5"]

  /** The tokens of the example that are clips: the two files. */
  lemma ExampleTailClips()
    ensures Plain(DropValues(ExampleTail)) == ["a.mp4", "b.mp4"]
  {
    var tail := ExampleTail;
    assert tail[2..][2..] == ["--duration", "5"] && ["--duration", "5"][2..] == [];
    assert DropValues(tail[2..]) == [];
    assert tail[1..][1..] == tail[2..];
    assert DropValues(tail) == ["a.mp4", "b.mp4"];
    assert "a.mp4"[..2][0] == 'a' && "b.mp4"[..2][0] == 'b';
    assert ["b.mp4"][1..] == [] && ["a.mp4", "b.mp4"][1..] == ["b.mp4"];
  }

  /** `--fade a.mp4 b.mp4 --output o.mp4 --duration 5`: the clips are the two
      files, the output is `o.mp4`, and the duration is 5 and counts as set. */
  lemma OutputThenDuration(parseInt: Arg -> int)
    ensures var o := Parse(["--fade", "a.mp4", "b.mp4", "--output", "o.mp4", "--duration", "5"], parseInt);
            && o.clips == ["a.mp4", "b.mp4"] && o.output == Given("o.mp4")
            && o.userSetDuration && o.duration == parseInt(Given("5"))
  {
    var args := ["--fade", "a.mp4", "b.mp4", "--output", "o.mp4", "--duration", "5"];
    var o := Parse(args, parseInt);
    assert o.clips == ["a.mp4", "b.mp4"] by {
      ParsedClips(args, parseInt);
      assert args[1..] == ExampleTail;
      ExampleTailClips();
    }
    assert o.output == Given("o.mp4") by {
      assert !IsValueFlag(args[2]);
      OutputAndTransitionFlags(args, parseInt, 3);
    }
    assert o.userSetDuration && o.duration == parseInt(Given("5")) by {
      assert !IsValueFlag(args[4]);
      DurationFlagSetsUserSet(args, parseInt, 5);
    }
  }

  // ---------------------------------------------------------------------------
  // The method table

  /** The assembly a method key selects. */
  datatype Kind = Simple | Transition(name: string) | SideBySide | Stacked

  /** The keys of the method table, in declaration order. */
  const MethodKeys: seq<string> :=
    ["simple", "fade", "slideright", "slideleft", "slidedown", "slideup",
     "wipeleft", "wiperight", "dissolve", "sidebyside", "stacked"]

  /** The keys whose assembly is a cross-fade; the key is the xfade transition name. */
  const TransitionKeys: seq<string> :=
    ["fade", "slideright", "slideleft", "slidedown", "slideup", "wipeleft", "wiperight", "dissolve"]

  /** The method table, read only through its own keys. */
  function Lookup(key: string): (k: Option<Kind>)
    ensures k.Some? <==> key in MethodKeys
    ensures k.Some? && k.value.Transition? <==> key in TransitionKeys
    ensures k.Some? && k.value.Transition? ==> k.value.name == key
  {
    if key == "simple" then Some(Simple)
    else if key in TransitionKeys then Some(Transition(key))
    else if key == "sidebyside" then Some(SideBySide)
    else if key == "stacked" then Some(Stacked)
    else None
  }

  /** The key of an assembly kind. */
  function Key(k: Kind): string
  {
    match k
    case Simple => "simple"
    case Transition(name) => name
    case SideBySide => "sidebyside"
    case Stacked => "stacked"
  }

  /** Lookup and Key are inverse on the table. */
  lemma LookupKey(key: string)
    ensures Lookup(key).Some? ==> Key(Lookup(key).value) == key
    ensures Lookup(key).Some? ==> Lookup(Key(Lookup(key).value)) == Lookup(key)
  {
  }

  /** The method flags listed after an unknown method, in table order. */
  function AvailableFlags(): (flags: seq<string>)
    ensures |flags| == |MethodKeys|
    ensures forall i :: 0 <= i < |flags| ==> flags[i] == "--" + MethodKeys[i]
  {
    seq(|MethodKeys|, i requires 0 <= i < |MethodKeys| => "--" + MethodKeys[i])
  }

  /** `method.slice(2)` of a method token that starts with `--`. */
  function MethodKey(token: string): string
    requires IsFlag(token)
  {
    token[2..]
  }

  // ---------------------------------------------------------------------------
  // The method check as written

  /** The function-valued members every object inherits from `Object.prototype`. */
  const InheritedMembers: seq<string> :=
    ["constructor", "hasOwnProperty", "isPrototypeOf", "propertyIsEnumerable", "toLocaleString",
     "toString", "valueOf", "__defineGetter__", "__defineSetter__", "__lookupGetter__", "__lookupSetter__"]

  /** The check `!METHODS[methodKey]` as written: an index into a plain object,
      so an inherited member is as truthy as a table entry. */
  predicate GuardPassesAsWritten(key: string): (passes: bool)
    ensures Lookup(key).Some? ==> passes
    ensures passes && Lookup(key).None? ==> key in InheritedMembers
  {
    key in MethodKeys || key in InheritedMembers
  }

  /** The guard lets `--toString` through although the table has no such method. */
  lemma InheritedKeyPassesGuard()
    ensures GuardPassesAsWritten("toString") && Lookup("toString") == None
  {
    assert InheritedMembers[5] == "toString";
  }

  /** On every key of the table the written guard and Lookup agree. */
  lemma GuardAgreesOnTable(key: string)
    ensures key in MethodKeys ==> GuardPassesAsWritten(key) && Lookup(key).Some?
    ensures !GuardPassesAsWritten(key) ==> Lookup(key) == None
  {
  }
}
