/**
 * `main` of `assemble-videos.js` from the argument list to the exit status:
 * the help check, the argument loop, the three command-line checks, the
 * up-front validation of every clip (`validateVideos`), and the dispatch to
 * the four assembly kinds. The outside world is an Env of given functions
 * (what ffprobe finds, what `path.resolve` returns, whether ffmpeg succeeds),
 * and everything the program does to it is recorded, in order, as a trace of
 * effects; the properties below are stated over that trace.
 */
module Planner {
  import opened Wrappers
  import opened Seqs
  import opened FilterGraph
  import opened Timing
  import opened Transitions
  import opened Grids
  import opened ConcatList
  import opened Cli

  /** The ffmpeg commands the planner runs or shows. */
  datatype Command =
    /** `ffmpeg -f concat -safe 0 -i <list> -c copy -y <output>`: stream copy, no re-encoding. */
    | ConcatCopy(list: string, output: Arg)
    /** `ffmpeg -i <input>.. -filter_complex <graph> -map [<map>] -c:v libx264 -preset fast -y <output>` */
    | Encode(inputs: seq<string>, graph: seq<Node>, mapped: string, output: Arg)

  /** What the planner is told by the outside world. */
  datatype Env = Env(
    readable: string -> bool,               // ffprobe finds a video stream in the file
    probeDuration: string -> Option<real>,  // ffprobe's container duration; None when the probe fails
    resolve: string -> string,              // path.resolve
    succeeds: Command -> bool,              // ffmpeg exits with status 0
    parseInt: Arg -> int)

  /** What the planner does to the outside world, in order. */
  datatype Effect =
    | ProbeInfo(path: string)               // getVideoInfo
    | ProbeDuration(path: string)           // getVideoDuration
    | WriteFile(name: string, content: string)
    | Show(command: Command)                // the --preview printout
    | Execute(command: Command)
    | RemoveFile(name: string)

  datatype Error =
    | NoClips
    | NotAMethod(token: string)
    | UnknownMethod(token: string, available: seq<string>)
    | MissingClips(paths: seq<string>)
    | TooFewClips
    | CommandFailed

  datatype Status = HelpShown | Failed(error: Error) | Done

  datatype Outcome = Outcome(status: Status, effects: seq<Effect>)

  /** `process.exit(1)` on every failure, 0 otherwise. */
  function ExitCode(s: Status): (code: int)
    ensures code == 0 || code == 1
    ensures code == 1 <==> s.Failed?
  {
    if s.Failed? then 1 else 0
  }

  /** One `getVideoInfo` probe per clip, in order. */
  function InfoProbes(clips: seq<string>): (es: seq<Effect>)
    ensures |es| == |clips| && forall i :: 0 <= i < |clips| ==> es[i] == ProbeInfo(clips[i])
  {
    seq(|clips|, i requires 0 <= i < |clips| => ProbeInfo(clips[i]))
  }

  /** One `getVideoDuration` probe per clip, in order. */
  function DurationProbes(clips: seq<string>): (es: seq<Effect>)
    ensures |es| == |clips| && forall i :: 0 <= i < |clips| ==> es[i] == ProbeDuration(clips[i])
  {
    seq(|clips|, i requires 0 <= i < |clips| => ProbeDuration(clips[i]))
  }

  /** The clips `validateVideos` reports missing: every unreadable one, in
      input order, as often as it occurs among the clips. */
  function Missing(clips: seq<string>, readable: string -> bool): (m: seq<string>)
    ensures IsSubsequence(m, clips)
    ensures forall p :: p in m <==> p in clips && !readable(p)
    ensures forall p :: multiset(m)[p] == if readable(p) then 0 else multiset(clips)[p]
    decreases |clips|
  {
    if |clips| == 0 then []
    else
      var init, last := clips[..|clips| - 1], clips[|clips| - 1];
      var m := Missing(init, readable);
      assert clips == init + [last];
      assert multiset(clips) == multiset(init) + multiset{last};
      if readable(last) then
        SubsequenceExtend(m, init, last);
        m
      else
        SubsequenceAppendBoth(m, init, last);
        assert multiset(m + [last]) == multiset(m) + multiset{last};
        m + [last]
  }

  /** Validation of two runs of clips reports the missing ones of the first
      run, then those of the second. */
  lemma {:induction false} MissingAppend(a: seq<string>, b: seq<string>, readable: string -> bool)
    ensures Missing(a + b, readable) == Missing(a, readable) + Missing(b, readable)
    decreases |b|
  {
    if |b| == 0 {
      assert a + b == a;
    } else {
      var init, last := b[..|b| - 1], b[|b| - 1];
      var tail := if readable(last) then [] else [last];
      assert (a + b)[..|a + b| - 1] == a + init;
      assert (a + b)[|a + b| - 1] == last;
      assert Missing(a + b, readable) == Missing(a + init, readable) + tail;
      assert Missing(b, readable) == Missing(init, readable) + tail;
      MissingAppend(a, init, readable);
      AppendAssoc(Missing(a, readable), Missing(init, readable), tail);
    }
  }

  /** A single clip is reported exactly when it is unreadable. */
  lemma MissingOne(p: string, readable: string -> bool)
    ensures Missing([p], readable) == if readable(p) then [] else [p]
  {
    assert [p][..0] == [];
  }

  /** `runCommand`: show the command under --preview, otherwise execute it. */
  function RunCommand(cmd: Command, preview: bool, env: Env): (r: Outcome)
    ensures r.effects == [if preview then Show(cmd) else Execute(cmd)]
    ensures r.status.Done? <==> preview || env.succeeds(cmd)
    ensures !r.status.Done? ==> r.status == Failed(CommandFailed)
  {
    if preview then Outcome(Done, [Show(cmd)])
    else if env.succeeds(cmd) then Outcome(Done, [Execute(cmd)])
    else Outcome(Failed(CommandFailed), [Execute(cmd)])
  }

  /** Runs the encode of a built plan over the clips. */
  function RunPlan(o: Options, plan: Plan, env: Env): Outcome
  {
    RunCommand(Encode(o.clips, plan.graph, plan.final, o.output), o.preview, env)
  }

  function ResolvedPaths(clips: seq<string>, resolve: string -> string): (rs: seq<string>)
    ensures |rs| == |clips| && forall i :: 0 <= i < |clips| ==> rs[i] == resolve(clips[i])
  {
    seq(|clips|, i requires 0 <= i < |clips| => resolve(clips[i]))
  }

  /** `assembleSimple`: write the concat list, run the stream copy, and remove
      the list once the copy has run (a failed copy exits before that). */
  function AssembleSimple(o: Options, env: Env): (r: Outcome)
    ensures |r.effects| >= 2
    ensures r.effects[0] == WriteFile(ListFile, Content(ResolvedPaths(o.clips, env.resolve)))
    ensures r.effects[1] == if o.preview then Show(ConcatCopy(ListFile, o.output)) else Execute(ConcatCopy(ListFile, o.output))
    ensures r.status.Done? || r.status == Failed(CommandFailed)
  {
    var write := WriteFile(ListFile, Content(ResolvedPaths(o.clips, env.resolve)));
    var run := RunCommand(ConcatCopy(ListFile, o.output), o.preview, env);
    var copy := run.effects[0];
    if !o.preview && run.status.Done? then Outcome(Done, [write, copy, RemoveFile(ListFile)])
    else Outcome(run.status, [write, copy])
  }

  /** `assembleWithTransition`: refused below two clips; the durations are
      probed only when --duration was not given. */
  function AssembleTransition(name: string, o: Options, env: Env): (r: Outcome)
    ensures |o.clips| < 2 ==> r == Outcome(Failed(TooFewClips), [])
    ensures |o.clips| >= 2 && !o.userSetDuration ==> DurationProbes(o.clips) <= r.effects
    ensures |o.clips| >= 2 ==> |r.effects| > 0 && var last := r.effects[|r.effects| - 1];
              (last.Show? || last.Execute?) && last.command.Encode? && last.command.inputs == o.clips
  {
    var n := |o.clips|;
    if n < 2 then Outcome(Failed(TooFewClips), [])
    else
      var probed := if o.userSetDuration then [] else DurationProbes(o.clips);
      var probes := seq(n, i requires 0 <= i < n => env.probeDuration(o.clips[i]));
      var requested := Timing(o.duration as real, o.transition as real);
      var plan := TransitionPlan(n, name, requested, o.userSetDuration, probes).value;
      var run := RunPlan(o, plan, env);
      Outcome(run.status, probed + run.effects)
  }

  /** `assembleSideBySide` and `assembleStacked`: refused below two clips. */
  function AssembleGrid(plan: Option<Plan>, o: Options, env: Env): (r: Outcome)
    ensures plan.None? ==> r == Outcome(Failed(TooFewClips), [])
    ensures plan.Some? ==> |r.effects| == 1 && (r.effects[0].Show? || r.effects[0].Execute?)
                           && r.effects[0].command == Encode(o.clips, plan.value.graph, plan.value.final, o.output)
  {
    if plan.None? then Outcome(Failed(TooFewClips), [])
    else RunPlan(o, plan.value, env)
  }

  /** The `switch (methodKey)` of `main`. */
  function Dispatch(kind: Kind, o: Options, env: Env): (r: Outcome)
    ensures r.status.Done? || r.status == Failed(TooFewClips) || r.status == Failed(CommandFailed)
    ensures r.status == Failed(TooFewClips) <==> kind != Simple && |o.clips| < 2
  {
    match kind
    case Simple => AssembleSimple(o, env)
    case Transition(name) => AssembleTransition(name, o, env)
    case SideBySide => AssembleGrid(SideBySidePlan(|o.clips|), o, env)
    case Stacked => AssembleGrid(StackedPlan(|o.clips|), o, env)
  }

  /** `main` with the method check as a parameter: `guard` decides which keys
      pass, the switch then acts on the keys of the table. */
  function Run(args: seq<string>, env: Env, guard: string -> bool): (r: Outcome)
    ensures r.status == HelpShown <==> |args| == 0 || "--help" in args || "-h" in args
    ensures |r.effects| > 0 ==> |args| > 0 && InfoProbes(Parse(args, env.parseInt).clips) <= r.effects
  {
    if |args| == 0 || "--help" in args || "-h" in args then Outcome(HelpShown, [])
    else
      var o := Parse(args, env.parseInt);
      if |o.clips| == 0 then Outcome(Failed(NoClips), [])
      else if !IsFlag(o.methodToken) then Outcome(Failed(NotAMethod(o.methodToken)), [])
      else if !guard(MethodKey(o.methodToken)) then Outcome(Failed(UnknownMethod(o.methodToken, AvailableFlags())), [])
      else
        var validation := InfoProbes(o.clips);
        var missing := Missing(o.clips, env.readable);
        if |missing| > 0 then Outcome(Failed(MissingClips(missing)), validation)
        else match Lookup(MethodKey(o.methodToken))
          case None => Outcome(Done, validation)
          case Some(kind) =>
            var assembled := Dispatch(kind, o, env);
            Outcome(assembled.status, validation + assembled.effects)
  }

  /** `main`, with the method check reading only the table's own keys. */
  function Assemble(args: seq<string>, env: Env): (r: Outcome)
    ensures r.status == Done ==>
              |args| > 0 && IsFlag(Parse(args, env.parseInt).methodToken)
              && Lookup(MethodKey(Parse(args, env.parseInt).methodToken)).Some?
  {
    Run(args, env, key => Lookup(key).Some?)
  }

  /** `main` with the method check as written (inherited members pass it). */
  function AssembleAsWritten(args: seq<string>, env: Env): (r: Outcome)
    ensures var fixed := Assemble(args, env);
            !(fixed.status.Failed? && fixed.status.error.UnknownMethod?) ==> r == fixed
  {
    Run(args, env, GuardPassesAsWritten)
  }

  // ---------------------------------------------------------------------------
  // Properties

  /** `validateVideos` reports exactly the unreadable clips, in input order,
      and passes exactly when every clip is readable. */
  lemma MissingIffUnreadable(clips: seq<string>, readable: string -> bool)
    ensures var m := Missing(clips, readable);
            && IsSubsequence(m, clips)
            && (forall p :: p in m <==> p in clips && !readable(p))
            && (forall p :: multiset(m)[p] == if readable(p) then 0 else multiset(clips)[p])
            && (m == [] <==> forall i :: 0 <= i < |clips| ==> readable(clips[i]))
  {
    var m := Missing(clips, readable);
    if m != [] {
      assert m[0] in m;
    }
    if exists i :: 0 <= i < |clips| && !readable(clips[i]) {
      var i :| 0 <= i < |clips| && !readable(clips[i]);
      assert clips[i] in clips;
    }
  }

  /** No clips, a method token without `--`, and a key outside the table each
      fail with no probe and no other effect; help is shown for an empty
      argument list or a help flag anywhere. */
  lemma CommandLineErrorsBeforeProbing(args: seq<string>, env: Env)
    ensures ("--help" in args || "-h" in args || |args| == 0) <==> Assemble(args, env).status == HelpShown
    ensures var r := Assemble(args, env);
            (r.status.HelpShown? || r.status == Failed(NoClips)
             || (r.status.Failed? && (r.status.error.NotAMethod? || r.status.error.UnknownMethod?))) ==> r.effects == []
    ensures |args| > 0 && "--help" !in args && "-h" !in args ==>
              var o := Parse(args, env.parseInt);
              var r := Assemble(args, env);
              && (r.status == Failed(NoClips) <==> o.clips == [])
              && (o.clips != [] && !IsFlag(o.methodToken) ==> r == Outcome(Failed(NotAMethod(o.methodToken)), []))
              && (o.clips != [] && IsFlag(o.methodToken) && Lookup(MethodKey(o.methodToken)).None? ==>
                    r == Outcome(Failed(UnknownMethod(o.methodToken, AvailableFlags())), []))
  {
    if |args| > 0 {
      RunStages(args, env, key => Lookup(key).Some?);
    }
  }

  /** The stages of `main` for any method check: help, the three command-line
      checks with no effect, then validation, whose probes come first, and
      only dispatch statuses after it. */
  lemma RunStages(args: seq<string>, env: Env, guard: string -> bool)
    requires |args| > 0
    ensures var r := Run(args, env, guard);
            var o := Parse(args, env.parseInt);
            var help := "--help" in args || "-h" in args;
            && (help ==> r == Outcome(HelpShown, []))
            && (!help && |o.clips| == 0 ==> r == Outcome(Failed(NoClips), []))
            && (!help && |o.clips| > 0 && !IsFlag(o.methodToken) ==> r == Outcome(Failed(NotAMethod(o.methodToken)), []))
            && (!help && |o.clips| > 0 && IsFlag(o.methodToken) && !guard(MethodKey(o.methodToken)) ==>
                  r == Outcome(Failed(UnknownMethod(o.methodToken, AvailableFlags())), []))
            && (!help && |o.clips| > 0 && IsFlag(o.methodToken) && guard(MethodKey(o.methodToken)) ==>
                  && InfoProbes(o.clips) <= r.effects
                  && (r.status.Done? || r.status == Failed(TooFewClips) || r.status == Failed(CommandFailed)
                      || (r.status.Failed? && r.status.error.MissingClips?)))
  {
    var o := Parse(args, env.parseInt);
    var r := Run(args, env, guard);
    if "--help" !in args && "-h" !in args && |o.clips| > 0 && IsFlag(o.methodToken) && guard(MethodKey(o.methodToken)) {
      if |Missing(o.clips, env.readable)| > 0 {
        assert r.effects == InfoProbes(o.clips);
        assert r.status.error.MissingClips?;
      } else {
        match Lookup(MethodKey(o.methodToken))
        case None =>
          assert r == Outcome(Done, InfoProbes(o.clips));
        case Some(kind) =>
          assert r == Outcome(Dispatch(kind, o, env).status, InfoProbes(o.clips) + Dispatch(kind, o, env).effects);
      }
    }
  }

  /** Once the command line is accepted every clip is probed, in order, and
      the run fails with the list of missing clips exactly when one is missing. */
  lemma ValidationReportsAllMissing(args: seq<string>, env: Env)
    requires |args| > 0 && "--help" !in args && "-h" !in args
    requires var o := Parse(args, env.parseInt);
             o.clips != [] && IsFlag(o.methodToken) && Lookup(MethodKey(o.methodToken)).Some?
    ensures var o := Parse(args, env.parseInt);
            var r := Assemble(args, env);
            && InfoProbes(o.clips) <= r.effects
            && (r.status.Failed? && r.status.error.MissingClips? <==> exists i :: 0 <= i < |o.clips| && !env.readable(o.clips[i]))
            && (r.status.Failed? && r.status.error.MissingClips? ==>
                  r.status.error.paths == Missing(o.clips, env.readable) && r.effects == InfoProbes(o.clips))
  {
    var o := Parse(args, env.parseInt);
    var r := Assemble(args, env);
    var missing := Missing(o.clips, env.readable);
    MissingIffUnreadable(o.clips, env.readable);
    if |missing| > 0 {
      assert r == Outcome(Failed(MissingClips(missing)), InfoProbes(o.clips));
    } else {
      var kind := Lookup(MethodKey(o.methodToken)).value;
      assert r == Outcome(Dispatch(kind, o, env).status, InfoProbes(o.clips) + Dispatch(kind, o, env).effects);
    }
  }

  /** Whatever the method check, a run does nothing but the validation probes
      and, for a key of the table, what that method's assembly does. */
  lemma RunEffects(args: seq<string>, env: Env, guard: string -> bool)
    requires |args| > 0
    ensures var o := Parse(args, env.parseInt);
            forall e :: e in Run(args, env, guard).effects ==>
              || e.ProbeInfo?
              || (&& |o.clips| >= 1 && IsFlag(o.methodToken) && Lookup(MethodKey(o.methodToken)).Some?
                  && e in Dispatch(Lookup(MethodKey(o.methodToken)).value, o, env).effects)
  {
    var o := Parse(args, env.parseInt);
    var r := Run(args, env, guard);
    if "--help" !in args && "-h" !in args && |o.clips| > 0 && IsFlag(o.methodToken) && guard(MethodKey(o.methodToken))
       && |Missing(o.clips, env.readable)| == 0 {
      match Lookup(MethodKey(o.methodToken))
      case None =>
      case Some(kind) =>
        assert r.effects == InfoProbes(o.clips) + Dispatch(kind, o, env).effects;
    }
  }

  /** Whatever the clips, the probes and the method check (as written or
      reading only the table), --preview never executes anything. */
  lemma PreviewNeverExecutes(args: seq<string>, env: Env, guard: string -> bool)
    requires |args| > 0 && Parse(args, env.parseInt).preview
    ensures forall e :: e in Run(args, env, guard).effects ==> !e.Execute?
  {
    var o := Parse(args, env.parseInt);
    RunEffects(args, env, guard);
    if IsFlag(o.methodToken) && Lookup(MethodKey(o.methodToken)).Some? {
      DispatchPreview(Lookup(MethodKey(o.methodToken)).value, o, env);
    }
  }

  /** Under --preview each assembly kind shows its command instead of running it. */
  lemma DispatchPreview(kind: Kind, o: Options, env: Env)
    requires o.preview
    ensures forall e :: e in Dispatch(kind, o, env).effects ==> !e.Execute?
  {
    match kind
    case Simple =>
    case Transition(name) =>
      var r := AssembleTransition(name, o, env);
      if |o.clips| >= 2 {
        assert forall e :: e in r.effects ==> e.ProbeDuration? || e.Show?;
      }
    case SideBySide =>
    case Stacked =>
  }

  /** The simple method writes the concat list first, runs the stream copy, and
      removes the list exactly when it is not a preview and the copy succeeded. */
  lemma SimpleListLifecycle(o: Options, env: Env)
    ensures var r := AssembleSimple(o, env);
            var cmd := ConcatCopy(ListFile, o.output);
            && r.effects[0] == WriteFile(ListFile, Content(ResolvedPaths(o.clips, env.resolve)))
            && (RemoveFile(ListFile) in r.effects <==> !o.preview && env.succeeds(cmd))
            && (o.preview ==> r == Outcome(Done, [r.effects[0], Show(cmd)]))
            && (!o.preview ==> Execute(cmd) in r.effects && (r.status.Done? <==> env.succeeds(cmd)))
  {
  }

  /** The list the simple method writes names every clip, resolved, once and in order. */
  lemma SimpleListNamesClips(o: Options, env: Env)
    requires |o.clips| >= 1
    requires forall i :: 0 <= i < |o.clips| ==> NoNewline(env.resolve(o.clips[i]))
    ensures var entries := Entries(Content(ResolvedPaths(o.clips, env.resolve)));
            |entries| == |o.clips| && forall i :: 0 <= i < |o.clips| ==> entries[i] == Some(env.resolve(o.clips[i]))
  {
    ConcatListRoundTrip(ResolvedPaths(o.clips, env.resolve));
  }

  /** The durations are probed only for a transition method without --duration. */
  lemma DurationsProbedOnlyWhenNotSet(name: string, o: Options, env: Env)
    ensures var r := AssembleTransition(name, o, env);
            (exists e :: e in r.effects && e.ProbeDuration?) <==> |o.clips| >= 2 && !o.userSetDuration
  {
    var r := AssembleTransition(name, o, env);
    if |o.clips| >= 2 && !o.userSetDuration {
      assert r.effects[0] == ProbeDuration(o.clips[0]);
    }
  }

  /** A command predicate: the encode of a well-formed graph over the given clips. */
  predicate SoundCommand(cmd: Command, clips: seq<string>)
  {
    cmd.Encode? ==> cmd.inputs == clips && WellFormed(Plan(cmd.graph, cmd.mapped), |clips|)
  }

  lemma {:induction false} DispatchSound(kind: Kind, o: Options, env: Env)
    requires |o.clips| >= 1
    ensures forall e :: e in Dispatch(kind, o, env).effects && (e.Show? || e.Execute?) ==> SoundCommand(e.command, o.clips)
  {
    var n := |o.clips|;
    match kind
    case Simple =>
    case Transition(name) =>
      TransitionSound(name, o, env);
    case SideBySide =>
      SideBySidePlanSound(n);
      GridSound(SideBySidePlan(n), o, env);
    case Stacked =>
      StackedPlanSound(n);
      GridSound(StackedPlan(n), o, env);
  }

  lemma TransitionSound(name: string, o: Options, env: Env)
    ensures forall e :: e in AssembleTransition(name, o, env).effects && (e.Show? || e.Execute?) ==> SoundCommand(e.command, o.clips)
  {
    var n := |o.clips|;
    if n >= 2 {
      var probes := seq(n, i requires 0 <= i < n => env.probeDuration(o.clips[i]));
      var requested := Timing(o.duration as real, o.transition as real);
      TransitionPlanSound(n, name, requested, o.userSetDuration, probes);
      var plan := TransitionPlan(n, name, requested, o.userSetDuration, probes).value;
      var probed := if o.userSetDuration then [] else DurationProbes(o.clips);
      assert AssembleTransition(name, o, env).effects == probed + RunPlan(o, plan, env).effects;
    }
  }

  lemma GridSound(plan: Option<Plan>, o: Options, env: Env)
    requires plan.Some? ==> WellFormed(plan.value, |o.clips|)
    ensures forall e :: e in AssembleGrid(plan, o, env).effects && (e.Show? || e.Execute?) ==> SoundCommand(e.command, o.clips)
  {
  }

  /** Every encode command the planner shows or executes, whatever the method
      check, takes the clips as its inputs, in order, and carries a
      well-formed graph whose last output is the label given to `-map`. */
  lemma EncodedGraphsWellFormed(args: seq<string>, env: Env, guard: string -> bool)
    requires |args| > 0
    ensures forall e :: e in Run(args, env, guard).effects && (e.Show? || e.Execute?) ==>
              SoundCommand(e.command, Parse(args, env.parseInt).clips)
  {
    var o := Parse(args, env.parseInt);
    RunEffects(args, env, guard);
    if o.clips != [] && IsFlag(o.methodToken) && Lookup(MethodKey(o.methodToken)).Some? {
      DispatchSound(Lookup(MethodKey(o.methodToken)).value, o, env);
    }
  }

  /** A grid or transition method with a single clip still probes that clip
      before it is refused. */
  lemma SingleClipProbedThenRefused(args: seq<string>, env: Env)
    requires |args| > 0 && "--help" !in args && "-h" !in args
    requires var o := Parse(args, env.parseInt);
             |o.clips| == 1 && IsFlag(o.methodToken) && Lookup(MethodKey(o.methodToken)).Some?
             && Lookup(MethodKey(o.methodToken)).value != Simple && env.readable(o.clips[0])
    ensures var o := Parse(args, env.parseInt);
            Assemble(args, env) == Outcome(Failed(TooFewClips), [ProbeInfo(o.clips[0])])
  {
    var o := Parse(args, env.parseInt);
    MissingIffUnreadable(o.clips, env.readable);
  }

  /** The command line of the example: method token `--toString`, one clip. */
  lemma ToStringCommandLine(env: Env)
    ensures var args := ["--toString", "a.mp4"];
            var o := Parse(args, env.parseInt);
            o.methodToken == "--toString" && o.clips == ["a.mp4"] && IsFlag(o.methodToken)
            && MethodKey(o.methodToken) == "toString"
  {
    var args := ["--toString", "a.mp4"];
    assert args[1..] == ["a.mp4"];
    assert "a.mp4"[..2] == "a.";
    assert !IsFlag("a.mp4");
    assert Plain(["a.mp4"]) == ["a.mp4"] by {
      assert ["a.mp4"][1..] == [];
    }
    PlainTokensAreClips(args, env.parseInt);
    assert "--toString"[..2] == "--";
    assert "--toString"[2..] == "toString";
  }

  /** As written, `--toString` passes the method check, every clip is probed,
      and the run ends with status 0 having built and run nothing. */
  lemma InheritedMethodBuildsNothing(env: Env)
    requires env.readable("a.mp4")
    ensures var r := AssembleAsWritten(["--toString", "a.mp4"], env);
            r == Outcome(Done, [ProbeInfo("a.mp4")]) && ExitCode(r.status) == 0
  {
    InheritedKeyPassesGuard();
    ToStringCommandLine(env);
  }

  /** With the check reading only the table's keys, the same command line is
      refused as an unknown method before any probe. */
  lemma InheritedMethodRefused(env: Env)
    ensures Assemble(["--toString", "a.mp4"], env)
            == Outcome(Failed(UnknownMethod("--toString", AvailableFlags())), [])
  {
    ToStringCommandLine(env);
    RunStages(["--toString", "a.mp4"], env, key => Lookup(key).Some?);
  }
}
