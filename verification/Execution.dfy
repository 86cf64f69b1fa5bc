/**
 Plans and their execution: steps run in order until one fails; a dry run renders
 them instead. The machine that commands and file writes act on is a parameter.
 */
module Execution {
  import opened Basics
  import opened Numerals
  import opened ShellWords

  // ----- plans

  datatype Command = Command(program: string, args: seq<string>)

  datatype Kind = RunsCommand | WritesFile | IsWarning | OtherKind(text: string)

  datatype Step = Step(
    kind: Kind, description: string, command: Option<Command>, path: string, mode: string, content: string)

  datatype Result = Result(step: Step, output: string, error: Option<string>, dryRun: bool)

  /** Steps of a known kind, and a command wherever one is to be run. */
  predicate WellBuilt(steps: seq<Step>) {
    forall s | s in steps :: !s.kind.OtherKind? && (s.kind == RunsCommand ==> s.command.Some?)
  }

  class Plan {
    var steps: seq<Step>

    ghost predicate Valid()
      reads this
    {
      WellBuilt(steps)
    }

    constructor ()
      ensures Valid() && steps == []
    {
      steps := [];
    }

    method AddCommand(description: string, program: string, args: seq<string>)
      requires Valid()
      modifies this
      ensures Valid()
      ensures steps == old(steps) + [Step(RunsCommand, description, Some(Command(program, args)), "", "", "")]
    {
      steps := steps + [Step(RunsCommand, description, Some(Command(program, args)), "", "", "")];
    }

    method AddWrite(description: string, path: string, mode: string, content: string)
      requires Valid()
      modifies this
      ensures Valid()
      ensures steps == old(steps) + [Step(WritesFile, description, None, path, mode, content)]
    {
      steps := steps + [Step(WritesFile, description, None, path, mode, content)];
    }

    method AddWarning(text: string)
      requires Valid()
      modifies this
      ensures Valid()
      ensures steps == old(steps) + [Step(IsWarning, text, None, "", "", "")]
    {
      steps := steps + [Step(IsWarning, text, None, "", "", "")];
    }

    /** Steps that another generator adds. */
    method AddSteps(more: seq<Step>)
      requires Valid() && WellBuilt(more)
      modifies this
      ensures Valid()
      ensures steps == old(steps) + more
    {
      steps := steps + more;
    }
  }

  // ----- one step

  /** How a process ended: its output, whether the context was cancelled, whether it failed. */
  datatype Exit<W> = Exit(world: W, output: string, cancelled: Option<string>, failure: Option<string>)

  datatype Written<W> = Written(world: W, error: Option<string>)

  datatype Env<!W> = Env(run: (W, Command) -> Exit<W>, write: (W, string, string, string) -> Written<W>)

  datatype Attempt<W> = Attempt(world: W, output: string, error: Option<string>)

  function RunCommand<W>(env: Env<W>, w: W, c: Command): Attempt<W> {
    if c.program == "" then Attempt(w, "", Some("empty command program")) else
      var x := env.run(w, c);
      if x.cancelled.Some? then Attempt(x.world, x.output, x.cancelled)
      else match x.failure
        case None => Attempt(x.world, x.output, None)
        case Some(e) => Attempt(x.world, x.output, Some(CommandLine(c.program, c.args) + ": " + e + ": " + x.output))
  }

  function Perform<W>(env: Env<W>, w: W, s: Step): Attempt<W> {
    match s.kind
    case RunsCommand =>
      (match s.command
       case None => Attempt(w, "", Some("missing command for " + s.description))
       case Some(c) => RunCommand(env, w, c))
    case WritesFile =>
      var x := env.write(w, s.path, s.mode, s.content);
      Attempt(x.world, "", x.error)
    case IsWarning => Attempt(w, "", None)
    case OtherKind(text) => Attempt(w, "", Some("unsupported step kind " + text))
  }

  /** What a dry run reports for a step; the text after a failure goes into the result. */
  function Preview(s: Step): (string, Option<string>) {
    match s.kind
    case RunsCommand =>
      (match s.command
       case None => ("", Some("missing command"))
       case Some(c) => (CommandLine(c.program, c.args), None))
    case WritesFile => ("write " + s.path + " mode " + s.mode + " (" + Decimal(|s.content|) + " bytes)", None)
    case _ => ("", None)
  }

  // ----- whole plans

  datatype Trace<W> = Trace(world: W, results: seq<Result>, error: Option<string>)

  function Extend<W>(t: Trace<W>, w: W, r: Result, error: Option<string>): Trace<W> {
    Trace(w, t.results + [r], error)
  }

  function Continue<W>(env: Env<W>, dryRun: bool, t: Trace<W>, s: Step): Trace<W> {
    if t.error.Some? then t
    else if dryRun then
      var p := Preview(s);
      Extend(t, t.world, Result(s, p.0, p.1, true), if p.1.Some? then Some("missing command for " + s.description) else None)
    else
      var a := Perform(env, t.world, s);
      Extend(t, a.world, Result(s, a.output, a.error, false), a.error)
  }

  function Exec<W>(env: Env<W>, dryRun: bool, w: W, steps: seq<Step>): Trace<W> {
    if steps == [] then Trace(w, [], None) else
      Continue(env, dryRun, Exec(env, dryRun, w, steps[..|steps| - 1]), steps[|steps| - 1])
  }

  lemma {:induction false} FailedStays<W>(env: Env<W>, dryRun: bool, w: W, steps: seq<Step>, n: nat)
    requires n <= |steps| && Exec(env, dryRun, w, steps[..n]).error.Some?
    ensures Exec(env, dryRun, w, steps) == Exec(env, dryRun, w, steps[..n])
    decreases |steps|
  {
    if n == |steps| {
      assert steps[..n] == steps;
    } else {
      var init := steps[..|steps| - 1];
      assert init[..n] == steps[..n];
      FailedStays(env, dryRun, w, init, n);
    }
  }

  class Machine<!W> {
    const env: Env<W>
    var world: W

    constructor (env: Env<W>, world: W)
      ensures this.env == env && this.world == world
    {
      this.env, this.world := env, world;
    }

    /** Runs the steps in order, collecting results, and stops at the first error. */
    method Execute(dryRun: bool, steps: seq<Step>) returns (results: seq<Result>, error: Option<string>)
      modifies this
      ensures Trace(world, results, error) == Exec(env, dryRun, old(world), steps)
    {
      results := [];
      error := None;
      for i := 0 to |steps|
        invariant error == None
        invariant Trace(world, results, None) == Exec(env, dryRun, old(world), steps[..i])
      {
        assert steps[..i + 1][..i] == steps[..i];
        ghost var before := Trace(world, results, None);
        var step := steps[i];
        var output := "";
        if step.kind == IsWarning {
          results := results + [Result(step, "", None, dryRun)];
        } else if dryRun {
          if step.kind == RunsCommand {
            if step.command == None {
              results := results + [Result(step, "", Some("missing command"), true)];
              error := Some("missing command for " + step.description);
            } else {
              output := CommandString(step.command.value.program, step.command.value.args);
              results := results + [Result(step, output, None, true)];
            }
          } else if step.kind == WritesFile {
            output := "write " + step.path + " mode " + step.mode + " (" + Decimal(|step.content|) + " bytes)";
            results := results + [Result(step, output, None, true)];
          } else {
            results := results + [Result(step, "", None, true)];
          }
        } else {
          var a := Perform(env, world, step);
          world := a.world;
          results := results + [Result(step, a.output, a.error, false)];
          error := a.error;
        }
        assert Trace(world, results, error) == Continue(env, dryRun, before, step);
        if error.Some? {
          FailedStays(env, dryRun, old(world), steps, i + 1);
          return;
        }
      }
      assert steps[..|steps|] == steps;
    }
  }

  // ----- laws of execution

  /** Results cover a prefix of the steps in order; only the last may carry an error; no error means the whole plan ran. */
  lemma {:induction false} ExecutionIsPrefix<W>(env: Env<W>, dryRun: bool, w: W, steps: seq<Step>)
    ensures var t := Exec(env, dryRun, w, steps);
            && |t.results| <= |steps|
            && (forall i :: 0 <= i < |t.results| ==> t.results[i].step == steps[i] && t.results[i].dryRun == dryRun)
            && (forall i :: 0 <= i < |t.results| - 1 ==> t.results[i].error == None)
            && (t.error == None <==> forall r | r in t.results :: r.error == None)
            && (t.error == None ==> |t.results| == |steps|)
            && (t.error.Some? ==> t.results != [] && t.results[|t.results| - 1].error.Some?)
  {
    if steps != [] {
      hide Perform;
      hide Preview;
      var init, last := steps[..|steps| - 1], steps[|steps| - 1];
      ExecutionIsPrefix(env, dryRun, w, init);
      var s, t := Exec(env, dryRun, w, init), Exec(env, dryRun, w, steps);
      if s.error == None {
        assert |t.results| == |steps|;
        var r := t.results[|t.results| - 1];
        assert r in t.results;
        forall x ensures x in t.results <==> x in s.results || x == r {}
      }
    }
  }

  /** Steps after the failing one have no effect: the world is what the covered prefix alone leaves. */
  lemma {:induction false} OnlyThePrefixActs<W>(env: Env<W>, dryRun: bool, w: W, steps: seq<Step>)
    ensures var t := Exec(env, dryRun, w, steps);
            |t.results| <= |steps| && Exec(env, dryRun, w, steps[..|t.results|]) == t
  {
    ExecutionIsPrefix(env, dryRun, w, steps);
    if steps != [] {
      hide Perform;
      hide Preview;
      var init := steps[..|steps| - 1];
      var s, t := Exec(env, dryRun, w, init), Exec(env, dryRun, w, steps);
      ExecutionIsPrefix(env, dryRun, w, init);
      OnlyThePrefixActs(env, dryRun, w, init);
      if s.error.Some? {
        assert init[..|s.results|] == steps[..|s.results|];
      } else {
        assert steps[..|t.results|] == steps;
      }
    }
  }

  /** Running one plan after another is running their concatenation, unless the first fails. */
  lemma {:induction false} ExecutionConcat<W>(
    env: Env<W>, dryRun: bool, w: W, a: seq<Step>, b: seq<Step>)
    ensures var s := Exec(env, dryRun, w, a);
            var t := Exec(env, dryRun, s.world, b);
            Exec(env, dryRun, w, a + b) ==
            if s.error.Some? then s else Trace(t.world, s.results + t.results, t.error)
    decreases |b|
  {
    var s := Exec(env, dryRun, w, a);
    if b == [] {
      assert a + b == a && s.results + [] == s.results;
    } else {
      hide Perform;
      hide Preview;
      var init, last := b[..|b| - 1], b[|b| - 1];
      assert (a + b)[..|a + b| - 1] == a + init;
      ExecutionConcat(env, dryRun, w, a, init);
      var t := Exec(env, dryRun, s.world, init);
      if s.error == None && t.error == None {
        var u := Exec(env, dryRun, s.world, b);
        var r := u.results[|u.results| - 1];
        assert (s.results + t.results) + [r] == s.results + (t.results + [r]);
      }
    }
  }

  /** A dry run leaves the world alone and fails exactly at the first command step without a command. */
  lemma {:induction false} DryRunChangesNothing<W>(env: Env<W>, w: W, steps: seq<Step>)
    ensures Exec(env, true, w, steps).world == w
    ensures Exec(env, true, w, steps).error == None <==>
            forall s | s in steps :: s.kind == RunsCommand ==> s.command.Some?
  {
    if steps != [] {
      hide CommandLine;
      var init, last := steps[..|steps| - 1], steps[|steps| - 1];
      assert steps == init + [last];
      DryRunChangesNothing(env, w, init);
    }
  }

  lemma {:induction false} DryRunOutput<W>(env: Env<W>, w: W, steps: seq<Step>, i: nat)
    requires i < |Exec(env, true, w, steps).results| && i < |steps|
    ensures Exec(env, true, w, steps).results[i].output == Preview(steps[i]).0
  {
    hide Preview;
    var init := steps[..|steps| - 1];
    ExecutionIsPrefix(env, true, w, init);
    if i < |Exec(env, true, w, init).results| {
      DryRunOutput(env, w, init, i);
    }
  }

  /** For a plan built by the Add methods a dry run completes, with each command's words recoverable from its rendering. */
  lemma {:induction false} DryRunRendersThePlan<W>(env: Env<W>, w: W, steps: seq<Step>, i: nat)
    requires WellBuilt(steps) && i < |steps|
    ensures var t := Exec(env, true, w, steps);
            && t.error == None && |t.results| == |steps|
            && (steps[i].kind == RunsCommand ==>
                  Tokenise(t.results[i].output) == Tokens(Words([steps[i].command.value.program] + steps[i].command.value.args)))
  {
    DryRunChangesNothing(env, w, steps);
    ExecutionIsPrefix(env, true, w, steps);
    DryRunOutput(env, w, steps, i);
    if steps[i].kind == RunsCommand {
      QuotingRoundTrip(steps[i].command.value.program, steps[i].command.value.args);
    }
  }

  /** What a dry run shows of a step: a command's rendering, a write's path, mode and size, and nothing of the rest. */
  predicate Shows(s: Step, r: Result) {
    && (s.kind == RunsCommand && s.command.Some? ==>
          r.error == None && Tokenise(r.output) == Tokens(Words([s.command.value.program] + s.command.value.args)))
    && (s.kind == RunsCommand && s.command == None ==> r.error == Some("missing command") && r.output == "")
    && (s.kind == WritesFile ==>
          r.error == None && r.output == "write " + s.path + " mode " + s.mode + " (" + Decimal(|s.content|) + " bytes)")
    && (s.kind.IsWarning? || s.kind.OtherKind? ==> r.error == None && r.output == "")
  }

  lemma PreviewShows(s: Step)
    ensures Shows(s, Result(s, Preview(s).0, Preview(s).1, true))
  {
    if s.kind == RunsCommand && s.command.Some? {
      QuotingRoundTrip(s.command.value.program, s.command.value.args);
    }
  }

  /** Every result of a dry run shows its step; the one error stops it and names the step. */
  lemma {:induction false} DryResults<W>(env: Env<W>, w: W, steps: seq<Step>, i: nat)
    requires i < |Exec(env, true, w, steps).results|
    ensures i < |steps|
    ensures var t := Exec(env, true, w, steps);
            && Shows(steps[i], t.results[i])
            && (t.results[i].error.Some? ==>
                  i == |t.results| - 1 && t.error == Some("missing command for " + steps[i].description))
  {
    hide Shows;
    hide Preview;
    var init, last := steps[..|steps| - 1], steps[|steps| - 1];
    ExecutionIsPrefix(env, true, w, init);
    if i < |Exec(env, true, w, init).results| {
      DryResults(env, w, init, i);
    } else {
      PreviewShows(last);
    }
  }

  // ----- what a real run reports

  /** A command that can be tried: the environment decides its output, its error and the world behind it. */
  ghost predicate ReportsCommand<W>(env: Env<W>, w: W, c: Command, r: Result, after: W) {
    var x := env.run(w, c);
    && r.output == x.output && after == x.world
    && (r.error == None <==> x.cancelled == None && x.failure == None)
    && (x.cancelled.Some? ==> r.error == x.cancelled)
    && (x.cancelled == None && x.failure.Some? ==>
          r.error == Some(CommandLine(c.program, c.args) + ": " + x.failure.value + ": " + x.output))
  }

  ghost predicate ReportsWrite<W>(env: Env<W>, w: W, s: Step, r: Result, after: W) {
    var x := env.write(w, s.path, s.mode, s.content);
    r.output == "" && r.error == x.error && after == x.world
  }

  /** A step the run refuses outright: the error, and the world as it was. */
  ghost predicate Refuses<W>(w: W, r: Result, after: W, error: string) {
    r.output == "" && r.error == Some(error) && after == w
  }

  /** The result of a step that a real run reached, and the world after it, in terms of the environment. */
  ghost predicate Reports<W>(env: Env<W>, w: W, s: Step, r: Result, after: W) {
    && (s.kind == RunsCommand && s.command.Some? && s.command.value.program != "" ==>
          ReportsCommand(env, w, s.command.value, r, after))
    && (s.kind == RunsCommand && s.command == None ==> Refuses(w, r, after, "missing command for " + s.description))
    && (s.kind == RunsCommand && s.command.Some? && s.command.value.program == "" ==>
          Refuses(w, r, after, "empty command program"))
    && (s.kind == WritesFile ==> ReportsWrite(env, w, s, r, after))
    && (s.kind == IsWarning ==> r.output == "" && r.error == None && after == w)
    && (s.kind.OtherKind? ==> Refuses(w, r, after, "unsupported step kind " + s.kind.text))
  }

  lemma PerformReports<W>(env: Env<W>, w: W, s: Step)
    ensures var a := Perform(env, w, s);
            Reports(env, w, s, Result(s, a.output, a.error, false), a.world)
  {
  }

  lemma RealStep<W>(env: Env<W>, w: W, steps: seq<Step>)
    requires steps != [] && Exec(env, false, w, steps[..|steps| - 1]).error == None
    ensures var init, last := steps[..|steps| - 1], steps[|steps| - 1];
            var s, t := Exec(env, false, w, init), Exec(env, false, w, steps);
            var a := Perform(env, s.world, last);
            t == Trace(a.world, s.results + [Result(last, a.output, a.error, false)], a.error)
  {
    hide Perform;
    hide Preview;
  }

  lemma RealStays<W>(env: Env<W>, w: W, steps: seq<Step>)
    requires steps != [] && Exec(env, false, w, steps[..|steps| - 1]).error.Some?
    ensures Exec(env, false, w, steps) == Exec(env, false, w, steps[..|steps| - 1])
  {
  }

  /**
   Every result of a real run is what the environment made of its step in the world the steps
   before it left: a cancelled command reports the cancellation, and is the last.
   */
  lemma {:induction false} RealResults<W>(env: Env<W>, w: W, steps: seq<Step>, i: nat)
    requires i < |Exec(env, false, w, steps).results|
    ensures i < |steps|
    ensures var t := Exec(env, false, w, steps);
            && Reports(env, Exec(env, false, w, steps[..i]).world, steps[i], t.results[i],
                       Exec(env, false, w, steps[..i + 1]).world)
            && (t.results[i].error.Some? ==> i == |t.results| - 1 && t.error == t.results[i].error)
            && (i == |t.results| - 1 ==> t.world == Exec(env, false, w, steps[..i + 1]).world)
  {
    var init, last := steps[..|steps| - 1], steps[|steps| - 1];
    var s := Exec(env, false, w, init);
    ExecutionIsPrefix(env, false, w, init);
    if s.error == None {
      RealStep(env, w, steps);
    } else {
      RealStays(env, w, steps);
    }
    hide Exec;
    hide Reports;
    hide Perform;
    if i < |s.results| {
      RealResults(env, w, init, i);
      assert init[..i] == steps[..i] && init[..i + 1] == steps[..i + 1];
    } else {
      assert steps[..i] == init && steps[..i + 1] == steps;
      PerformReports(env, s.world, last);
    }
  }

  // ----- what passes the dry run and what can run

  /** No real run refuses the step outright. */
  predicate Runnable(s: Step) {
    !s.kind.OtherKind? && (s.kind == RunsCommand ==> s.command.Some? && s.command.value.program != "")
  }

  /** The dry run previews the step. */
  predicate Previewable(s: Step) {
    s.kind == RunsCommand ==> s.command.Some?
  }

  predicate AllRunnable(steps: seq<Step>) {
    forall s | s in steps :: Runnable(s)
  }

  lemma PerformedIsRunnable<W>(env: Env<W>, w: W, s: Step)
    requires Perform(env, w, s).error == None
    ensures Runnable(s)
  {
  }

  /** A plan that runs to its end holds runnable steps only. */
  lemma {:induction false} CompletedRunsAreRunnable<W>(env: Env<W>, w: W, steps: seq<Step>)
    requires Exec(env, false, w, steps).error == None
    ensures AllRunnable(steps)
  {
    hide Perform;
    hide Preview;
    hide Runnable;
    if steps != [] {
      var init, last := steps[..|steps| - 1], steps[|steps| - 1];
      assert steps == init + [last];
      CompletedRunsAreRunnable(env, w, init);
      PerformedIsRunnable(env, Exec(env, false, w, init).world, last);
    }
  }

  /** An environment in which no process and no write ever fails. */
  function Obliging<W>(): Env<W> {
    Env((w, _) => Exit(w, "", None, None), (w, _, _, _) => Written(w, None))
  }

  lemma ObligingPerforms<W>(w: W, s: Step)
    requires Runnable(s)
    ensures Perform(Obliging<W>(), w, s).error == None
  {
  }

  lemma {:induction false} RunnableCompletes<W>(w: W, steps: seq<Step>)
    requires AllRunnable(steps)
    ensures Exec(Obliging<W>(), false, w, steps).error == None
  {
    if steps != [] {
      var init, last := steps[..|steps| - 1], steps[|steps| - 1];
      assert steps == init + [last];
      forall s | s in init ensures s in steps {}
      RunnableCompletes(w, init);
      assert Runnable(last);
      ObligingPerforms(Exec(Obliging<W>(), false, w, init).world, last);
      hide Perform;
      hide Preview;
      hide Runnable;
      hide Obliging;
    }
  }

  /** Some environment completes a plan if and only if every step is runnable. */
  lemma {:induction false} RunnableIff<W(!new)>(w: W, steps: seq<Step>)
    ensures (exists env: Env<W> :: Exec(env, false, w, steps).error == None) <==> AllRunnable(steps)
  {
    if env: Env<W> :| Exec(env, false, w, steps).error == None {
      CompletedRunsAreRunnable(env, w, steps);
    }
    if AllRunnable(steps) {
      RunnableCompletes(w, steps);
    }
  }

  /**
   A plan passes its dry run and fails every real one if and only if each step can be previewed
   and some step has an unknown kind or an empty program.
   */
  lemma {:induction false} DryRunMisleadsIff<W(!new)>(preview: Env<W>, w: W, steps: seq<Step>)
    ensures Exec(preview, true, w, steps).error == None && (forall env: Env<W> :: Exec(env, false, w, steps).error.Some?) <==>
            (forall s | s in steps :: Previewable(s)) && exists s | s in steps :: !Runnable(s)
  {
    DryRunChangesNothing(preview, w, steps);
    RunnableIff(w, steps);
    hide Exec;
  }
}
