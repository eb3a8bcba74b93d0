/**
 Whole ticks, and runs of them, as lists of steps that do not disturb one another.
 */
module Ticks {
  import opened Text
  import opened Json
  import opened AllowList
  import opened Siblings
  import opened BlockScan
  import opened Render
  import opened Splice
  import opened Heartbeat
  import opened HeartbeatRuns
  import opened Paths
  import opened ConfigFile
  import opened World
  import opened Retired
  import opened Steps
  import opened Frames
  import opened Preview
  import opened Settle

  /** No step disturbs another, except that two may want the same file; and each is in order by itself. */
  ghost predicate Peaceful(steps: seq<Step>, env: Env) {
    && (forall i, j :: 0 <= i < |steps| && 0 <= j < |steps| && i != j ==>
          Undisturbed(steps[i], steps[j], env) || Twin(steps[i], steps[j], env))
    && (forall k :: 0 <= k < |steps| ==> Sturdy(steps[k], env))
  }

  ghost predicate Calm(env: Env) {
    NoFailures(env) && Faithful(env.codec)
  }

  ghost function Tick(steps: seq<Step>, files: Files, env: Env): Files {
    RunSteps(steps, files, env, false).files
  }

  ghost function TickRun(steps: seq<Step>, files: Files, env: Env, n: nat): Files
    decreases n
  {
    if n == 0 then files else TickRun(steps, Tick(steps, files, env), env, n - 1)
  }

  // ---- one step within a tick --------------------------------------------------------------------

  lemma {:induction false} OthersKeepView(steps: seq<Step>, y: Step, files: Files, env: Env)
    requires Faithful(env.codec) && Refusable(y, files, env)
    requires forall k :: 0 <= k < |steps| ==> Undisturbed(steps[k], y, env) && ConfigApart(steps[k], env)
    ensures SameView(y, files, RunSteps(steps, files, env, false).files, env)
    decreases |steps|
  {
    hide Undisturbed, ConfigApart, Apply, SameView, Faithful, Refusable;
    if steps == [] {
      SameViewRefl(y, files, env);
    } else {
      var next := Apply(steps[0], files, env, false).files;
      UndisturbedView(steps[0], y, files, env);
      OthersKeepView(steps[1..], y, next, env);
      SameViewTrans(y, files, next, RunSteps(steps, files, env, false).files, env);
    }
  }

  lemma {:induction false} OthersKeepRefusable(steps: seq<Step>, y: Step, files: Files, env: Env)
    requires Faithful(env.codec) && Refusable(y, files, env)
    requires forall k :: 0 <= k < |steps| ==> Undisturbed(steps[k], y, env) && ConfigApart(steps[k], env)
    ensures Refusable(y, RunSteps(steps, files, env, false).files, env)
    decreases |steps|
  {
    hide Undisturbed, ConfigApart, Apply, SameView, Faithful, Refusable;
    if steps != [] {
      UndisturbedView(steps[0], y, files, env);
      OthersKeepRefusable(steps[1..], y, Apply(steps[0], files, env, false).files, env);
    }
  }

  lemma KeepsRefusable(x: Step, files: Files, env: Env)
    requires ConfigApart(x, env) && Refusable(x, files, env)
    ensures Refusable(x, Apply(x, files, env, false).files, env)
  {
    ConfigStaysThere(x, files, env);
    hide Apply, ConfigApart, ConfigKeys;
  }

  lemma SameViewRefl(y: Step, files: Files, env: Env)
    ensures SameView(y, files, files, env)
  {
  }

  /** Within a tick each step starts from what it saw before the tick, and what it leaves is what
      it sees after the tick. */
  lemma AroundStep(steps: seq<Step>, k: nat, files: Files, env: Env) returns (before: Files)
    requires Faithful(env.codec) && Peaceful(steps, env) && k < |steps| && Refusable(steps[k], files, env)
    requires !steps[k].Own?
    ensures SameView(steps[k], files, before, env)
    ensures SameView(steps[k], Apply(steps[k], before, env, false).files, Tick(steps, files, env), env)
  {
    PeacefulParts(steps, env);
    OnlyOwnHasTwins(steps, k, env);
    hide *;
    var left, right := steps[..k], steps[k + 1..];
    before := RunSteps(left, files, env, false).files;
    var middle := Apply(steps[k], before, env, false).files;
    assert steps == left + ([steps[k]] + right);
    RunSplit(left, [steps[k]] + right, files, env, false);
    RunSplit([steps[k]], right, before, env, false);
    RunOne(steps[k], before, env, false);
    TickIs(steps, files, env);
    OthersKeepView(left, steps[k], files, env);
    OthersKeepRefusable(left, steps[k], files, env);
    KeepsRefusable(steps[k], before, env);
    OthersKeepView(right, steps[k], middle, env);
  }

  lemma PeacefulParts(steps: seq<Step>, env: Env)
    ensures Peaceful(steps, env) ==>
              forall i, j :: 0 <= i < |steps| && 0 <= j < |steps| && i != j ==>
                Undisturbed(steps[i], steps[j], env) || Twin(steps[i], steps[j], env)
    ensures Peaceful(steps, env) ==>
              forall k :: 0 <= k < |steps| ==>
                Sturdy(steps[k], env) && Plain(steps[k], env) && ConfigApart(steps[k], env)
  {
    hide Undisturbed, ConfigApart, DistinctFiles, Twin;
  }

  lemma OnlyOwnHasTwins(steps: seq<Step>, k: nat, env: Env)
    requires k < |steps| && !steps[k].Own?
    ensures Peaceful(steps, env) ==>
              forall i :: 0 <= i < |steps| && i != k ==> Undisturbed(steps[i], steps[k], env)
  {
    hide Undisturbed, Sturdy;
  }

  lemma TwinMakesStill(x: Step, y: Step, files: Files, env: Env)
    requires NoFailures(env) && Twin(x, y, env)
    ensures Still(y, Apply(x, files, env, false).files, env)
  {
  }

  /** Every step leaves `y` alone, or wants the same as `y`. */
  ghost predicate AllSpare(steps: seq<Step>, y: Step, env: Env) {
    forall k :: 0 <= k < |steps| ==>
      (Undisturbed(steps[k], y, env) || Twin(steps[k], y, env)) && ConfigApart(steps[k], env)
  }

  lemma {:induction false} OthersKeepStill(steps: seq<Step>, y: Step, files: Files, env: Env)
    requires Calm(env) && Plain(y, env)
    ensures Still(y, files, env) && AllSpare(steps, y, env) ==> Still(y, RunSteps(steps, files, env, false).files, env)
    decreases |steps|
  {
    hide Undisturbed, ConfigApart, Apply, SameView, Faithful, Refusable, NoFailures, Plain, Still, Twin;
    if steps != [] && Still(y, files, env) && AllSpare(steps, y, env) {
      assert AllSpare(steps[1..], y, env);
      var next := Apply(steps[0], files, env, false).files;
      if Twin(steps[0], y, env) {
        TwinMakesStill(steps[0], y, files, env);
      } else {
        Refuse(y, files, env);
        UndisturbedView(steps[0], y, files, env);
        StillLocal(y, files, next, env);
      }
      OthersKeepStill(steps[1..], y, next, env);
    }
  }

  lemma AllSpareIs(steps: seq<Step>, y: Step, env: Env)
    ensures AllSpare(steps, y, env) <==>
              forall k :: 0 <= k < |steps| ==>
                (Undisturbed(steps[k], y, env) || Twin(steps[k], y, env)) && ConfigApart(steps[k], env)
  {
    hide Undisturbed, Twin, ConfigApart;
  }

  lemma TickIs(steps: seq<Step>, files: Files, env: Env)
    ensures Tick(steps, files, env) == RunSteps(steps, files, env, false).files
  {
  }

  lemma {:induction false} AllStill(steps: seq<Step>, files: Files, env: Env)
    requires forall k :: 0 <= k < |steps| ==> Still(steps[k], files, env)
    ensures Tick(steps, files, env) == files
    decreases |steps|
  {
    hide Apply;
    if steps != [] { AllStill(steps[1..], files, env); }
  }

  // ---- what one tick does to each step -----------------------------------------------------------------

  lemma ContentAfterTick(steps: seq<Step>, k: nat, files: Files, env: Env)
    requires Calm(env) && Peaceful(steps, env) && k < |steps| && (steps[k].Beat? || steps[k].Unmark?)
    ensures ContentOf(steps[k], Tick(steps, files, env), env) == NextContent(steps[k], ContentOf(steps[k], files, env))
  {
    CalmParts(env);
    hide *;
    Refuse(steps[k], files, env);
    var before := AroundStep(steps, k, files, env);
    var step := steps[k];
    ContentLocal(step, files, before, env);
    BeatContent(step, before, env);
    ContentLocal(step, Apply(step, before, env, false).files, Tick(steps, files, env), env);
  }

  lemma CalmParts(env: Env)
    ensures Calm(env) <==> NoFailures(env) && Faithful(env.codec)
  {
  }

  lemma DoneAfterTick(steps: seq<Step>, k: nat, files: Files, env: Env)
    requires Calm(env) && Peaceful(steps, env) && k < |steps| && !steps[k].Beat? && !steps[k].Unmark?
    ensures Still(steps[k], Tick(steps, files, env), env)
  {
    CalmParts(env);
    PeacefulParts(steps, env);
    hide *;
    var left, right := steps[..k], steps[k + 1..];
    var before := RunSteps(left, files, env, false).files;
    assert steps == left + ([steps[k]] + right);
    RunSplit(left, [steps[k]] + right, files, env, false);
    RunSplit([steps[k]], right, before, env, false);
    RunOne(steps[k], before, env, false);
    TickIs(steps, files, env);
    StepOnce(steps[k], before, env);
    AllSpareIs(right, steps[k], env);
    OthersKeepStill(right, steps[k], Apply(steps[k], before, env, false).files, env);
  }

  lemma StillIsContent(step: Step, files: Files, env: Env)
    requires Calm(env) && (step.Beat? || step.Unmark?)
    ensures Still(step, files, env) <==> NextContent(step, ContentOf(step, files, env)) == ContentOf(step, files, env)
  {
    BeatContent(step, files, env);
  }

  // ---- runs ---------------------------------------------------------------------------------------------

  ghost function Contents(step: Step, content: Option<string>, n: nat): Option<string>
    requires step.Beat? || step.Unmark?
    decreases n
  {
    if n == 0 then content else Contents(step, NextContent(step, content), n - 1)
  }

  lemma {:induction false} ContentAfterRun(steps: seq<Step>, k: nat, files: Files, env: Env, n: nat)
    requires Calm(env) && Peaceful(steps, env) && k < |steps| && (steps[k].Beat? || steps[k].Unmark?)
    ensures ContentOf(steps[k], TickRun(steps, files, env, n), env) ==
              Contents(steps[k], ContentOf(steps[k], files, env), n)
    decreases n
  {
    hide Calm, Peaceful, Tick, ContentOf, NextContent;
    if n > 0 {
      ContentAfterTick(steps, k, files, env);
      ContentAfterRun(steps, k, Tick(steps, files, env), env, n - 1);
    }
  }

  lemma {:induction false} ContentsAreTicks(step: Step, content: Option<string>, n: nat)
    requires step.Beat?
    ensures Contents(step, content, n) == Heartbeat.Ticks(content, step.d, n)
    decreases n
  {
    hide Reconciled;
    if n > 0 { ContentsAreTicks(step, NextContent(step, content), n - 1); }
  }

  lemma {:induction false} ContentsAreStrips(step: Step, content: Option<string>, n: nat)
    requires step.Unmark?
    ensures Contents(step, content, n) == if content.None? then None else Some(Strips(content.value, n))
    decreases n
  {
    hide Kept;
    if n > 0 { ContentsAreStrips(step, NextContent(step, content), n - 1); }
  }

  lemma {:induction false} LastTick(steps: seq<Step>, files: Files, env: Env, n: nat)
    requires n > 0
    ensures TickRun(steps, files, env, n) == Tick(steps, TickRun(steps, files, env, n - 1), env)
    decreases n
  {
    hide Tick;
    if n > 1 { LastTick(steps, Tick(steps, files, env), env, n - 1); }
  }

  /** Longer than every file. */
  ghost predicate Outlasts(n: nat, files: Files) {
    forall k :: k in files ==> |files[k]| < n
  }

  lemma ContentOutlasted(step: Step, files: Files, env: Env, n: nat)
    requires (step.Beat? || step.Unmark?) && Outlasts(n, files) && n > 0
    ensures n > (if ContentOf(step, files, env).Some? then |ContentOf(step, files, env).value| else 0)
  {
  }

  lemma FileSettles(step: Step, content: Option<string>, n: nat)
    requires step.Beat? ==> Valid(step.d)
    requires step.Beat? || step.Unmark?
    requires n > (if content.Some? then |content.value| else 0)
    ensures NextContent(step, Contents(step, content, n)) == Contents(step, content, n)
  {
    hide Contents, BlocksFrom, Kept, Reconciled, Heartbeat.Ticks, Strips, Valid, Settled;
    if step.Beat? {
      ContentsAreTicks(step, content, n);
      TicksConverge(content, step.d, n);
    } else {
      ContentsAreStrips(step, content, n);
      if content.Some? {
        StripsConverge(content.value, n);
        NothingToStrip(Strips(content.value, n));
      }
    }
  }

  lemma SturdyBeat(step: Step, env: Env)
    ensures Sturdy(step, env) && step.Beat? ==> Valid(step.d)
  {
    hide Plain;
  }

  lemma StepSettles(steps: seq<Step>, k: nat, files: Files, env: Env, n: nat)
    requires Calm(env) && Peaceful(steps, env) && k < |steps| && n > 0 && Outlasts(n, files)
    ensures Still(steps[k], TickRun(steps, files, env, n), env)
  {
    PeacefulParts(steps, env);
    hide *;
    var step := steps[k];
    if step.Beat? || step.Unmark? {
      SturdyBeat(step, env);
      ContentOutlasted(step, files, env, n);
      ContentAfterRun(steps, k, files, env, n);
      FileSettles(step, ContentOf(step, files, env), n);
      StillIsContent(step, TickRun(steps, files, env, n), env);
    } else {
      LastTick(steps, files, env, n);
      DoneAfterTick(steps, k, TickRun(steps, files, env, n - 1), env);
    }
  }

  /** Main result on settling: from any files, ticks reach a store that further ticks leave unchanged. */
  lemma TicksSettle(steps: seq<Step>, files: Files, env: Env, n: nat)
    requires Calm(env) && Peaceful(steps, env) && n > 0 && Outlasts(n, files)
    ensures Tick(steps, TickRun(steps, files, env, n), env) == TickRun(steps, files, env, n)
  {
    hide *;
    forall k | 0 <= k < |steps| ensures Still(steps[k], TickRun(steps, files, env, n), env) {
      StepSettles(steps, k, files, env, n);
    }
    AllStill(steps, TickRun(steps, files, env, n), env);
  }

  /** Two rows that want different bytes in one file of ours, which `Peaceful` excludes: the last one
      wins, and the store settles at once, but every tick rewrites the file twice. */
  lemma LastOwnerWins(x: Step, y: Step, files: Files, env: Env)
    requires NoFailures(env) && x.Own? && y.Own?
    requires env.canon(x.path) == env.canon(y.path) && env.sha(x.body) != env.sha(y.body)
    ensures var once := Tick([x, y], files, env);
            && once == files[env.canon(x.path) := y.body]
            && Tick([x, y], once, env) == once
            && (forall r :: r in RunSteps([x, y], once, env, false).rows ==> r.action.Rewrite?)
  {
    var once := files[env.canon(x.path) := y.body];
    OwnTwice(x, y, files, env);
    OwnTwice(x, y, once, env);
    assert once[env.canon(x.path) := y.body] == once;
  }

  lemma OwnTwice(x: Step, y: Step, files: Files, env: Env)
    requires NoFailures(env) && x.Own? && y.Own?
    requires env.canon(x.path) == env.canon(y.path) && env.sha(x.body) != env.sha(y.body)
    ensures var r := RunSteps([x, y], files, env, false);
            && (files == files[env.canon(x.path) := y.body] ==> forall row :: row in r.rows ==> row.action.Rewrite?)
            && (r.files == files[env.canon(x.path) := y.body])
  {
    assert [x, y][1..] == [y];
    RunOne(y, Apply(x, files, env, false).files, env, false);
  }

  // ---- when one tick is enough ------------------------------------------------------------------------------

  /** Cutting the second and further blocks, or all of a retired file, leaves no block behind. */
  ghost predicate CutsClean(step: Step, content: Option<string>)
    requires step.Beat? || step.Unmark?
  {
    content.None? ||
    (if step.Unmark? then Blocks(Kept(content.value, 0)) == []
     else |Blocks(content.value)| <= 1 ||
          (FirstEnd(content.value) <= |content.value| &&
              Blocks(Kept(content.value[FirstEnd(content.value)..], 0)) == []))
  }

  ghost function FirstEnd(s: string): nat {
    if Blocks(s) == [] then 0 else Blocks(s)[0].end
  }

  lemma StripOnceMore(s: string)
    ensures Kept(s, 0) == s <==> Blocks(s) == []
  {
    StripShrinks(s, |s|);
    if Blocks(s) == [] { NothingToStrip(s); }
  }

  lemma ManyAreRewritten(s: string, d: Directive)
    requires |Blocks(s)| > 1
    ensures Reconciled(Some(s), d) == Some(Written(Some(s), d))
  {
    hide Written, BlocksFrom;
  }

  lemma RestOfWritten(s: string, d: Directive) returns (a: string)
    requires Valid(d) && |Blocks(s)| > 1
    ensures FirstEnd(s) <= |s|
    ensures InForm(Written(Some(s), d), a, d, Kept(s[FirstEnd(s)..], 0))
  {
    hide Rendered, Kept, BlocksFrom, InForm, Written;
    FirstBlock(s);
    var t;
    a, t := FirstWrite(Some(s), d);
  }

  lemma OneBlockSettled(w: string, n: nat, m: nat, d: Directive, t: string)
    requires Blocks(w) == [Block(n, m, d.hash, d.r)] + ShiftBlocks(m, Blocks(t))
    ensures Blocks(t) == [] ==> Settled(Some(w), d)
    ensures Blocks(t) != [] ==> |Blocks(w)| > 1
  {
    hide BlocksFrom;
  }

  lemma WriteTwice(s: string, d: Directive)
    requires Valid(d) && |Blocks(s)| > 1
    ensures FirstEnd(s) <= |s|
    ensures var once := Reconciled(Some(s), d);
            Reconciled(once, d) == once <==> Blocks(Kept(s[FirstEnd(s)..], 0)) == []
  {
    hide *;
    var a := RestOfWritten(s, d);
    var w, t := Written(Some(s), d), Kept(s[FirstEnd(s)..], 0);
    ManyAreRewritten(s, d);
    BlocksInForm(w, a, d, t);
    OneBlockSettled(w, |a|, |a| + |Rendered(d)|, d, t);
    if Blocks(t) == [] {
      SettledStays(Some(w), d, 0);
    } else {
      ManyAreRewritten(w, d);
      WriteInForm(w, a, d, t, d);
      StripOnceMore(t);
      SameTail(a + Rendered(d), Kept(t, 0), t);
      InFormIs(w, a, d, t);
    }
  }

  lemma InFormIs(s: string, a: string, d: Directive, t: string)
    ensures InForm(s, a, d, t) ==> s == a + Rendered(d) + t
  {
  }

  lemma SameTail(p: string, x: string, y: string)
    ensures p + x == p + y <==> x == y
  {
    if p + x == p + y {
      assert x == (p + x)[|p|..] && y == (p + y)[|p|..];
    }
  }

  lemma OnceIsEnough(step: Step, content: Option<string>)
    requires step.Beat? || step.Unmark?
    requires step.Beat? ==> Valid(step.d)
    ensures var once := NextContent(step, content); NextContent(step, once) == once <==> CutsClean(step, content)
  {
    hide Kept, BlocksFrom, Reconciled;
    if step.Unmark? {
      if content.Some? { StripOnceMore(Kept(content.value, 0)); }
    } else if content.None? || |Blocks(content.value)| <= 1 {
      OneWriteSettles(content, step.d);
      SettledStays(Reconciled(content, step.d), step.d, 0);
    } else {
      WriteTwice(content.value, step.d);
    }
  }

  ghost predicate AllCutClean(steps: seq<Step>, files: Files, env: Env) {
    forall k :: 0 <= k < |steps| && (steps[k].Beat? || steps[k].Unmark?) ==>
      CutsClean(steps[k], ContentOf(steps[k], files, env))
  }

  lemma CutsCleanMeansStill(steps: seq<Step>, k: nat, files: Files, env: Env)
    requires Calm(env) && Peaceful(steps, env) && k < |steps| && (steps[k].Beat? || steps[k].Unmark?)
    ensures Still(steps[k], Tick(steps, files, env), env) <==> CutsClean(steps[k], ContentOf(steps[k], files, env))
  {
    PeacefulParts(steps, env);
    hide *;
    var step := steps[k];
    SturdyBeat(step, env);
    ContentAfterTick(steps, k, files, env);
    StillIsContent(step, Tick(steps, files, env), env);
    OnceIsEnough(step, ContentOf(step, files, env));
  }

  /** A store a tick leaves alone is one every step leaves alone. */
  lemma FixedMeansStill(steps: seq<Step>, k: nat, files: Files, env: Env)
    requires Calm(env) && Peaceful(steps, env) && k < |steps| && Tick(steps, files, env) == files
    ensures Still(steps[k], files, env)
  {
    hide *;
    var step := steps[k];
    if step.Beat? || step.Unmark? {
      ContentAfterTick(steps, k, files, env);
      StillIsContent(step, files, env);
    } else {
      DoneAfterTick(steps, k, files, env);
    }
  }

  /** Main result on one tick: it settles everything exactly when the cuts it makes are clean. */
  lemma OneTickSettles(steps: seq<Step>, files: Files, env: Env)
    requires Calm(env) && Peaceful(steps, env)
    ensures var once := Tick(steps, files, env); Tick(steps, once, env) == once <==> AllCutClean(steps, files, env)
  {
    hide Calm, Peaceful, Tick, CutsClean, ContentOf, Still;
    var once := Tick(steps, files, env);
    if AllCutClean(steps, files, env) {
      forall k | 0 <= k < |steps| ensures Still(steps[k], once, env) {
        if steps[k].Beat? || steps[k].Unmark? {
          CutsCleanMeansStill(steps, k, files, env);
        } else {
          DoneAfterTick(steps, k, files, env);
        }
      }
      AllStill(steps, once, env);
    }
    if Tick(steps, once, env) == once {
      forall k | 0 <= k < |steps| && (steps[k].Beat? || steps[k].Unmark?)
        ensures CutsClean(steps[k], ContentOf(steps[k], files, env))
      {
        FixedMeansStill(steps, k, once, env);
        CutsCleanMeansStill(steps, k, files, env);
      }
    }
  }

  /** In particular, with at most one block in each heartbeat file and no begin token left in a
      retired file once its blocks are cut. */
  lemma TidyFilesCutClean(step: Step, content: Option<string>)
    requires step.Beat? || step.Unmark?
    requires content.Some? && step.Beat? ==> |Blocks(content.value)| <= 1
    requires content.Some? && step.Unmark? ==>
               forall k :: 0 <= k <= |Kept(content.value, 0)| ==> !At(Kept(content.value, 0), k, BEGIN)
    ensures CutsClean(step, content)
  {
    if content.Some? && step.Unmark? {
      var t := Kept(content.value, 0);
      hide Kept;
      SkipUnbegun(t, 0, |t|);
    }
  }

  // ---- plugins within a tick ------------------------------------------------------------------------------

  lemma UnplugLooks(rp: RetiredPlugin, a: Files, b: Files, env: Env)
    requires SameView(Unplug(rp), a, b, env)
    ensures AgreeOn(a, b, Keys(rp.files, env))
    ensures rp.entry.Some? ==> InConfig(a, rp.entry.value, env) == InConfig(b, rp.entry.value, env)
  {
    if rp.entry.Some? {
      InConfigIsView(a, rp.entry.value, env);
      InConfigIsView(b, rp.entry.value, env);
    }
    hide Keys, InConfig, ViewOf;
  }

  lemma UnplugApart(rp: RetiredPlugin, env: Env)
    ensures ConfigApart(Unplug(rp), env) ==> Apart(rp, env)
  {
  }

  /** Main result on retired plugins: in a tick with any failures, if a file of a plugin that has
      an allow-list goes, the config does not list the plugin when the tick ends. */
  lemma TickRetiresSafely(steps: seq<Step>, k: nat, files: Files, env: Env)
    requires Faithful(env.codec) && Peaceful(steps, env) && k < |steps| && Refusable(steps[k], files, env)
    requires steps[k].Unplug? && steps[k].rp.entry.Some?
    ensures var rp := steps[k].rp;
            var after := Tick(steps, files, env);
            (exists f :: f in Keys(rp.files, env) && f in files && f !in after) ==>
              InConfig(after, rp.entry.value, env) == Clear
  {
    PeacefulParts(steps, env);
    var rp := steps[k].rp;
    UnplugApart(rp, env);
    hide *;
    var before := AroundStep(steps, k, files, env);
    var middle := Apply(steps[k], before, env, false).files;
    var after := Tick(steps, files, env);
    ApplyUnplug(rp, before, env);
    UnplugLooks(rp, files, before, env);
    UnplugLooks(rp, middle, after, env);
    FilesGoOnlyWhenClear(before, rp, env, false);
    forall f | f in Keys(rp.files, env) && f in files && f !in after ensures f in before && f !in middle {
      AgreeAt(files, before, Keys(rp.files, env), f);
      AgreeAt(middle, after, Keys(rp.files, env), f);
    }
  }

  lemma AgreeAt(a: Files, b: Files, keys: set<AbsPath>, k: AbsPath)
    ensures AgreeOn(a, b, keys) && k in keys ==> (k in a <==> k in b)
  {
  }

  lemma ApplyUnplug(rp: RetiredPlugin, files: Files, env: Env)
    ensures Apply(Unplug(rp), files, env, false) == Applied(files, rp, env, false)
  {
  }

  /** Main result on finishing: once the config can be read, one failure-free tick removes the id
      and the files, and the plugin is not reported again. */
  lemma TickRetires(steps: seq<Step>, k: nat, files: Files, env: Env)
    requires Calm(env) && Peaceful(steps, env) && k < |steps| && steps[k].Unplug?
    requires steps[k].rp.entry.Some? ==> InConfig(files, steps[k].rp.entry.value, env) != Unknown
    ensures var rp := steps[k].rp;
            var after := Tick(steps, files, env);
            && (rp.entry.Some? ==> InConfig(after, rp.entry.value, env) == Clear)
            && Keys(rp.files, env) !! after.Keys
            && Applied(after, rp, env, false) == Result(after, [])
  {
    CalmParts(env);
    PeacefulParts(steps, env);
    var rp := steps[k].rp;
    UnplugApart(rp, env);
    hide *;
    Refuse(steps[k], files, env);
    var before := AroundStep(steps, k, files, env);
    var middle := Apply(steps[k], before, env, false).files;
    var after := Tick(steps, files, env);
    ApplyUnplug(rp, before, env);
    UnplugLooks(rp, files, before, env);
    UnplugLooks(rp, middle, after, env);
    OneStepFinishes(before, rp, env);
    forall f | f in Keys(rp.files, env) ensures f !in after {
      AgreeAt(middle, after, Keys(rp.files, env), f);
    }
    NoKeysNonePresent(after, rp, env);
    NothingToApply(after, rp, env);
  }

  lemma NoKeysNonePresent(files: Files, rp: RetiredPlugin, env: Env)
    requires forall f :: f in Keys(rp.files, env) ==> f !in files
    ensures Present(files, env, rp.files) == []
  {
    forall f | f in rp.files ensures env.canon(f) !in files { assert env.canon(f) in Keys(rp.files, env); }
    NothingPresent(files, env, rp.files);
  }

  lemma StepSparesUnreadable(x: Step, files: Files, e: ConfigEntry, env: Env)
    requires ViewOf(files, e, env).None? && env.canon(e.path) !in Writes(x, env)
    ensures AgreeOn(files, Apply(x, files, env, false).files, {env.canon(e.path)})
  {
    var key := env.canon(e.path);
    StepFrame(x, files, env, false);
    if key in ConfigKeys(x, env) {
      match x
      case Trust(_, e2) => MergeNeedsTree(files, e2, env);
      case Unplug(rp) =>
        assert Apart(rp, env);
        hide Applied, Apart, Keys, Removed;
        AppliedConfig(files, rp, env);
    } else {
      hide Apply, Writes, ConfigKeys, ViewOf;
    }
  }

  lemma MergeNeedsTree(files: Files, e: ConfigEntry, env: Env)
    ensures ViewOf(files, e, env).None? ==> MergedFiles(files, e, env).0 == files
  {
    hide NeedsBackup, BackupPath, Passes, StandingOf, Wanted;
  }

  /** Main result on configs that cannot be read or parsed: no tick writes one, whatever fails. */
  lemma {:induction false} TickSparesUnreadable(steps: seq<Step>, files: Files, e: ConfigEntry, env: Env)
    requires ViewOf(files, e, env).None?
    requires forall k :: 0 <= k < |steps| ==> env.canon(e.path) !in Writes(steps[k], env)
    ensures AgreeOn(files, Tick(steps, files, env), {env.canon(e.path)})
    decreases |steps|
  {
    hide Apply, ViewOf, Writes;
    if steps != [] {
      var next := Apply(steps[0], files, env, false).files;
      StepSparesUnreadable(steps[0], files, e, env);
      ViewOfSameFile(files, next, e, env);
      TickSparesUnreadable(steps[1..], next, e, env);
    }
  }

  lemma TrustTakes(files: Files, id: string, e: ConfigEntry, env: Env)
    requires Calm(env) && ConfigApart(Trust(id, e), env) && ViewOf(files, e, env).Some?
    requires !Comparable(e.at.allow, EnabledPath(e.at.entries, e.at.id))
    ensures var v := ViewOf(TrustStep(files, id, e, env, false).files, e, env);
            v.Some? && v.value.allowed && v.value.enabled
  {
    var live := Read(files, env, env.canon(e.path));
    ClassifyIsView(files, e, env);
    ClassifyIsView(TrustStep(files, id, e, env, false).files, e, env);
    FaithfulMergeable(live, env.codec, e.at);
    MergedFilesAre(files, e, env);
    NextIsTrusted(live, env.codec, e.at);
    hide Mergeable, Next, Comparable, Faithful, MergedFiles, ClassifyConfig, StandingOf;
  }

  /** Main result on trust: after a failure-free tick each active plugin is allowed and enabled, if
      its config could be read and its paths are apart, whatever was merged or dropped beside it. */
  lemma TickKeepsTrust(steps: seq<Step>, k: nat, files: Files, env: Env)
    requires Calm(env) && Peaceful(steps, env) && k < |steps| && steps[k].Trust?
    requires ViewOf(files, steps[k].entry, env).Some?
    requires !Comparable(steps[k].entry.at.allow, EnabledPath(steps[k].entry.at.entries, steps[k].entry.at.id))
    ensures var v := ViewOf(Tick(steps, files, env), steps[k].entry, env); v.Some? && v.value.allowed && v.value.enabled
  {
    CalmParts(env);
    PeacefulParts(steps, env);
    var e := steps[k].entry;
    hide *;
    Refuse(steps[k], files, env);
    var before := AroundStep(steps, k, files, env);
    TrustLooks(steps[k].id, e, files, before, env);
    TrustLooks(steps[k].id, e, Apply(steps[k], before, env, false).files, Tick(steps, files, env), env);
    TrustTakes(before, steps[k].id, e, env);
    ApplyTrust(steps[k].id, e, before, env);
  }

  lemma TrustLooks(id: string, e: ConfigEntry, a: Files, b: Files, env: Env)
    ensures SameView(Trust(id, e), a, b, env) ==> ViewOf(a, e, env) == ViewOf(b, e, env)
  {
    hide ViewOf;
  }

  lemma ApplyTrust(id: string, e: ConfigEntry, files: Files, env: Env)
    ensures Apply(Trust(id, e), files, env, false) == TrustStep(files, id, e, env, false)
  {
  }
}
