/**
 The dry run: when the rows of a preview are the rows of the next tick.
 */
module Preview {
  import opened Text
  import opened Json
  import opened AllowList
  import opened Siblings
  import opened BlockScan
  import opened Heartbeat
  import opened Paths
  import opened Outcomes
  import opened ConfigFile
  import opened World
  import opened Retired
  import opened Gated
  import opened GatedRun
  import opened Steps
  import opened Frames

  // ---- the rows of a preview depend on the view alone -----------------------------------------

  lemma NothingStands(at: Place)
    ensures StandingOf(map[], at) == Standing(false, false, false)
  {
    GetOfNothing(at.allow);
    GetOfNothing(at.entries + [at.id]);
    GetOfNothing(at.entries + [at.id, ENABLED]);
  }

  /** Whether a config trusts a plugin shows in its view. */
  lemma ClassifyIsView(files: Files, e: ConfigEntry, env: Env)
    ensures ClassifyConfig(Read(files, env, env.canon(e.path)), env.codec, e.at) ==
            (match ViewOf(files, e, env)
             case None => Drifted
             case Some(s) => if s.allowed && s.enabled then Identical else Drifted)
  {
    NothingStands(e.at);
    hide Allows, Enables, HasEntry;
  }

  lemma InConfigIsView(files: Files, e: ConfigEntry, env: Env)
    ensures InConfig(files, e, env) ==
            (match ViewOf(files, e, env)
             case None => Unknown
             case Some(s) => if s.allowed || s.entered then IsListed else Clear)
  {
    NothingStands(e.at);
    hide Allows, Enables, HasEntry;
  }

  lemma {:induction false} PresentLocal(a: Files, b: Files, env: Env, listed: seq<AbsPath>)
    requires AgreeOn(a, b, Keys(listed, env))
    ensures Present(a, env, listed) == Present(b, env, listed)
  {
    if listed != [] {
      assert env.canon(listed[0]) in Keys(listed, env);
      forall k | k in Keys(listed[1..], env) ensures k in Keys(listed, env) {
        var f :| f in listed[1..] && env.canon(f) == k;
        assert f in listed;
      }
      PresentLocal(a, b, env, listed[1..]);
    }
  }

  lemma {:induction false} DryDeletedLocal(a: Files, b: Files, present: seq<AbsPath>, id: string, env: Env)
    ensures Deleted(a, present, id, env, true).rows == Deleted(b, present, id, env, true).rows
    decreases |present|
  {
    if present != [] { DryDeletedLocal(a, b, present[1..], id, env); }
  }

  lemma {:induction false} DryNeutralizedLocal(a: Files, b: Files, present: seq<AbsPath>, rp: RetiredPlugin, env: Env)
    requires AgreeOn(a, b, Keys(present, env))
    ensures Neutralized(a, present, rp, env, true).rows == Neutralized(b, present, rp, env, true).rows
    decreases |present|
  {
    if present != [] {
      assert env.canon(present[0]) in Keys(present, env);
      forall k | k in Keys(present[1..], env) ensures k in Keys(present, env) {
        var f :| f in present[1..] && env.canon(f) == k;
        assert f in present;
      }
      DryNeutralizedLocal(a, b, present[1..], rp, env);
    }
  }

  lemma AgreeOnLess(a: Files, b: Files, less: set<AbsPath>, keys: set<AbsPath>)
    requires AgreeOn(a, b, keys) && less <= keys
    ensures AgreeOn(a, b, less)
  {
  }

  lemma DryAppliedLocal(a: Files, b: Files, rp: RetiredPlugin, env: Env)
    requires SameView(Unplug(rp), a, b, env)
    ensures Applied(a, rp, env, true).rows == Applied(b, rp, env, true).rows
  {
    var present := Present(a, env, rp.files);
    PresentLocal(a, b, env, rp.files);
    PresentKeys(a, rp, env);
    AgreeOnLess(a, b, Keys(present, env), Keys(rp.files, env));
    DryDeletedLocal(a, b, present, rp.id, env);
    DryNeutralizedLocal(a, b, present, rp, env);
    if rp.entry.Some? {
      InConfigIsView(a, rp.entry.value, env);
      InConfigIsView(b, rp.entry.value, env);
    }
    hide Present, Keys, Deleted, Neutralized, InConfig, ViewOf;
  }

  lemma DryTrustLocal(a: Files, b: Files, id: string, e: ConfigEntry, env: Env)
    requires SameView(Trust(id, e), a, b, env)
    ensures TrustStep(a, id, e, env, true).rows == TrustStep(b, id, e, env, true).rows
  {
    ClassifyIsView(a, e, env);
    ClassifyIsView(b, e, env);
    hide ViewOf, ClassifyConfig;
  }

  lemma DryGateLocal(a: Files, b: Files, gt: GatedTool, entrypoint: string, want: Option<string>, taken: set<AbsPath>,
                     env: Env)
    requires SameView(Gate(gt, entrypoint, want, taken), a, b, env)
    ensures GateReconciled(a, gt, entrypoint, want, taken, env, true).rows ==
            GateReconciled(b, gt, entrypoint, want, taken, env, true).rows
  {
    hide MarkerPath, ResolveTarget, Attests, LinkOnWay, StateOf, Declared;
  }

  lemma PreviewLocal(step: Step, a: Files, b: Files, env: Env)
    requires SameView(step, a, b, env)
    ensures Apply(step, a, env, true).rows == Apply(step, b, env, true).rows
  {
    hide Applied, GateReconciled, TrustStep, ClassifyMarker, Written, Blocks, ViewOf, Keys;
    match step
    case Gate(gt, entrypoint, want, taken) => DryGateLocal(a, b, gt, entrypoint, want, taken, env);
    case Unplug(rp) => DryAppliedLocal(a, b, rp, env);
    case Trust(id, e) => DryTrustLocal(a, b, id, e, env);
    case _ =>
  }

  // ---- one step: the preview against the real thing ------------------------------------------------

  /** The exact condition on one step: a config that has to be merged parses, and the plugin's two
      paths are apart. */
  ghost predicate Fits(step: Step, files: Files, env: Env) {
    step.Trust? ==>
      ClassifyConfig(Read(files, env, env.canon(step.entry.path)), env.codec, step.entry.at) == Identical ||
      (Original(Read(files, env, env.canon(step.entry.path)), env.codec).Some? &&
       !Comparable(step.entry.at.allow, EnabledPath(step.entry.at.entries, step.entry.at.id)))
  }

  /** No file of a retired plugin is listed twice. */
  ghost predicate DistinctFiles(step: Step, env: Env) {
    step.Unplug? ==>
      forall i, j :: 0 <= i < j < |step.rp.files| ==> env.canon(step.rp.files[i]) != env.canon(step.rp.files[j])
  }

  ghost predicate DistinctPaths(fs: seq<AbsPath>, env: Env) {
    forall i, j :: 0 <= i < j < |fs| ==> env.canon(fs[i]) != env.canon(fs[j])
  }

  lemma {:induction false} PresentDistinct(files: Files, env: Env, listed: seq<AbsPath>)
    requires DistinctPaths(listed, env)
    ensures DistinctPaths(Present(files, env, listed), env)
  {
    if listed != [] {
      assert DistinctPaths(listed[1..], env);
      PresentDistinct(files, env, listed[1..]);
      PresentIsListed(files, env, listed[1..]);
      var rest := Present(files, env, listed[1..]);
      forall k | 0 <= k < |rest| ensures env.canon(rest[k]) != env.canon(listed[0]) {
        assert rest[k] in rest;
        var i :| 0 <= i < |listed[1..]| && listed[1..][i] == rest[k];
        assert listed[i + 1] == rest[k];
      }
    }
  }

  lemma {:induction false} DeletesAlike(a: Files, b: Files, present: seq<AbsPath>, id: string, env: Env)
    requires NoFailures(env)
    ensures Deleted(a, present, id, env, false).rows == Deleted(b, present, id, env, true).rows
    decreases |present|
  {
    if present != [] { DeletesAlike(a - {env.canon(present[0])}, b, present[1..], id, env); }
  }

  lemma {:induction false} NeutralizesAlike(a: Files, b: Files, present: seq<AbsPath>, rp: RetiredPlugin, env: Env)
    requires NoFailures(env) && DistinctPaths(present, env) && AgreeOn(a, b, Keys(present, env))
    ensures Neutralized(a, present, rp, env, false).rows == Neutralized(b, present, rp, env, true).rows
    decreases |present|
  {
    if present != [] {
      var key := env.canon(present[0]);
      var stub := StubFor(rp, present[0]);
      var rest := present[1..];
      assert key in Keys(present, env);
      assert DistinctPaths(rest, env);
      forall k | k in Keys(rest, env) ensures k in Keys(present, env) && k != key {
        var i :| 0 <= i < |rest| && env.canon(rest[i]) == k;
        assert present[i + 1] == rest[i];
      }
      NeutralizesAlike(a, b, rest, rp, env);
      if stub.Some? { NeutralizesAlike(a[key := stub.value], b, rest, rp, env); }
    }
  }

  lemma AppliedAlike(files: Files, rp: RetiredPlugin, env: Env)
    requires NoFailures(env) && DistinctFiles(Unplug(rp), env)
    ensures Applied(files, rp, env, false).rows == Applied(files, rp, env, true).rows
  {
    var present := Present(files, env, rp.files);
    assert DistinctPaths(rp.files, env);
    PresentDistinct(files, env, rp.files);
    DeletesAlike(files, files, present, rp.id, env);
    NeutralizesAlike(files, files, present, rp, env);
    if rp.entry.Some? {
      var e := rp.entry.value;
      if InConfig(files, e, env) == IsListed {
        ListedCanBeDropped(files, e, env);
        DeletesAlike(files[env.canon(e.path) := Dropped(files, e, env).value], files, present, rp.id, env);
      }
    }
    hide InConfig, Present, Keys, Deleted, Neutralized, Dropped;
  }

  lemma TrustAlike(files: Files, id: string, e: ConfigEntry, env: Env)
    requires NoFailures(env) && Faithful(env.codec)
    ensures |TrustStep(files, id, e, env, false).rows| == |TrustStep(files, id, e, env, true).rows|
    ensures TrustStep(files, id, e, env, false).rows == TrustStep(files, id, e, env, true).rows <==>
              Fits(Trust(id, e), files, env)
  {
    FaithfulMergeable(Read(files, env, env.canon(e.path)), env.codec, e.at);
    ClassifyIsView(files, e, env);
    hide ViewOf, Mergeable, NeedsBackup, Next, ClassifyConfig, Original, Comparable, Faithful, BackupPath;
  }

  lemma StepAlike(step: Step, files: Files, env: Env)
    requires NoFailures(env) && Faithful(env.codec) && DistinctFiles(step, env)
    ensures |Apply(step, files, env, false).rows| == |Apply(step, files, env, true).rows|
    ensures Apply(step, files, env, false).rows == Apply(step, files, env, true).rows <==> Fits(step, files, env)
  {
    hide Applied, GateReconciled, TrustStep, ClassifyMarker, Written, Blocks, Keys, Faithful, DistinctFiles;
    match step
    case Gate(gt, entrypoint, want, taken) => GateAlike(gt, entrypoint, want, taken, files, env);
    case Unplug(rp) => AppliedAlike(files, rp, env);
    case Trust(id, e) => TrustAlike(files, id, e, env);
    case _ =>
  }

  lemma GateAlike(gt: GatedTool, entrypoint: string, want: Option<string>, taken: set<AbsPath>, files: Files, env: Env)
    requires NoFailures(env)
    ensures GateReconciled(files, gt, entrypoint, want, taken, env, false).rows ==
            GateReconciled(files, gt, entrypoint, want, taken, env, true).rows
  {
    hide MarkerPath, ResolveTarget, ReadMarker, Attests, LinkOnWay, StateOf;
  }

  lemma FitsLocal(step: Step, a: Files, b: Files, env: Env)
    requires SameView(step, a, b, env) && NoFailures(env)
    ensures Fits(step, a, env) <==> Fits(step, b, env)
  {
    if step.Trust? {
      ClassifyIsView(a, step.entry, env);
      ClassifyIsView(b, step.entry, env);
    }
    hide StandingOf, ClassifyConfig, Comparable;
  }

  // ---- the whole list --------------------------------------------------------------------------------

  /** No step disturbs a later one, except that two may want the same file. */
  ghost predicate InOrder(steps: seq<Step>, env: Env) {
    forall i, j :: 0 <= i < j < |steps| ==> Undisturbed(steps[i], steps[j], env) || Twin(steps[i], steps[j], env)
  }

  ghost predicate Plain(step: Step, env: Env) {
    ConfigApart(step, env) && DistinctFiles(step, env)
  }

  ghost predicate AllPlain(steps: seq<Step>, env: Env) {
    forall k :: 0 <= k < |steps| ==> Plain(steps[k], env)
  }

  ghost predicate AllFit(steps: seq<Step>, files: Files, env: Env) {
    forall k :: 0 <= k < |steps| ==> Fits(steps[k], files, env)
  }

  /** An earlier step wants the same file. */
  ghost predicate Twinned(seen: seq<Step>, y: Step, env: Env) {
    exists x :: x in seen && Twin(x, y, env)
  }

  /** A file of ours is as wanted already. */
  ghost predicate Held(y: Step, files: Files, env: Env) {
    y.Own? ==> Holds(files, env.canon(y.path), y.body, env)
  }

  /** Every file that two steps want is as wanted already. */
  ghost predicate TwinsHold(seen: seq<Step>, steps: seq<Step>, files: Files, env: Env) {
    forall j :: 0 <= j < |steps| && Twinned(seen + steps[..j], steps[j], env) ==> Held(steps[j], files, env)
  }

  lemma {:induction false} PlanWritesNothing(steps: seq<Step>, files: Files, env: Env)
    ensures RunSteps(steps, files, env, true).files == files
    decreases |steps|
  {
    hide Apply;
    if steps != [] {
      PreviewWritesNothing(steps[0], files, env);
      PlanWritesNothing(steps[1..], files, env);
    }
  }

  lemma Refuse(step: Step, files: Files, env: Env)
    requires NoFailures(env)
    ensures Refusable(step, files, env)
  {
  }

  lemma SplitRows<T>(a: seq<T>, x: seq<T>, b: seq<T>, y: seq<T>)
    requires |a| == |b|
    ensures a + x == b + y <==> a == b && x == y
  {
    if a + x == b + y {
      assert a == (a + x)[..|a|] && b == (b + y)[..|b|];
      assert x == (a + x)[|a|..] && y == (b + y)[|b|..];
    }
  }

  lemma PlainParts(step: Step, env: Env)
    ensures Plain(step, env) <==> ConfigApart(step, env) && DistinctFiles(step, env)
  {
  }

  /** How the files of a tick that is under way compare to those it started from, for a step to
      come: the same as far as the step can see, unless a twin has written its file meanwhile. */
  ghost predicate Tracks(seen: seq<Step>, y: Step, start: Files, files: Files, env: Env) {
    && (Twinned(seen, y, env) ==> Held(y, files, env))
    && (!Twinned(seen, y, env) || Held(y, start, env) ==> SameView(y, start, files, env))
  }

  ghost predicate AllTrack(seen: seq<Step>, steps: seq<Step>, start: Files, files: Files, env: Env) {
    forall k :: 0 <= k < |steps| ==> Tracks(seen, steps[k], start, files, env)
  }

  lemma StepsAlikeFirst(step: Step, start: Files, files: Files, env: Env)
    requires NoFailures(env) && Faithful(env.codec) && Plain(step, env) && SameView(step, start, files, env)
    ensures |Apply(step, files, env, false).rows| == |Apply(step, start, env, true).rows|
    ensures Apply(step, files, env, false).rows == Apply(step, start, env, true).rows <==> Fits(step, start, env)
  {
    hide *;
    PlainParts(step, env);
    StepAlike(step, files, env);
    PreviewLocal(step, start, files, env);
    FitsLocal(step, start, files, env);
  }

  /** A twin has written the file: the preview announces a write, and the tick has nothing to do. */
  lemma TwinRowsDiffer(y: Step, start: Files, files: Files, env: Env)
    requires NoFailures(env) && y.Own? && Held(y, files, env) && !Held(y, start, env)
    ensures |Apply(y, files, env, false).rows| == |Apply(y, start, env, true).rows|
    ensures Apply(y, files, env, false).rows != Apply(y, start, env, true).rows
  {
  }

  lemma FirstAlike(seen: seq<Step>, x: Step, start: Files, files: Files, env: Env)
    requires NoFailures(env) && Faithful(env.codec) && Plain(x, env) && Tracks(seen, x, start, files, env)
    ensures |Apply(x, files, env, false).rows| == |Apply(x, start, env, true).rows|
    ensures Apply(x, files, env, false).rows == Apply(x, start, env, true).rows <==>
              Fits(x, start, env) && (Twinned(seen, x, env) ==> Held(x, start, env))
  {
    hide Apply, SameView, Plain, Faithful, NoFailures, Fits, Holds;
    if Twinned(seen, x, env) && !Held(x, start, env) {
      TwinRowsDiffer(x, start, files, env);
    } else {
      StepsAlikeFirst(x, start, files, env);
    }
  }

  lemma TwinWrites(x: Step, y: Step, files: Files, env: Env)
    requires NoFailures(env) && Twin(x, y, env)
    ensures Held(y, Apply(x, files, env, false).files, env)
    ensures Held(y, files, env) ==> Apply(x, files, env, false).files == files
  {
  }

  lemma HeldLocal(y: Step, a: Files, b: Files, env: Env)
    requires SameView(y, a, b, env)
    ensures Held(y, a, env) <==> Held(y, b, env)
  {
  }

  lemma StillTracks(seen: seq<Step>, x: Step, y: Step, start: Files, files: Files, env: Env)
    requires NoFailures(env) && Faithful(env.codec) && Plain(x, env)
    requires Undisturbed(x, y, env) || Twin(x, y, env)
    requires Tracks(seen, y, start, files, env)
    ensures Tracks(seen + [x], y, start, Apply(x, files, env, false).files, env)
  {
    var next := Apply(x, files, env, false).files;
    hide Apply, SameView, Undisturbed, Twin, Plain, Faithful, NoFailures, Held;
    if Twin(x, y, env) {
      TwinWrites(x, y, files, env);
      if Held(y, start, env) { HeldLocal(y, start, files, env); }
      assert Twinned(seen + [x], y, env) by { assert x in seen + [x]; }
    } else {
      Refuse(y, files, env);
      PlainParts(x, env);
      UndisturbedView(x, y, files, env);
      HeldLocal(y, files, next, env);
      if SameView(y, start, files, env) { SameViewTrans(y, start, files, next, env); }
      assert Twinned(seen + [x], y, env) <==> Twinned(seen, y, env);
    }
  }

  lemma AllStillTrack(seen: seq<Step>, steps: seq<Step>, start: Files, files: Files, env: Env)
    requires NoFailures(env) && Faithful(env.codec) && steps != []
    requires InOrder(steps, env) && AllPlain(steps, env) && AllTrack(seen, steps, start, files, env)
    ensures AllTrack(seen + [steps[0]], steps[1..], start, Apply(steps[0], files, env, false).files, env)
    ensures InOrder(steps[1..], env) && AllPlain(steps[1..], env)
  {
    hide Tracks, Undisturbed, Twin, Apply, Plain;
    forall k | 0 <= k < |steps[1..]|
      ensures Tracks(seen + [steps[0]], steps[1..][k], start, Apply(steps[0], files, env, false).files, env)
    {
      StillTracks(seen, steps[0], steps[k + 1], start, files, env);
    }
  }

  lemma TwinsHoldCons(seen: seq<Step>, steps: seq<Step>, files: Files, env: Env)
    requires steps != []
    ensures TwinsHold(seen, steps, files, env) <==>
              (Twinned(seen, steps[0], env) ==> Held(steps[0], files, env)) &&
                TwinsHold(seen + [steps[0]], steps[1..], files, env)
  {
    hide Twinned, Held;
    assert seen + steps[..0] == seen;
    forall j | 0 <= j < |steps[1..]| ensures (seen + [steps[0]]) + steps[1..][..j] == seen + steps[..j + 1] {
    }
    if TwinsHold(seen + [steps[0]], steps[1..], files, env) &&
      (Twinned(seen, steps[0], env) ==> Held(steps[0], files, env)) {
      forall j | 0 <= j < |steps| && Twinned(seen + steps[..j], steps[j], env) ensures Held(steps[j], files, env) {
        if j > 0 { assert steps[1..][j - 1] == steps[j]; }
      }
    }
  }

  lemma {:induction false} RowsAlike(seen: seq<Step>, steps: seq<Step>, start: Files, files: Files, env: Env)
    requires NoFailures(env) && Faithful(env.codec)
    requires InOrder(steps, env) && AllPlain(steps, env) && AllTrack(seen, steps, start, files, env)
    ensures |RunSteps(steps, files, env, false).rows| == |RunSteps(steps, start, env, true).rows|
    ensures RunSteps(steps, files, env, false).rows == RunSteps(steps, start, env, true).rows <==>
              AllFit(steps, start, env) && TwinsHold(seen, steps, start, env)
    decreases |steps|
  {
    hide Tracks, Apply, Plain, Fits, InOrder, Faithful, NoFailures, TwinsHold, Twinned, Held;
    if steps == [] {
      NoTwins(seen, start, env);
    } else {
      var next := Apply(steps[0], files, env, false).files;
      FirstAlike(seen, steps[0], start, files, env);
      AllStillTrack(seen, steps, start, files, env);
      RowsAlike(seen + [steps[0]], steps[1..], start, next, env);
      PreviewWritesNothing(steps[0], start, env);
      SplitRows(Apply(steps[0], files, env, false).rows, RunSteps(steps[1..], next, env, false).rows,
                Apply(steps[0], start, env, true).rows, RunSteps(steps[1..], start, env, true).rows);
      TwinsHoldCons(seen, steps, start, env);
      assert steps == [steps[0]] + steps[1..];
      assert AllFit(steps, start, env) <==> Fits(steps[0], start, env) && AllFit(steps[1..], start, env);
    }
  }

  lemma NoTwins(seen: seq<Step>, files: Files, env: Env)
    ensures TwinsHold(seen, [], files, env)
  {
  }

  lemma TracksItself(y: Step, files: Files, env: Env)
    ensures Tracks([], y, files, files, env)
  {
  }

  /** Main result on the dry run: it changes nothing, and it reports exactly what the next tick
      reports if and only if every config that has to be merged can be, and every file that two
      surfaces want is as wanted already. */
  lemma PlanAgrees(steps: seq<Step>, files: Files, env: Env)
    requires NoFailures(env) && Faithful(env.codec) && InOrder(steps, env) && AllPlain(steps, env)
    ensures RunSteps(steps, files, env, true).files == files
    ensures RunSteps(steps, files, env, true).rows == RunSteps(steps, files, env, false).rows <==>
              AllFit(steps, files, env) && TwinsHold([], steps, files, env)
  {
    PlanWritesNothing(steps, files, env);
    hide Tracks, InOrder, AllPlain, Faithful, NoFailures, RunSteps, AllFit, TwinsHold;
    forall k | 0 <= k < |steps| ensures Tracks([], steps[k], files, files, env) { TracksItself(steps[k], files, env); }
    RowsAlike([], steps, files, files, env);
  }

  // ---- concrete disagreements --------------------------------------------------------------------------

  /** A config that does not parse: the preview announces a rewrite, and the tick reports an error. */
  lemma UnparseableDisagrees(id: string, e: ConfigEntry, text: string, env: Env)
    requires NoFailures(env) && env.codec.parse(text).None?
    ensures var files: Files := map[env.canon(e.path) := text];
            Apply(Trust(id, e), files, env, true).rows != Apply(Trust(id, e), files, env, false).rows
  {
    hide Verified, BackupPath;
  }

  /** Two tools with one skill copy that is not there yet: the preview announces two writes, and
      the tick makes one. */
  lemma SharedCopyDisagrees(a: string, b: string, path: AbsPath, body: string, env: Env)
    requires NoFailures(env)
    ensures var steps := [Own(a, SkillFile, path, body), Own(b, SkillFile, path, body)];
            RunSteps(steps, map[], env, true).rows != RunSteps(steps, map[], env, false).rows
  {
    var x, y := Own(a, SkillFile, path, body), Own(b, SkillFile, path, body);
    var steps := [x, y];
    assert steps[1..] == [y];
    RunOne(y, Apply(x, map[], env, true).files, env, true);
    RunOne(y, Apply(x, map[], env, false).files, env, false);
    assert RunSteps(steps, map[], env, true).rows[1].action == Create;
    assert RunSteps(steps, map[], env, false).rows[1].action == Noop;
  }
}
