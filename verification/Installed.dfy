/**
 What the surfaces look like when there is nothing left to do: the stores a tick leaves alone
 are exactly those in which every surface is as the manifest wants it.
 */
module Installed {
  import opened Text
  import opened Json
  import opened AllowList
  import opened BlockScan
  import opened Splice
  import opened Heartbeat
  import opened HeartbeatRuns
  import opened Paths
  import opened ConfigFile
  import opened World
  import opened Retired
  import opened Gated
  import opened GatedRun
  import opened Steps
  import opened Frames
  import opened Preview
  import opened Settle
  import opened Ticks

  /** The gated row may write: root, format and owner are in order, the marker attests it, no symlink
      is on the way and no directory in its place. */
  ghost predicate Open(files: Files, gt: GatedTool, entrypoint: string, want: Option<string>, taken: set<AbsPath>,
                       env: Env) {
    && Active(files, gt, entrypoint, env) && want.Some?
    && (var t := ResolveTarget(gt, entrypoint, env.home).value;
        TargetStrictlyInside(gt, entrypoint, env.home);
        && t.root in env.dirs && env.canon(t.path) !in taken
        && !LinkOnWay(env, t.root, t.path) && t.path !in env.dirs)
  }

  /** What a surface is to look like. A config that cannot be read is left as it is; so is one
      whose two paths get in each other's way. */
  ghost predicate AsWanted(step: Step, files: Files, env: Env) {
    match step
    case Say(_) => true
    case Own(_, _, path, body) => Holds(files, env.canon(path), body, env)
    case Beat(_, path, d) => Settled(Read(files, env, env.canon(path)), d)
    case Trust(_, e) =>
      (match ViewOf(files, e, env)
       case None => true
       case Some(s) => (s.allowed && s.enabled) || Comparable(e.at.allow, EnabledPath(e.at.entries, e.at.id)))
    case Gate(gt, entrypoint, want, taken) =>
      Open(files, gt, entrypoint, want, taken, env) ==>
        Holds(files, env.canon(ResolveTarget(gt, entrypoint, env.home).value.path), want.value, env)
    case Unmark(_, path) => Blockless(Read(files, env, env.canon(path)))
    case Unplug(rp) => Unplugged(files, rp, env)
    case Unown(_, path) => env.canon(path) !in files
  }

  /** Out of the config and off the disk, or, where the config cannot be read, replaced by stubs. */
  ghost predicate Unplugged(files: Files, rp: RetiredPlugin, env: Env) {
    if rp.entry.Some? && InConfig(files, rp.entry.value, env) == Unknown
    then
      rp.stubs == map[] ||
      forall f :: f in rp.files && env.canon(f) in files && StubFor(rp, f).Some? ==> HoldsStub(files, rp, f, env)
    else
      && (rp.entry.Some? ==> InConfig(files, rp.entry.value, env) == Clear)
      && forall f :: f in rp.files ==> env.canon(f) !in files
  }

  // ---- one surface at a time --------------------------------------------------------------------

  lemma OwnStillIs(step: Step, files: Files, env: Env)
    requires NoFailures(env) && step.Own?
    ensures Still(step, files, env) <==> Holds(files, env.canon(step.path), step.body, env)
  {
  }

  lemma UnownStillIs(step: Step, files: Files, env: Env)
    requires NoFailures(env) && step.Unown?
    ensures Still(step, files, env) <==> env.canon(step.path) !in files
  {
  }

  /** A tick leaves a heartbeat file alone exactly when its one block carries the wanted hashes. */
  lemma BeatStillIs(step: Step, files: Files, env: Env)
    requires NoFailures(env) && step.Beat? && Valid(step.d)
    ensures Still(step, files, env) <==> Settled(ContentOf(step, files, env), step.d)
  {
    hide Still, Valid, BlocksFrom, ContentOf, Heartbeat.Ticks, Reconciled;
    var content := ContentOf(step, files, env);
    BeatContent(step, files, env);
    if Settled(content, step.d) {
      SettledStays(content, step.d, 0);
    } else if Reconciled(content, step.d) == content {
      var n := if content.Some? then |content.value| + 1 else 1;
      Constant(content, step.d, n);
      TicksConverge(content, step.d, n);
    }
  }

  lemma {:induction false} Constant(content: Option<string>, d: Directive, n: nat)
    requires Reconciled(content, d) == content
    ensures Heartbeat.Ticks(content, d, n) == content
  {
    hide Reconciled;
    if n > 0 { Constant(content, d, n - 1); }
  }

  lemma UnmarkStillIs(step: Step, files: Files, env: Env)
    requires NoFailures(env) && step.Unmark?
    ensures Still(step, files, env) <==> Blockless(ContentOf(step, files, env))
  {
    var content := ContentOf(step, files, env);
    hide Still, Blocks, Kept, ContentOf;
    BeatContent(step, files, env);
    if content.Some? { StripOnceMore(content.value); }
  }

  lemma GateStillIs(step: Step, files: Files, env: Env)
    requires NoFailures(env) && step.Gate?
    ensures Still(step, files, env) <==> AsWanted(step, files, env)
  {
    hide MarkerPath, ResolveTarget, Attests, LinkOnWay, Declared;
  }

  lemma UnplugStillIs(step: Step, files: Files, env: Env)
    requires NoFailures(env) && Faithful(env.codec) && step.Unplug? && Plain(step, env)
    ensures Still(step, files, env) <==> Unplugged(files, step.rp, env)
  {
    var rp := step.rp;
    UnplugStillWhen(files, rp, env);
    PresentIsListed(files, env, rp.files);
    NonePresentIs(files, rp, env);
    hide Still, Plain, InConfig, Present, StubFor, HoldsStub, Faithful;
  }

  lemma NonePresentIs(files: Files, rp: RetiredPlugin, env: Env)
    ensures Present(files, env, rp.files) == [] <==> forall f :: f in rp.files ==> env.canon(f) !in files
  {
    PresentIsListed(files, env, rp.files);
    if Present(files, env, rp.files) != [] {
      assert Present(files, env, rp.files)[0] in Present(files, env, rp.files);
    }
  }

  lemma StillIsWanted(step: Step, files: Files, env: Env)
    requires Calm(env) && Sturdy(step, env)
    ensures Still(step, files, env) <==> AsWanted(step, files, env)
  {
    SturdyBeat(step, env);
    assert Plain(step, env) && ConfigApart(step, env);
    hide Still, Plain, Sturdy, ConfigApart, ViewOf, Unplugged, Holds, Blockless, Settled, Open, Valid, Faithful;
    match step
    case Say(_) => SayStill(step, files, env);
    case Own(_, _, _, _) => OwnStillIs(step, files, env);
    case Beat(_, _, _) => BeatStillIs(step, files, env);
    case Trust(id, e) => TrustStillWhen(files, id, e, env);
    case Gate(_, _, _, _) => GateStillIs(step, files, env);
    case Unmark(_, _) => UnmarkStillIs(step, files, env);
    case Unplug(_) => UnplugStillIs(step, files, env);
    case Unown(_, _) => UnownStillIs(step, files, env);
  }

  /** Main result on fixed points: a failure-free tick leaves the store alone if and only if every
      surface is as wanted. */
  lemma FixedMeansInstalled(steps: seq<Step>, files: Files, env: Env)
    requires Calm(env) && Peaceful(steps, env)
    ensures Tick(steps, files, env) == files <==> forall k :: 0 <= k < |steps| ==> AsWanted(steps[k], files, env)
  {
    PeacefulParts(steps, env);
    hide Calm, Peaceful, Sturdy, Plain, ConfigApart, Undisturbed, Twin, Tick, AsWanted, Still;
    forall k | 0 <= k < |steps| ensures Still(steps[k], files, env) <==> AsWanted(steps[k], files, env) {
      StillIsWanted(steps[k], files, env);
    }
    if Tick(steps, files, env) == files {
      forall k | 0 <= k < |steps| ensures AsWanted(steps[k], files, env) { FixedMeansStill(steps, k, files, env); }
    } else if forall k :: 0 <= k < |steps| ==> AsWanted(steps[k], files, env) {
      AllStill(steps, files, env);
    }
  }

  /** So that is where ticks lead, from any files. */
  lemma TicksInstall(steps: seq<Step>, files: Files, env: Env, n: nat, k: nat)
    requires Calm(env) && Peaceful(steps, env) && n > 0 && Outlasts(n, files) && k < |steps|
    ensures AsWanted(steps[k], TickRun(steps, files, env, n), env)
  {
    hide *;
    TicksSettle(steps, files, env, n);
    FixedMeansInstalled(steps, TickRun(steps, files, env, n), env);
  }
}
