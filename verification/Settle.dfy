/**
 Ticks settle: from any files they reach files that further ticks leave alone, and one tick is
 enough exactly when cutting out second and retired blocks leaves no block behind.
 */
module Settle {
  import opened Text
  import opened Json
  import opened AllowList
  import opened BlockScan
  import opened Splice
  import opened Heartbeat
  import opened Paths
  import opened Outcomes
  import opened ConfigFile
  import opened World
  import opened Retired
  import opened Gated
  import opened GatedRun
  import opened Steps
  import opened Frames
  import opened Preview

  /** The step has nothing left to do. */
  ghost predicate Still(step: Step, files: Files, env: Env) {
    Apply(step, files, env, false).files == files
  }

  /** What a step asks of its own paths and hashes. */
  ghost predicate Sturdy(step: Step, env: Env) {
    && Plain(step, env)
    && (step.Beat? ==> Valid(step.d))
    && (step.Gate? && MarkerPath(step.gt, env.home).Some? ==>
           env.canon(MarkerPath(step.gt, env.home).value) !in Writes(step, env))
  }

  // ---- one step, twice ---------------------------------------------------------------------------

  lemma OwnOnce(files: Files, tool: string, kind: FileKind, path: AbsPath, body: string, env: Env)
    requires NoFailures(env)
    ensures Still(Own(tool, kind, path, body), OwnStep(files, tool, kind, path, body, env, false).files, env)
  {
  }

  lemma TrustStillWhen(files: Files, id: string, e: ConfigEntry, env: Env)
    requires NoFailures(env) && Faithful(env.codec) && ConfigApart(Trust(id, e), env)
    ensures Still(Trust(id, e), files, env) <==>
            (match ViewOf(files, e, env)
             case None => true
             case Some(s) => (s.allowed && s.enabled) || Comparable(e.at.allow, EnabledPath(e.at.entries, e.at.id)))
  {
    var key := env.canon(e.path);
    var live := Read(files, env, key);
    ClassifyIsView(files, e, env);
    FaithfulMergeable(live, env.codec, e.at);
    MergedFilesAre(files, e, env);
    if Mergeable(live, env.codec, e.at) {
      MergeTakes(live, env.codec, e.at);
      NextIsTrusted(live, env.codec, e.at);
    }
    hide Mergeable, NeedsBackup, Next, Comparable, Faithful, BackupPath, MergedFiles, ClassifyConfig;
  }

  lemma MergedFilesAre(files: Files, e: ConfigEntry, env: Env)
    requires NoFailures(env)
    ensures var live := Read(files, env, env.canon(e.path));
            var after := MergedFiles(files, e, env);
            && (!Mergeable(live, env.codec, e.at) ==> after == (files, false))
            && (Mergeable(live, env.codec, e.at) ==>
                  && Next(live, env.codec, e.at).Some? && after.1 && env.canon(e.path) in after.0
                  && after.0[env.canon(e.path)] == Next(live, env.codec, e.at).value)
  {
    hide NeedsBackup, Next, BackupPath, Passes;
  }

  lemma MergeTakes(live: Option<string>, c: Codec, at: Place)
    ensures Mergeable(live, c, at) ==> Original(live, c).Some?
  {
    hide Verified;
  }

  lemma NextIsTrusted(live: Option<string>, c: Codec, at: Place)
    ensures Mergeable(live, c, at) ==> ClassifyConfig(Next(live, c, at), c, at) == Identical
  {
    hide Next, Original, Trusted;
  }

  lemma TrustOnce(files: Files, id: string, e: ConfigEntry, env: Env)
    requires NoFailures(env) && Faithful(env.codec) && ConfigApart(Trust(id, e), env)
    ensures Still(Trust(id, e), TrustStep(files, id, e, env, false).files, env)
  {
    var key := env.canon(e.path);
    var live := Read(files, env, key);
    var after := MergedFiles(files, e, env).0;
    MergedFilesAre(files, e, env);
    NextIsTrusted(live, env.codec, e.at);
    assert Mergeable(live, env.codec, e.at) ==> Read(after, env, key) == Next(live, env.codec, e.at);
    hide Mergeable, Next, Faithful, BackupPath, MergedFiles, ClassifyConfig;
  }

  lemma GateOnce(files: Files, gt: GatedTool, entrypoint: string, want: Option<string>, taken: set<AbsPath>, env: Env)
    requires NoFailures(env) && Sturdy(Gate(gt, entrypoint, want, taken), env)
    ensures Still(Gate(gt, entrypoint, want, taken),
                GateReconciled(files, gt, entrypoint, want, taken, env, false).files, env)
  {
    hide MarkerPath, ResolveTarget, Attests, LinkOnWay, Declared;
  }

  /** Every file that is there and has a stub holds it. */
  ghost predicate Quieted(files: Files, present: seq<AbsPath>, rp: RetiredPlugin, env: Env) {
    forall f :: f in present && StubFor(rp, f).Some? ==> HoldsStub(files, rp, f, env)
  }

  lemma {:induction false} QuietedIsStill(files: Files, present: seq<AbsPath>, rp: RetiredPlugin, env: Env)
    requires NoFailures(env) && Quieted(files, present, rp, env)
    ensures Neutralized(files, present, rp, env, false) == Result(files, [])
    decreases |present|
  {
    if present != [] {
      assert present[0] in present;
      assert forall f :: f in present[1..] ==> f in present;
      QuietedIsStill(files, present[1..], rp, env);
    }
  }

  lemma {:induction false} NeutralizedQuiets(files: Files, present: seq<AbsPath>, rp: RetiredPlugin, env: Env)
    requires NoFailures(env) && Steady(rp, env) && forall f :: f in present ==> f in rp.files
    ensures Quieted(Neutralized(files, present, rp, env, false).files, present, rp, env)
    decreases |present|
  {
    if present != [] {
      var g := present[0];
      assert g in present;
      forall f | f in present[1..] ensures f in rp.files { assert f in present; }
      var key, stub := env.canon(g), StubFor(rp, g);
      var next := if stub.None? || Read(files, env, key) == stub then files else files[key := stub.value];
      NeutralizedQuiets(next, present[1..], rp, env);
      NeutralizedOnce(next, present[1..], rp, env, g);
      var r := Neutralized(next, present[1..], rp, env, false);
      assert Neutralized(files, present, rp, env, false).files == r.files;
      forall f | f in present && StubFor(rp, f).Some? ensures HoldsStub(r.files, rp, f, env) {
        if f != g { assert f in present[1..]; }
      }
    }
  }

  lemma SteadyFiles(rp: RetiredPlugin, env: Env)
    requires NoFailures(env) && DistinctFiles(Unplug(rp), env)
    ensures Steady(rp, env)
  {
    forall f, g | f in rp.files && g in rp.files && env.canon(f) == env.canon(g)
      ensures StubFor(rp, f) == StubFor(rp, g) {
      var i :| 0 <= i < |rp.files| && rp.files[i] == f;
      var j :| 0 <= j < |rp.files| && rp.files[j] == g;
      assert i == j;
    }
  }

  /** A plugin whose config cannot be read is still exactly when its files hold their stubs. */
  lemma UnknownStill(files: Files, rp: RetiredPlugin, env: Env)
    requires NoFailures(env) && DistinctFiles(Unplug(rp), env)
    requires rp.entry.Some? && InConfig(files, rp.entry.value, env) == Unknown
    ensures Applied(files, rp, env, false).files == files <==>
            rp.stubs == map[] || Quieted(files, Present(files, env, rp.files), rp, env)
  {
    var present := Present(files, env, rp.files);
    SteadyFiles(rp, env);
    PresentIsListed(files, env, rp.files);
    NeutralizedQuiets(files, present, rp, env);
    if Quieted(files, present, rp, env) { QuietedIsStill(files, present, rp, env); }
    hide Present, InConfig, Steady, Neutralized;
  }

  lemma DeletedStill(files: Files, present: seq<AbsPath>, id: string, env: Env)
    requires NoFailures(env) && forall f :: f in present ==> env.canon(f) in files
    ensures Deleted(files, present, id, env, false).files == files <==> present == []
  {
    DeletedFrame(files, present, id, env, false);
    if present != [] {
      assert present[0] in present && env.canon(present[0]) in Keys(present, env);
    }
  }

  lemma UnplugStillWhen(files: Files, rp: RetiredPlugin, env: Env)
    requires NoFailures(env) && Faithful(env.codec) && Plain(Unplug(rp), env)
    ensures Still(Unplug(rp), files, env) <==>
            (if rp.entry.None? then Present(files, env, rp.files) == []
             else match InConfig(files, rp.entry.value, env)
                  case Unknown => rp.stubs == map[] || Quieted(files, Present(files, env, rp.files), rp, env)
                  case Clear => Present(files, env, rp.files) == []
                  case IsListed => false)
  {
    var present := Present(files, env, rp.files);
    PresentIsListed(files, env, rp.files);
    DeletedStill(files, present, rp.id, env);
    if rp.entry.Some? {
      var e := rp.entry.value;
      match InConfig(files, e, env) {
        case Unknown => UnknownStill(files, rp, env);
        case Clear =>
        case IsListed => ListedMoves(files, rp, env);
      }
    }
    hide Present, InConfig, Deleted, Neutralized, Quieted, Dropped, Faithful;
  }

  lemma ListedMoves(files: Files, rp: RetiredPlugin, env: Env)
    requires NoFailures(env) && Faithful(env.codec) && ConfigApart(Unplug(rp), env)
    requires rp.entry.Some? && InConfig(files, rp.entry.value, env) == IsListed
    ensures Applied(files, rp, env, false).files != files
  {
    assert Apart(rp, env);
    hide ConfigApart;
    OneStepFinishes(files, rp, env);
    hide InConfig, Applied;
  }

  lemma UnplugOnce(files: Files, rp: RetiredPlugin, env: Env)
    requires NoFailures(env) && Faithful(env.codec) && Plain(Unplug(rp), env)
    ensures Still(Unplug(rp), Applied(files, rp, env, false).files, env)
  {
    assert Apart(rp, env);
    if rp.entry.Some? && InConfig(files, rp.entry.value, env) == Unknown {
      UnknownOnce(files, rp, env);
    } else {
      hide Plain, InConfig, Applied;
      OneStepFinishes(files, rp, env);
    }
  }

  lemma UnknownOnce(files: Files, rp: RetiredPlugin, env: Env)
    requires NoFailures(env) && DistinctFiles(Unplug(rp), env) && Apart(rp, env)
    requires rp.entry.Some? && InConfig(files, rp.entry.value, env) == Unknown
    ensures var after := Applied(files, rp, env, false).files; Applied(after, rp, env, false).files == after
  {
    var e := rp.entry.value;
    var present := Present(files, env, rp.files);
    var after := Applied(files, rp, env, false).files;
    if present != [] && rp.stubs != map[] {
      SteadyFiles(rp, env);
      PresentIsListed(files, env, rp.files);
      PresentKeys(files, rp, env);
      NeutralizedQuiets(files, present, rp, env);
      NeutralizedFrame(files, present, rp, env, false);
      InConfigLocal(files, after, e, env);
      SamePresent(files, after, env, rp.files, present);
      UnknownStill(after, rp, env);
    }
  }

  lemma SamePresent(a: Files, b: Files, env: Env, listed: seq<AbsPath>, present: seq<AbsPath>)
    requires present == Present(a, env, listed) && a.Keys <= b.Keys && AgreeOff(a, b, Keys(present, env))
    ensures Present(b, env, listed) == present
  {
    PresentIsListed(a, env, listed);
    SameDomain(a, b, env, listed);
  }

  lemma {:induction false} SameDomain(a: Files, b: Files, env: Env, listed: seq<AbsPath>)
    requires forall f :: f in listed ==> (env.canon(f) in a <==> env.canon(f) in b)
    ensures Present(b, env, listed) == Present(a, env, listed)
  {
    if listed != [] { SameDomain(a, b, env, listed[1..]); }
  }

  /** Every step but a heartbeat and a retired heartbeat is done after one go. */
  lemma StepOnce(step: Step, files: Files, env: Env)
    requires !step.Beat? && !step.Unmark?
    ensures NoFailures(env) && Faithful(env.codec) && Sturdy(step, env) ==>
              Still(step, Apply(step, files, env, false).files, env)
  {
    assert Sturdy(step, env) ==> Plain(step, env) && ConfigApart(step, env);
    hide Still, Applied, GateReconciled, TrustStep, OwnStep, ConfigApart, DistinctFiles, Plain, Sturdy, Faithful;
    if NoFailures(env) && Faithful(env.codec) && Sturdy(step, env) {
      match step
      case Own(tool, kind, path, body) => OwnOnce(files, tool, kind, path, body, env);
      case Trust(id, e) => TrustOnce(files, id, e, env);
      case Gate(gt, entrypoint, want, taken) => GateOnce(files, gt, entrypoint, want, taken, env);
      case Unplug(rp) => UnplugOnce(files, rp, env);
      case Say(_) => SayStill(step, files, env);
      case Unown(tool, path) => UnownOnce(files, tool, path, env);
    }
  }

  lemma SayStill(step: Step, files: Files, env: Env)
    requires step.Say?
    ensures Still(step, files, env)
  {
  }

  lemma UnownOnce(files: Files, tool: string, path: AbsPath, env: Env)
    requires NoFailures(env)
    ensures Still(Unown(tool, path), UnownStep(files, tool, path, env, false).files, env)
  {
  }

  // ---- heartbeats: several goes ------------------------------------------------------------------------

  ghost function ContentOf(step: Step, files: Files, env: Env): Option<string>
    requires step.Beat? || step.Unmark?
  {
    Read(files, env, env.canon(step.path))
  }

  ghost function NextContent(step: Step, content: Option<string>): Option<string>
    requires step.Beat? || step.Unmark?
  {
    if step.Beat? then Reconciled(content, step.d) else Stripped(content)
  }

  lemma BeatContent(step: Step, files: Files, env: Env)
    requires NoFailures(env) && (step.Beat? || step.Unmark?)
    ensures ContentOf(step, Apply(step, files, env, false).files, env) == NextContent(step, ContentOf(step, files, env))
    ensures Still(step, files, env) <==> NextContent(step, ContentOf(step, files, env)) == ContentOf(step, files, env)
  {
    var content := ContentOf(step, files, env);
    if step.Unmark? && content.Some? {
      if Blocks(content.value) == [] { NothingToStrip(content.value); }
    }
    hide Written, Kept, ClassifyMarker, Blocks;
  }

  // ---- stillness is in the view -------------------------------------------------------------------------

  lemma UnplugStillLocal(rp: RetiredPlugin, a: Files, b: Files, env: Env)
    requires NoFailures(env) && Faithful(env.codec) && Plain(Unplug(rp), env) && SameView(Unplug(rp), a, b, env)
    ensures Still(Unplug(rp), a, env) <==> Still(Unplug(rp), b, env)
  {
    UnplugStillWhen(a, rp, env);
    UnplugStillWhen(b, rp, env);
    PresentLocal(a, b, env, rp.files);
    if rp.entry.Some? {
      InConfigIsView(a, rp.entry.value, env);
      InConfigIsView(b, rp.entry.value, env);
    }
    QuietedLocal(a, b, rp, env);
    hide Still, Plain, Faithful, InConfig, ViewOf, Present, Quieted, Keys;
  }

  lemma QuietedLocal(a: Files, b: Files, rp: RetiredPlugin, env: Env)
    requires AgreeOn(a, b, Keys(rp.files, env))
    ensures Quieted(a, Present(a, env, rp.files), rp, env) <==> Quieted(b, Present(a, env, rp.files), rp, env)
  {
    PresentIsListed(a, env, rp.files);
    forall f | f in rp.files ensures HoldsStub(a, rp, f, env) <==> HoldsStub(b, rp, f, env) {
      assert env.canon(f) in Keys(rp.files, env);
    }
  }

  lemma GateStillLocal(step: Step, a: Files, b: Files, env: Env)
    requires NoFailures(env) && step.Gate? && SameView(step, a, b, env)
    ensures Still(step, a, env) <==> Still(step, b, env)
  {
    hide MarkerPath, ResolveTarget, Attests, LinkOnWay, Declared;
  }

  lemma TrustStillLocal(id: string, e: ConfigEntry, a: Files, b: Files, env: Env)
    requires NoFailures(env) && Faithful(env.codec) && ConfigApart(Trust(id, e), env) &&
               SameView(Trust(id, e), a, b, env)
    ensures Still(Trust(id, e), a, env) <==> Still(Trust(id, e), b, env)
  {
    TrustStillWhen(a, id, e, env);
    TrustStillWhen(b, id, e, env);
    hide Still, ViewOf, Comparable, ConfigApart, Faithful;
  }

  lemma OwnStillLocal(step: Step, a: Files, b: Files, env: Env)
    requires NoFailures(env) && (step.Own? || step.Unown?) && SameView(step, a, b, env)
    ensures Still(step, a, env) <==> Still(step, b, env)
  {
  }

  lemma StillLocal(step: Step, a: Files, b: Files, env: Env)
    requires NoFailures(env) && Faithful(env.codec) && Plain(step, env) && SameView(step, a, b, env)
    ensures Still(step, a, env) <==> Still(step, b, env)
  {
    assert ConfigApart(step, env);
    if step.Beat? || step.Unmark? {
      ContentLocal(step, a, b, env);
      BeatContent(step, a, env);
      BeatContent(step, b, env);
    } else {
      hide Still, SameView, ConfigApart, Plain, Faithful;
      match step
      case Trust(id, e) => TrustStillLocal(id, e, a, b, env);
      case Gate(_, _, _, _) => GateStillLocal(step, a, b, env);
      case Unplug(rp) => UnplugStillLocal(rp, a, b, env);
      case Say(_) => SayStill(step, a, env); SayStill(step, b, env);
      case Own(_, _, _, _) => OwnStillLocal(step, a, b, env);
      case Unown(_, _) => OwnStillLocal(step, a, b, env);
    }
  }

  lemma ContentLocal(step: Step, a: Files, b: Files, env: Env)
    requires (step.Beat? || step.Unmark?) && SameView(step, a, b, env)
    ensures ContentOf(step, a, env) == ContentOf(step, b, env)
  {
  }
}
