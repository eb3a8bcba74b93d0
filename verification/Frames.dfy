/**
 When one step of a tick cannot be noticed by another: what a step may change, and what the
 outcome of a step depends on.
 */
module Frames {
  import opened Text
  import opened Json
  import opened Siblings
  import opened Heartbeat
  import opened Paths
  import opened ConfigFile
  import opened World
  import opened Retired
  import opened Gated
  import opened GatedRun
  import opened Steps

  // ---- what a step sees ----------------------------------------------------------------------

  /** What a config says of a plugin; nothing if it cannot be read or parsed. */
  function ViewOf(files: Files, e: ConfigEntry, env: Env): Option<Standing> {
    var key := env.canon(e.path);
    var tree := Original(Read(files, env, key), env.codec);
    if Refused(files, env, key) || tree.None? then None else Some(StandingOf(tree.value, e.at))
  }

  /** Two stores a step cannot tell apart. */
  ghost predicate SameView(step: Step, a: Files, b: Files, env: Env) {
    && AgreeOn(a, b, Looks(step, env))
    && (ConfigOf(step).Some? ==> ViewOf(a, ConfigOf(step).value, env) == ViewOf(b, ConfigOf(step).value, env))
  }

  /** Step `x` writes nothing step `y` looks at; in a config they share, they are siblings. */
  ghost predicate Undisturbed(x: Step, y: Step, env: Env) {
    && Writes(x, env) + ConfigKeys(x, env) !! Looks(y, env)
    && Writes(x, env) !! ConfigKeys(y, env)
    && (ConfigKeys(x, env) * ConfigKeys(y, env) != {} ==> AreSiblings(ConfigOf(x).value.at, ConfigOf(y).value.at))
  }

  /** Two steps that want the same bytes in the same file of ours. */
  ghost predicate Twin(x: Step, y: Step, env: Env) {
    x.Own? && y.Own? && env.canon(x.path) == env.canon(y.path) && x.body == y.body
  }

  /** A file with the bytes of `body`, as far as the hash tells. */
  ghost predicate Holds(files: Files, key: AbsPath, body: string, env: Env) {
    key in files && env.sha(files[key]) == env.sha(body)
  }

  /** A file cannot be refused unless it is there. */
  ghost predicate Refusable(step: Step, files: Files, env: Env) {
    ConfigKeys(step, env) * env.unreadable <= files.Keys
  }

  lemma SameViewTrans(step: Step, a: Files, b: Files, c: Files, env: Env)
    requires SameView(step, a, b, env) && SameView(step, b, c, env)
    ensures SameView(step, a, c, env)
  {
    hide Looks, ViewOf, ConfigOf;
  }

  // ---- the frame ---------------------------------------------------------------------------------

  lemma MergedFilesFrame(files: Files, e: ConfigEntry, env: Env)
    ensures AgreeOff(files, MergedFiles(files, e, env).0, {env.canon(e.path), env.canon(BackupPath(e.path))})
    ensures files.Keys <= MergedFiles(files, e, env).0.Keys
  {
    hide Mergeable, NeedsBackup, Next, BackupPath;
  }

  lemma AppliedFrame(files: Files, rp: RetiredPlugin, env: Env, dry: bool)
    ensures AgreeOff(files, Applied(files, rp, env, dry).files, Keys(rp.files, env) + ConfigKeys(Unplug(rp), env))
    ensures dry ==> Applied(files, rp, env, dry).files == files
  {
    var present := Present(files, env, rp.files);
    PresentKeys(files, rp, env);
    DeletedFrame(files, present, rp.id, env, dry);
    NeutralizedFrame(files, present, rp, env, dry);
    hide InConfig, Dropped, Present, Keys, Deleted, Neutralized;
    if dry {
      DryDeletes(files, present, rp.id, env);
      DryNeutralizes(files, present, rp, env);
    } else if rp.entry.Some? && Dropped(files, rp.entry.value, env).Some? {
      var next := files[env.canon(rp.entry.value.path) := Dropped(files, rp.entry.value, env).value];
      DeletedFrame(next, present, rp.id, env, dry);
    }
  }

  lemma {:induction false} DryDeletes(files: Files, present: seq<AbsPath>, id: string, env: Env)
    ensures Deleted(files, present, id, env, true).files == files
    decreases |present|
  {
    if present != [] { DryDeletes(files, present[1..], id, env); }
  }

  lemma {:induction false} DryNeutralizes(files: Files, present: seq<AbsPath>, rp: RetiredPlugin, env: Env)
    ensures Neutralized(files, present, rp, env, true).files == files
    decreases |present|
  {
    if present != [] { DryNeutralizes(files, present[1..], rp, env); }
  }

  /** A step writes nothing but its own files and its config. */
  lemma StepFrame(step: Step, files: Files, env: Env, dry: bool)
    ensures AgreeOff(files, Apply(step, files, env, dry).files, Writes(step, env) + ConfigKeys(step, env))
  {
    hide Applied, Keys, GateReconciled, MergedFiles, ClassifyConfig, ClassifyMarker, Written;
    match step
    case Trust(id, e) => MergedFilesFrame(files, e, env);
    case Gate(gt, entrypoint, want, taken) => GateFrame(gt, entrypoint, want, taken, files, env, dry);
    case Unplug(rp) => AppliedFrame(files, rp, env, dry);
    case _ =>
  }

  lemma GateFrame(gt: GatedTool, entrypoint: string, want: Option<string>, taken: set<AbsPath>, files: Files,
                  env: Env, dry: bool)
    ensures AgreeOff(files, GateReconciled(files, gt, entrypoint, want, taken, env, dry).files,
                     Writes(Gate(gt, entrypoint, want, taken), env))
    ensures dry ==> GateReconciled(files, gt, entrypoint, want, taken, env, dry).files == files
  {
    hide MarkerPath, ResolveTarget, ReadMarker, Attests, LinkOnWay, StateOf;
  }

  /** A preview changes nothing. */
  lemma PreviewWritesNothing(step: Step, files: Files, env: Env)
    ensures Apply(step, files, env, true).files == files
  {
    hide Applied, GateReconciled, MergedFiles, ClassifyConfig, ClassifyMarker, Written;
    match step
    case Gate(gt, entrypoint, want, taken) => GateFrame(gt, entrypoint, want, taken, files, env, true);
    case Unplug(rp) => AppliedFrame(files, rp, env, true);
    case _ =>
  }

  // ---- a shared config ------------------------------------------------------------------------------

  lemma ViewOfSameFile(a: Files, b: Files, e: ConfigEntry, env: Env)
    requires AgreeOn(a, b, {env.canon(e.path)})
    ensures ViewOf(a, e, env) == ViewOf(b, e, env)
  {
    hide StandingOf, Original;
  }

  /** The config after a merge, if the merge wrote it. */
  lemma MergedConfig(files: Files, e: ConfigEntry, env: Env)
    requires env.canon(BackupPath(e.path)) != env.canon(e.path)
    ensures var key := env.canon(e.path);
            var after := MergedFiles(files, e, env).0;
            || AgreeOn(files, after, {key})
            || (&& !Refused(files, env, key) && Original(Read(files, env, key), env.codec).Some?
                && key in after && after[key] ==
                     Wanted(Original(Read(files, env, key), env.codec).value, env.codec, e.at))
  {
    hide Passes, NeedsBackup, Wanted, BackupPath, Original;
  }

  lemma TrustKeepsView(files: Files, e: ConfigEntry, e2: ConfigEntry, env: Env)
    requires Faithful(env.codec) && AreSiblings(e.at, e2.at)
    requires env.canon(e.path) == env.canon(e2.path) != env.canon(BackupPath(e.path))
    requires env.canon(e.path) in env.unreadable ==> env.canon(e.path) in files
    ensures ViewOf(MergedFiles(files, e, env).0, e2, env) == ViewOf(files, e2, env)
  {
    var key := env.canon(e.path);
    var after := MergedFiles(files, e, env).0;
    MergedConfig(files, e, env);
    hide MergedFiles, AreSiblings, StandingOf, BackupPath;
    if AgreeOn(files, after, {key}) {
      ViewOfSameFile(files, after, e2, env);
    } else {
      var o := Original(Read(files, env, key), env.codec).value;
      MergeKeepsStanding(o, e.at, e2.at);
      assert env.codec.parse(env.codec.print_(Merged(o, e.at.allow, e.at.entries, e.at.id))).Some?;
    }
  }

  /** The config after a retired plugin was dealt with. */
  lemma AppliedConfig(files: Files, rp: RetiredPlugin, env: Env)
    requires rp.entry.Some? && Apart(rp, env)
    ensures var e := rp.entry.value;
            var key := env.canon(e.path);
            var after := Applied(files, rp, env, false).files;
            || AgreeOn(files, after, {key})
            || (&& key in files && key !in env.unreadable && env.codec.parse(files[key]).Some?
                && key in after
                && after[key] == env.codec.print_(Removed(env.codec.parse(files[key]).value, e.at.allow, e.at.entries,
                       e.at.id)))
  {
    var e := rp.entry.value;
    ConfigIsSpared(files, rp, env, false);
    DroppedIs(files, e, env);
    hide InConfig, Present, Keys, Deleted, Neutralized, Dropped, Removed, Apart;
    if Dropped(files, e, env).Some? {
      var next := files[env.canon(e.path) := Dropped(files, e, env).value];
      assert AgreeOn(next, Deleted(next, Present(files, env, rp.files), rp.id, env, false).files, {env.canon(e.path)});
    }
  }

  lemma DroppedIs(files: Files, e: ConfigEntry, env: Env)
    ensures Dropped(files, e, env).Some? ==>
              var key := env.canon(e.path);
              && key in files && key !in env.unreadable && env.codec.parse(files[key]).Some?
              && Dropped(files, e, env).value ==
                 env.codec.print_(Removed(env.codec.parse(files[key]).value, e.at.allow, e.at.entries, e.at.id))
  {
    hide Removed;
  }

  lemma UnplugKeepsView(files: Files, rp: RetiredPlugin, e2: ConfigEntry, env: Env)
    requires Faithful(env.codec) && rp.entry.Some? && Apart(rp, env) && AreSiblings(rp.entry.value.at, e2.at)
    requires env.canon(rp.entry.value.path) == env.canon(e2.path)
    ensures ViewOf(Applied(files, rp, env, false).files, e2, env) == ViewOf(files, e2, env)
  {
    var e := rp.entry.value;
    var key := env.canon(e.path);
    var after := Applied(files, rp, env, false).files;
    AppliedConfig(files, rp, env);
    SiblingsSym(e.at, e2.at);
    hide Applied, AreSiblings, StandingOf, Removed, Apart;
    if AgreeOn(files, after, {key}) {
      ViewOfSameFile(files, after, e2, env);
    } else {
      var o := env.codec.parse(files[key]).value;
      RemovalKeepsStanding(o, e2.at, e.at);
      assert env.codec.parse(env.codec.print_(Removed(o, e.at.allow, e.at.entries, e.at.id))) ==
             Some(Removed(o, e.at.allow, e.at.entries, e.at.id));
    }
  }

  // ---- main lemma: an undisturbed step notices nothing --------------------------------------------------

  /** The two paths of a config step differ, and a retired plugin's config is none of its files. */
  ghost predicate ConfigApart(step: Step, env: Env) {
    Writes(step, env) !! ConfigKeys(step, env)
  }

  lemma AgreeOffDisjoint(a: Files, b: Files, off: set<AbsPath>, keys: set<AbsPath>)
    requires AgreeOff(a, b, off) && off !! keys
    ensures AgreeOn(a, b, keys)
  {
  }

  lemma SharedConfigKeepsView(x: Step, e2: ConfigEntry, files: Files, env: Env)
    requires Faithful(env.codec) && ConfigApart(x, env) && ConfigOf(x).Some?
    requires env.canon(ConfigOf(x).value.path) == env.canon(e2.path) && AreSiblings(ConfigOf(x).value.at, e2.at)
    requires env.canon(e2.path) in env.unreadable ==> env.canon(e2.path) in files
    ensures ViewOf(Apply(x, files, env, false).files, e2, env) == ViewOf(files, e2, env)
  {
    hide ViewOf, Applied, MergedFiles, AreSiblings, ClassifyConfig, BackupPath, Keys;
    match x
    case Trust(id, e) => TrustKeepsView(files, e, e2, env);
    case Unplug(rp) => UnplugKeepsView(files, rp, e2, env);
  }

  lemma UndisturbedView(x: Step, y: Step, files: Files, env: Env)
    requires Faithful(env.codec) && Undisturbed(x, y, env) && ConfigApart(x, env) && Refusable(y, files, env)
    ensures SameView(y, files, Apply(x, files, env, false).files, env)
    ensures Refusable(y, Apply(x, files, env, false).files, env)
  {
    var after := Apply(x, files, env, false).files;
    StepFrame(x, files, env, false);
    var off := Writes(x, env) + ConfigKeys(x, env);
    hide Apply, Writes, Looks, ViewOf, AreSiblings, ConfigOf;
    AgreeOffDisjoint(files, after, off, Looks(y, env));
    if ConfigOf(y).Some? {
      var e2 := ConfigOf(y).value;
      var key := env.canon(e2.path);
      assert key in ConfigKeys(y, env);
      if key in ConfigKeys(x, env) {
        assert key in ConfigKeys(x, env) * ConfigKeys(y, env);
        SharedConfigKeepsView(x, e2, files, env);
        ConfigStaysThere(x, files, env);
      } else {
        AgreeOffDisjoint(files, after, off, {key});
        ViewOfSameFile(files, after, e2, env);
      }
    }
  }

  /** No step deletes a config. */
  lemma ConfigStaysThere(x: Step, files: Files, env: Env)
    requires ConfigApart(x, env)
    ensures ConfigKeys(x, env) * files.Keys <= Apply(x, files, env, false).files.Keys
  {
    hide Applied, MergedFiles, ClassifyConfig, BackupPath, Keys;
    match x
    case Trust(id, e) => MergedFilesFrame(files, e, env);
    case Unplug(rp) => if rp.entry.Some? { AppliedConfig(files, rp, env); }
    case _ =>
  }
}
