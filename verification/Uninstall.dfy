/**
 Uninstall: every surface of the manifest is taken back, one by one, and then the retired ones.
 */
module Uninstall {
  import opened Text
  import opened Json
  import opened AllowList
  import opened Siblings
  import opened BlockScan
  import opened Splice
  import opened Paths
  import opened Outcomes
  import opened ConfigFile
  import opened World
  import opened Retired
  import opened Gated
  import opened GatedRun
  import opened Steps
  import opened Frames
  import opened Ticks
  import opened Manifest
  import Ownership
  import Preview

  datatype Undo =
    | Drop(tool: string, kind: FileKind, path: AbsPath)     // a file of ours
    | Unblock(tool: string, path: AbsPath)                  // our blocks in a user's file
    | Distrust(id: string, entry: ConfigEntry)              // a plugin's place in a config
    | Ungate(gt: GatedTool, entrypoint: string)             // a gated skill copy
    | Escape(id: string, path: AbsPath)                     // a plugin file outside its directory

  datatype RemovalKind = WasDeleted | WasStripped | WasMerged | WasRestored | WasNeutralized | WasNothing | WasError

  datatype Taken = Taken(tool: string, kind: FileKind, path: AbsPath, action: RemovalKind, named: string := "")

  datatype Outcome = Outcome(files: Files, removals: seq<Taken>)

  /** `removeOwnedFile`. */
  function DropFile(files: Files, tool: string, kind: FileKind, path: AbsPath, env: Env): Outcome {
    var key := env.canon(path);
    if key !in files then Outcome(files, [Taken(tool, kind, path, WasNothing)])
    else if key in env.locked then Outcome(files, [Taken(tool, kind, path, WasError)])
    else Outcome(files - {key}, [Taken(tool, kind, path, WasDeleted)])
  }

  /** `stripMarkerFile`. */
  ghost function StripFile(files: Files, tool: string, path: AbsPath, env: Env): Outcome {
    var key := env.canon(path);
    var content := Read(files, env, key);
    if Refused(files, env, key) then Outcome(files, [Taken(tool, MarkerFile, path, WasError)])
    else if content.None? || Blocks(content.value) == []
    then Outcome(files, [Taken(tool, MarkerFile, path, WasNothing)])
    else if key in env.locked then Outcome(files, [Taken(tool, MarkerFile, path, WasError)])
    else Outcome(files[key := Kept(content.value, 0)], [Taken(tool, MarkerFile, path, WasStripped)])
  }

  function Store(files: Files, key: AbsPath, content: Option<string>): Files {
    if content.None? then files - {key} else files[key := content.value]
  }

  function KindOf(r: Removal): RemovalKind {
    match r
    case Restored => WasRestored
    case MergedOut => WasMerged
    case NothingToRemove => WasNothing
    case Failed => WasError
  }

  function Lookup(files: Files, key: AbsPath): Option<string> {
    if key in files then Some(files[key]) else None
  }

  /** The config and its sidecar. */
  function Pair(files: Files, e: ConfigEntry, env: Env): Snapshot {
    Snapshot(Lookup(files, env.canon(e.path)), Lookup(files, env.canon(BackupPath(e.path))))
  }

  function RemovalTroubles(files: Files, e: ConfigEntry, env: Env): RemovalFaults {
    var key, bak := env.canon(e.path), env.canon(BackupPath(e.path));
    RemovalFaults(Refused(files, env, key), Refused(files, env, bak), key in env.locked, bak !in env.locked)
  }

  /** `removePluginAllowListEntry`. */
  function DistrustPlugin(files: Files, id: string, e: ConfigEntry, env: Env): Outcome {
    var (after, r) := Withdraw(Pair(files, e, env), env.codec, e.at, RemovalTroubles(files, e, env));
    var saved := Store(files, env.canon(BackupPath(e.path)), after.bak);
    Outcome(Store(saved, env.canon(e.path), after.live), [Taken(id, PluginAllowList, e.path, KindOf(r))])
  }

  /** `removeGatedTool`: no row while the tool is inactive. */
  ghost function UngateTool(files: Files, gt: GatedTool, entrypoint: string, env: Env): Outcome {
    var marker := MarkerPath(gt, env.home);
    var target := ResolveTarget(gt, entrypoint, env.home);
    var row := Taken(gt.name, SkillFile, [], WasError);
    if marker.None? then Outcome(files, [row.(named := gt.requireMarker)])
    else if ReadMarker(files, env, marker.value).None? then Outcome(files, [])
    else if target.None? then Outcome(files, [row.(named := gt.skillsDir)])
    else if !Attests(ReadMarker(files, env, marker.value).value, gt, env) then Outcome(files, [])
    else
      TargetStrictlyInside(gt, entrypoint, env.home);
      var t := target.value;
      var key := env.canon(t.path);
      if t.root !in env.dirs then Outcome(files, [row.(path := t.path, action := WasNothing)])
      else if LinkOnWay(env, t.root, t.path) then Outcome(files, [row.(path := t.path)])
      else if t.path in env.dirs then Outcome(files, [row.(path := t.path)])
      else if key !in files then Outcome(files, [row.(path := t.path, action := WasNothing)])
      else if key in env.locked then Outcome(files, [row.(path := t.path)])
      else Outcome(files - {key}, [row.(path := t.path, action := WasDeleted)])
  }

  ghost function Take(u: Undo, files: Files, env: Env): Outcome {
    match u
    case Drop(tool, kind, path) => DropFile(files, tool, kind, path, env)
    case Unblock(tool, path) => StripFile(files, tool, path, env)
    case Distrust(id, e) => DistrustPlugin(files, id, e, env)
    case Ungate(gt, entrypoint) => UngateTool(files, gt, entrypoint, env)
    case Escape(id, path) => Outcome(files, [Taken(id, PluginFile, path, WasError)])
  }

  ghost function TakeAll(us: seq<Undo>, files: Files, env: Env): Outcome
    decreases |us|
  {
    if us == [] then Outcome(files, [])
    else
      var first := Take(us[0], files, env);
      var rest := TakeAll(us[1..], first.files, env);
      Outcome(rest.files, first.removals + rest.removals)
  }

  // ---- the surfaces of a manifest --------------------------------------------------------------

  function HelperUndos(hs: seq<Helper>, env: Env): seq<Undo> {
    if hs == [] then [] else [Drop(hs[0].name, HelperFile, PlaceOf(hs[0].dst, env))] + HelperUndos(hs[1..], env)
  }

  function PluginFileUndo(id: string, dir: AbsPath, pf: SourceFile): Undo {
    var dst := Join(dir, pf.name);
    if PathWithin(dir, dst) then Drop(id, PluginFile, dst) else Escape(id, dst)
  }

  function PluginFileUndos(id: string, dir: AbsPath, pfs: seq<SourceFile>): seq<Undo> {
    if pfs == [] then [] else [PluginFileUndo(id, dir, pfs[0])] + PluginFileUndos(id, dir, pfs[1..])
  }

  function PluginUndos(p: Option<Plugin>, env: Env): seq<Undo> {
    match p
    case None => []
    case Some(p) =>
      PluginFileUndos(p.id, PlaceOf(p.installPath, env), p.files) +
      (if p.allowList.Some? then [Distrust(p.id, EntryFor(p, env))] else [])
  }

  /** Whether or not the tool is installed, and whether or not it has a template. */
  function ToolUndos(t: Tool, m: Manifest, env: Env): seq<Undo> {
    [Drop(t.name, SkillFile, SkillPathOf(t, m, env))] +
    ((if t.heartbeatPath == "" then [] else [Unblock(t.name, PlaceOf(t.heartbeatPath, env))]) +
        PluginUndos(t.plugin, env))
  }

  function AllToolUndos(ts: seq<Tool>, m: Manifest, env: Env): seq<Undo> {
    if ts == [] then [] else ToolUndos(ts[0], m, env) + AllToolUndos(ts[1..], m, env)
  }

  function GateUndos(gts: seq<GatedTool>, m: Manifest): seq<Undo> {
    if gts == [] then [] else [Ungate(gts[0], m.entrypoint)] + GateUndos(gts[1..], m)
  }

  function UndosOf(m: Manifest, env: Env): seq<Undo> {
    HelperUndos(m.helpers, env) + AllToolUndos(m.tools, m, env) + GateUndos(m.gated, m)
  }

  /** How an uninstall reports a retired surface. */
  function TakenOf(row: Row): Taken {
    Taken(row.tool, row.kind, row.path,
          if row.action == Error then WasError
          else if row.action == Rewrite then WasNeutralized
          else if row.kind == MarkerFile then WasStripped
          else if row.kind == PluginAllowList then WasMerged
          else WasDeleted)
  }

  function Reported(rows: seq<Row>): seq<Taken> {
    if rows == [] then [] else [TakenOf(rows[0])] + Reported(rows[1..])
  }

  /** The files after an uninstall. */
  ghost function AfterUninstall(m: Manifest, files: Files, env: Env): Files {
    RunSteps(RetiredSteps(RetiredOf(m, env)), TakeAll(UndosOf(m, env), files, env).files, env, false).files
  }

  // ---- nothing is created -------------------------------------------------------------------------

  lemma WithdrawCreatesNothing(s: Snapshot, c: Codec, at: Place, f: RemovalFaults)
    ensures var (after, r) := Withdraw(s, c, at, f);
            && (after.live.Some? ==> s.live.Some?)
            && (after.bak.Some? ==> after.bak == s.bak)
            && (after.live.None? ==> s.live.None?)
  {
    hide Touches, CleanBackup;
  }

  lemma DistrustCreatesNothing(files: Files, id: string, e: ConfigEntry, env: Env)
    ensures DistrustPlugin(files, id, e, env).files.Keys <= files.Keys
  {
    var s := Pair(files, e, env);
    WithdrawCreatesNothing(s, env.codec, e.at, RemovalTroubles(files, e, env));
    hide Withdraw, BackupPath;
    var after := Withdraw(s, env.codec, e.at, RemovalTroubles(files, e, env)).0;
    assert after.bak.Some? ==> env.canon(BackupPath(e.path)) in files;
    assert after.live.Some? ==> env.canon(e.path) in files;
  }

  lemma TakeCreatesNothing(u: Undo, files: Files, env: Env)
    ensures Take(u, files, env).files.Keys <= files.Keys
  {
    hide DistrustPlugin, Blocks, Kept, MarkerPath, ResolveTarget, ReadMarker, Attests, LinkOnWay;
    match u {
      case Distrust(id, e) => DistrustCreatesNothing(files, id, e, env);
      case _ =>
    }
  }

  lemma {:induction false} TakeAllCreatesNothing(us: seq<Undo>, files: Files, env: Env)
    ensures TakeAll(us, files, env).files.Keys <= files.Keys
    decreases |us|
  {
    hide Take;
    if us != [] {
      TakeCreatesNothing(us[0], files, env);
      TakeAllCreatesNothing(us[1..], Take(us[0], files, env).files, env);
    }
  }

  lemma PresentNeutralized(files: Files, rp: RetiredPlugin, env: Env)
    ensures Neutralized(files, Present(files, env, rp.files), rp, env, false).files.Keys <= files.Keys
  {
    var present := Present(files, env, rp.files);
    PresentIsListed(files, env, rp.files);
    NeutralizedFrame(files, present, rp, env, false);
    hide Present, Neutralized;
  }

  lemma UnplugCreatesNothing(files: Files, rp: RetiredPlugin, env: Env)
    ensures Applied(files, rp, env, false).files.Keys <= files.Keys
  {
    var present := Present(files, env, rp.files);
    PresentNeutralized(files, rp, env);
    DeletedFrame(files, present, rp.id, env, false);
    if rp.entry.Some? && Dropped(files, rp.entry.value, env).Some? {
      DeletedFrame(files[env.canon(rp.entry.value.path) := Dropped(files, rp.entry.value, env).value], present, rp.id,
          env, false);
    }
    hide Present, Neutralized, Deleted, InConfig, Keys, Removed;
  }

  predicate IsRetired(s: Step) {
    s.Unmark? || s.Unplug? || s.Unown?
  }

  lemma RetiredCreatesNothing(s: Step, files: Files, env: Env)
    requires IsRetired(s)
    ensures Apply(s, files, env, false).files.Keys <= files.Keys
  {
    hide Applied, Blocks, Kept;
    if s.Unplug? { UnplugCreatesNothing(files, s.rp, env); }
  }

  /** A list of retired surfaces never adds a file: a host in disabled mode gets nothing new. */
  lemma {:induction false} PruningCreatesNothing(steps: seq<Step>, files: Files, env: Env)
    requires forall s :: s in steps ==> IsRetired(s)
    ensures RunSteps(steps, files, env, false).files.Keys <= files.Keys
    decreases |steps|
  {
    hide Apply, IsRetired;
    if steps != [] {
      assert steps[0] in steps;
      RetiredCreatesNothing(steps[0], files, env);
      PruningCreatesNothing(steps[1..], Apply(steps[0], files, env, false).files, env);
    }
  }

  // ---- owned files -----------------------------------------------------------------------------------

  lemma DropDeletes(u: Undo, files: Files, env: Env)
    requires NoFailures(env) && u.Drop?
    ensures env.canon(u.path) !in Take(u, files, env).files
  {
  }

  lemma {:induction false} DropStays(us: seq<Undo>, k: nat, files: Files, env: Env)
    requires NoFailures(env) && k < |us| && us[k].Drop?
    ensures env.canon(us[k].path) !in TakeAll(us, files, env).files
    decreases |us|
  {
    hide Take;
    var next := Take(us[0], files, env).files;
    if k == 0 {
      DropDeletes(us[0], files, env);
      TakeAllCreatesNothing(us[1..], next, env);
    } else {
      DropStays(us[1..], k - 1, next, env);
    }
  }

  /** Main result on what an uninstall adds: nothing, whatever fails and whatever is there. */
  lemma UninstallCreatesNothing(m: Manifest, files: Files, env: Env)
    ensures AfterUninstall(m, files, env).Keys <= files.Keys
  {
    hide UndosOf, RetiredSteps, RetiredOf, TakeAll, RunSteps;
    TakeAllCreatesNothing(UndosOf(m, env), files, env);
    Ownership.RetiredKinds(RetiredOf(m, env));
    PruningCreatesNothing(RetiredSteps(RetiredOf(m, env)), TakeAll(UndosOf(m, env), files, env).files, env);
  }

  /** Main result on owned files: a failure-free uninstall leaves none of them. */
  lemma UninstallDeletes(m: Manifest, files: Files, env: Env, k: nat)
    requires NoFailures(env) && k < |UndosOf(m, env)| && UndosOf(m, env)[k].Drop?
    ensures env.canon(UndosOf(m, env)[k].path) !in AfterUninstall(m, files, env)
  {
    hide UndosOf, RetiredSteps, RetiredOf, TakeAll, RunSteps;
    var us := UndosOf(m, env);
    DropStays(us, k, files, env);
    Ownership.RetiredKinds(RetiredOf(m, env));
    PruningCreatesNothing(RetiredSteps(RetiredOf(m, env)), TakeAll(us, files, env).files, env);
  }

  /** A gated skill copy goes exactly when its marker attests it, no symlink is on the way and it is a file. */
  lemma UngateDeletes(files: Files, gt: GatedTool, entrypoint: string, env: Env)
    ensures UngateTool(files, gt, entrypoint, env).files == GatedRun.Uninstalled(files, gt, entrypoint, env)
    ensures UngateTool(files, gt, entrypoint, env).files != files <==> Deletes(files, gt, entrypoint, env)
  {
    hide MarkerPath, ReadMarker, ResolveTarget, Attests, LinkOnWay;
  }

  // ---- trust -------------------------------------------------------------------------------------------

  /** The plugin is neither allowed nor enabled, and no backup is left that could say otherwise. */
  ghost predicate Ousted(files: Files, e: ConfigEntry, env: Env) {
    && env.canon(BackupPath(e.path)) !in files
    && ViewOf(files, e, env).Some? && !ViewOf(files, e, env).value.allowed && !ViewOf(files, e, env).value.enabled
  }

  /** The step stays away from a plugin's config and its backup, or edits it for a sibling. */
  ghost predicate Spares(u: Undo, e: ConfigEntry, env: Env) {
    var key := env.canon(e.path);
    match u
    case Drop(_, _, path) => env.canon(path) != key
    case Unblock(_, path) => env.canon(path) != key
    case Distrust(_, e2) =>
      && env.canon(BackupPath(e2.path)) != key
      && (env.canon(e2.path) == key ==> e2.path == e.path && (e2.at == e.at || AreSiblings(e2.at, e.at)))
    case Ungate(gt, entrypoint) =>
      ResolveTarget(gt, entrypoint, env.home).Some? ==>
        env.canon(ResolveTarget(gt, entrypoint, env.home).value.path) != key
    case Escape(_, _) => true
  }

  /** The tree of a config; an absent one counts as empty. */
  lemma ViewOfTree(files: Files, e: ConfigEntry, env: Env)
    requires NoFailures(env)
    ensures ViewOf(files, e, env) ==
            (var o := Original(Lookup(files, env.canon(e.path)), env.codec);
             if o.None? then None else Some(StandingOf(o.value, e.at)))
  {
    hide StandingOf;
  }

  /** A removal from a config that can be read goes through, and takes the backup with it. */
  lemma WithdrawOutcome(s: Snapshot, c: Codec, at: Place)
    requires Faithful(c) && Original(s.live, c).Some?
    ensures var (after, r) := Withdraw(s, c, at, NO_REMOVAL_FAULTS);
            && after.bak.None?
            && Original(after.live, c).Some?
            && !StandingOf(Original(after.live, c).value, at).allowed
            && !StandingOf(Original(after.live, c).value, at).enabled
  {
    var o := Original(s.live, c).value;
    RemovalDistrusts(o, at.allow, at.entries, at.id);
    Preview.NothingStands(at);
    if !Touches(o, at) { UntouchedIsDistrusted(o, at); }
    hide Touches, Allows, HasEntry, Enables, Removed;
  }

  lemma DistrustTakes(files: Files, id: string, e: ConfigEntry, env: Env)
    requires NoFailures(env) && Faithful(env.codec) && env.canon(BackupPath(e.path)) != env.canon(e.path)
    requires ViewOf(files, e, env).Some?
    ensures Ousted(DistrustPlugin(files, id, e, env).files, e, env)
  {
    var after := DistrustPlugin(files, id, e, env).files;
    ViewOfTree(files, e, env);
    ViewOfTree(after, e, env);
    WithdrawOutcome(Pair(files, e, env), env.codec, e.at);
    hide Withdraw, ViewOf, StandingOf, Original, Faithful, BackupPath;
    assert RemovalTroubles(files, e, env) == NO_REMOVAL_FAULTS;
  }

  /** Main result on a plugin that comes and goes: after its config step and its removal the config has
      its bytes back exactly when the sidecar could give them back, or there was nothing to undo. */
  lemma PluginComesAndGoes(files: Files, id: string, e: ConfigEntry, env: Env)
    requires NoFailures(env) && Faithful(env.codec) && env.canon(BackupPath(e.path)) != env.canon(e.path)
    ensures var installed := TrustStep(files, id, e, env, false).files;
            Lookup(DistrustPlugin(installed, id, e, env).files, env.canon(e.path)) == Lookup(files, env.canon(e.path))
            <==> GivenBack(Pair(files, e, env), env.codec, e.at)
  {
    TrustIsMerge(files, id, e, env);
    RemovalGivesBack(Pair(files, e, env), env.codec, e.at);
    hide TrustStep, AfterMerge, GivenBack, Withdraw, Faithful, BackupPath;
    var installed := TrustStep(files, id, e, env, false).files;
    assert RemovalTroubles(installed, e, env) == NO_REMOVAL_FAULTS;
  }

  lemma TrustIsMerge(files: Files, id: string, e: ConfigEntry, env: Env)
    requires NoFailures(env) && env.canon(BackupPath(e.path)) != env.canon(e.path)
    ensures Pair(TrustStep(files, id, e, env, false).files, e, env) == AfterMerge(Pair(files, e, env), env.codec, e.at)
  {
    hide Next, Passes, BackupPath;
  }

  /** A removal for a sibling keeps a plugin out, once the backup is gone. */
  lemma WithdrawSpares(s: Snapshot, c: Codec, other: Place, at: Place)
    requires Faithful(c) && s.bak.None? && Original(s.live, c).Some? && AreSiblings(other, at)
    ensures var (after, r) := Withdraw(s, c, other, NO_REMOVAL_FAULTS);
            && after.bak.None?
            && Original(after.live, c).Some?
            && StandingOf(Original(after.live, c).value, at) == StandingOf(Original(s.live, c).value, at)
  {
    var o := Original(s.live, c).value;
    SiblingsSym(other, at);
    RemovalKeepsStanding(o, at, other);
    hide Touches, StandingOf, Removed, AreSiblings;
  }

  /** A removal for a sibling keeps the config readable, whatever the backup holds. */
  lemma WithdrawKeepsReadable(s: Snapshot, c: Codec, at: Place)
    requires Faithful(c) && Original(s.live, c).Some?
    ensures Original(Withdraw(s, c, at, NO_REMOVAL_FAULTS).0.live, c).Some?
  {
    hide Touches, Removed;
  }

  lemma DistrustSpares(files: Files, id: string, e2: ConfigEntry, e: ConfigEntry, env: Env)
    requires NoFailures(env) && Faithful(env.codec) && Ousted(files, e, env) && Spares(Distrust(id, e2), e, env)
    requires env.canon(e2.path) == env.canon(e.path) != env.canon(BackupPath(e.path))
    ensures Ousted(DistrustPlugin(files, id, e2, env).files, e, env)
  {
    var after := DistrustPlugin(files, id, e2, env).files;
    ViewOfTree(files, e, env);
    ViewOfTree(after, e, env);
    DistrustCreatesNothing(files, id, e2, env);
    var s := Pair(files, e2, env);
    if e2.at == e.at {
      DistrustTakes(files, id, e2, env);
      ViewOfTree(after, e2, env);
    } else {
      WithdrawSpares(s, env.codec, e2.at, e.at);
      hide Withdraw, ViewOf, StandingOf, Original, Faithful, BackupPath, AreSiblings;
      assert RemovalTroubles(files, e2, env) == NO_REMOVAL_FAULTS;
    }
  }

  lemma DistrustElsewhere(files: Files, id: string, e2: ConfigEntry, e: ConfigEntry, env: Env)
    requires Spares(Distrust(id, e2), e, env) && env.canon(e2.path) != env.canon(e.path)
    ensures AgreeOn(files, DistrustPlugin(files, id, e2, env).files, {env.canon(e.path)})
  {
    hide Withdraw, BackupPath, AreSiblings;
  }

  lemma TakeElsewhere(u: Undo, files: Files, e: ConfigEntry, env: Env)
    requires Spares(u, e, env) && !u.Distrust?
    ensures AgreeOn(files, Take(u, files, env).files, {env.canon(e.path)})
  {
    hide Blocks, Kept, MarkerPath, ResolveTarget, ReadMarker, Attests, LinkOnWay, BackupPath;
  }

  lemma TakeSpares(u: Undo, files: Files, e: ConfigEntry, env: Env)
    requires NoFailures(env) && Faithful(env.codec) && Spares(u, e, env) &&
               env.canon(BackupPath(e.path)) != env.canon(e.path)
    ensures Ousted(files, e, env) ==> Ousted(Take(u, files, env).files, e, env)
    ensures ViewOf(files, e, env).Some? ==> ViewOf(Take(u, files, env).files, e, env).Some?
  {
    var after := Take(u, files, env).files;
    TakeCreatesNothing(u, files, env);
    if u.Distrust? && env.canon(u.entry.path) == env.canon(e.path) {
      if Ousted(files, e, env) { DistrustSpares(files, u.id, u.entry, e, env); }
      ViewOfTree(files, e, env);
      ViewOfTree(after, e, env);
      if ViewOf(files, e, env).Some? { StillReadable(files, u.id, u.entry, e, env); }
    } else {
      if u.Distrust? { DistrustElsewhere(files, u.id, u.entry, e, env); } else { TakeElsewhere(u, files, e, env); }
      hide Take, ViewOf, BackupPath, Spares, Faithful;
      ViewOfSameFile(files, after, e, env);
    }
  }

  lemma StillReadable(files: Files, id: string, e2: ConfigEntry, e: ConfigEntry, env: Env)
    requires NoFailures(env) && Faithful(env.codec) && Spares(Distrust(id, e2), e, env) &&
               env.canon(e2.path) == env.canon(e.path)
    requires env.canon(BackupPath(e.path)) != env.canon(e.path)
    requires ViewOf(files, e, env).Some?
    ensures ViewOf(DistrustPlugin(files, id, e2, env).files, e, env).Some?
  {
    ViewOfTree(files, e, env);
    ViewOfTree(DistrustPlugin(files, id, e2, env).files, e, env);
    WithdrawKeepsReadable(Pair(files, e2, env), env.codec, e2.at);
    hide Withdraw, ViewOf, StandingOf, Original, Faithful, BackupPath, AreSiblings;
    assert RemovalTroubles(files, e2, env) == NO_REMOVAL_FAULTS;
  }

  lemma {:induction false} TakeAllSpares(us: seq<Undo>, files: Files, e: ConfigEntry, env: Env)
    requires NoFailures(env) && Faithful(env.codec) && env.canon(BackupPath(e.path)) != env.canon(e.path)
    requires forall k :: 0 <= k < |us| ==> Spares(us[k], e, env)
    ensures Ousted(files, e, env) ==> Ousted(TakeAll(us, files, env).files, e, env)
    ensures ViewOf(files, e, env).Some? ==> ViewOf(TakeAll(us, files, env).files, e, env).Some?
    decreases |us|
  {
    hide Take, Spares, Ousted, ViewOf, Faithful, NoFailures, BackupPath;
    if us != [] {
      TakeSpares(us[0], files, e, env);
      TakeAllSpares(us[1..], Take(us[0], files, env).files, e, env);
    }
  }

  lemma {:induction false} TakeSplit(a: seq<Undo>, b: seq<Undo>, files: Files, env: Env)
    ensures var x := TakeAll(a, files, env);
            var y := TakeAll(b, x.files, env);
            TakeAll(a + b, files, env) == Outcome(y.files, x.removals + y.removals)
    decreases |a|
  {
    hide Take;
    if a == [] {
      assert a + b == b;
      assert [] + TakeAll(b, files, env).removals == TakeAll(b, files, env).removals;
    } else {
      assert (a + b)[0] == a[0] && (a + b)[1..] == a[1..] + b;
      var first := Take(a[0], files, env);
      TakeSplit(a[1..], b, first.files, env);
      var x := TakeAll(a[1..], first.files, env);
      var y := TakeAll(b, x.files, env);
      assert first.removals + (x.removals + y.removals) == (first.removals + x.removals) + y.removals;
    }
  }

  lemma TakeOne(u: Undo, files: Files, env: Env)
    ensures TakeAll([u], files, env) == Take(u, files, env)
  {
    hide Take;
    var first := Take(u, files, env);
    assert [u][1..] == [];
    assert first.removals + [] == first.removals;
  }

  lemma TakeDistrust(id: string, e: ConfigEntry, files: Files, env: Env)
    ensures Take(Distrust(id, e), files, env) == DistrustPlugin(files, id, e, env)
  {
  }

  lemma AllDistrust(us: seq<Undo>, k: nat, files: Files, env: Env)
    requires NoFailures(env) && Faithful(env.codec) && k < |us| && us[k].Distrust?
    requires var e := us[k].entry;
             && env.canon(BackupPath(e.path)) != env.canon(e.path)
             && ViewOf(files, e, env).Some?
             && forall j :: 0 <= j < |us| && j != k ==> Spares(us[j], e, env)
    ensures Ousted(TakeAll(us, files, env).files, us[k].entry, env)
  {
    var e := us[k].entry;
    hide *;
    var left, right := us[..k], us[k + 1..];
    assert us == left + ([us[k]] + right);
    var before := TakeAll(left, files, env).files;
    TakeSplit(left, [us[k]] + right, files, env);
    TakeSplit([us[k]], right, before, env);
    TakeOne(us[k], before, env);
    TakeDistrust(us[k].id, e, before, env);
    TakeAllSpares(left, files, e, env);
    DistrustTakes(before, us[k].id, e, env);
    TakeAllSpares(right, Take(us[k], before, env).files, e, env);
  }

  lemma PruningSpares(steps: seq<Step>, files: Files, id: string, e: ConfigEntry, env: Env)
    requires NoFailures(env) && Faithful(env.codec) && Ousted(files, e, env)
    requires forall s :: s in steps ==> IsRetired(s)
    requires forall k :: 0 <= k < |steps| ==> Undisturbed(steps[k], Trust(id, e), env) && ConfigApart(steps[k], env)
    ensures Ousted(RunSteps(steps, files, env, false).files, e, env)
  {
    PruningCreatesNothing(steps, files, env);
    Preview.Refuse(Trust(id, e), files, env);
    hide IsRetired, Undisturbed, ConfigApart, ViewOf, Faithful, BackupPath, Refusable, RunSteps, NoFailures;
    OthersKeepView(steps, Trust(id, e), files, env);
    TrustLooks(id, e, files, RunSteps(steps, files, env, false).files, env);
  }

  /** The config and backup of plugin `k` are touched only for the plugin itself and its siblings. */
  ghost predicate OnlySiblings(m: Manifest, k: nat, env: Env)
    requires k < |UndosOf(m, env)| && UndosOf(m, env)[k].Distrust?
  {
    var us, steps := UndosOf(m, env), RetiredSteps(RetiredOf(m, env));
    && env.canon(BackupPath(us[k].entry.path)) != env.canon(us[k].entry.path)
    && (forall j :: 0 <= j < |us| && j != k ==> Spares(us[j], us[k].entry, env))
    && (forall j :: 0 <= j < |steps| ==>
           Undisturbed(steps[j], Trust(us[k].id, us[k].entry), env) && ConfigApart(steps[j], env))
  }

  /** Main result on trust: after a failure-free uninstall a plugin whose config could be read is
      neither allowed nor enabled. Restoring the backup for one plugin cannot bring back another
      that was taken out before, because the backup goes with the first removal. */
  lemma UninstallDistrusts(m: Manifest, files: Files, env: Env, k: nat)
    requires k < |UndosOf(m, env)| && UndosOf(m, env)[k].Distrust?
    ensures NoFailures(env) && Faithful(env.codec) && OnlySiblings(m, k, env) &&
              ViewOf(files, UndosOf(m, env)[k].entry, env).Some? ==>
              Ousted(AfterUninstall(m, files, env), UndosOf(m, env)[k].entry, env)
  {
    hide UndosOf, RetiredSteps, RetiredOf, TakeAll, RunSteps, Spares, Undisturbed, ConfigApart, ViewOf;
    hide Ousted, Faithful, NoFailures, BackupPath;
    var us := UndosOf(m, env);
    if NoFailures(env) && Faithful(env.codec) && OnlySiblings(m, k, env) && ViewOf(files, us[k].entry, env).Some? {
      AllDistrust(us, k, files, env);
      Ownership.RetiredKinds(RetiredOf(m, env));
      PruningSpares(RetiredSteps(RetiredOf(m, env)), TakeAll(us, files, env).files, us[k].id, us[k].entry, env);
    }
  }

  /** No surface of the manifest gets in the way of retired step `k`: the others touch its config for
      siblings only, and the retired steps leave one another alone. */
  ghost predicate OnlyRetires(m: Manifest, k: nat, env: Env)
    requires k < |RetiredSteps(RetiredOf(m, env))| && RetiredSteps(RetiredOf(m, env))[k].Unplug?
  {
    var us, steps := UndosOf(m, env), RetiredSteps(RetiredOf(m, env));
    && Peaceful(steps, env)
    && (steps[k].rp.entry.Some? ==>
          && env.canon(BackupPath(steps[k].rp.entry.value.path)) != env.canon(steps[k].rp.entry.value.path)
          && forall j :: 0 <= j < |us| ==> Spares(us[j], steps[k].rp.entry.value, env))
  }

  /** Main result on retired plugins: a failure-free uninstall takes them out of every config that could
      be read at its start and deletes their files, whatever backups were restored before. */
  lemma UninstallRetires(m: Manifest, files: Files, env: Env, k: nat)
    requires k < |RetiredSteps(RetiredOf(m, env))| && RetiredSteps(RetiredOf(m, env))[k].Unplug?
    ensures var rp := RetiredSteps(RetiredOf(m, env))[k].rp;
            var after := AfterUninstall(m, files, env);
            Calm(env) && OnlyRetires(m, k, env) &&
            (rp.entry.Some? ==> InConfig(files, rp.entry.value, env) != Unknown) ==>
              && (rp.entry.Some? ==> InConfig(after, rp.entry.value, env) == Clear)
              && Keys(rp.files, env) !! after.Keys
              && Applied(after, rp, env, false) == Result(after, [])
  {
    var steps, rp := RetiredSteps(RetiredOf(m, env)), RetiredSteps(RetiredOf(m, env))[k].rp;
    var middle := TakeAll(UndosOf(m, env), files, env).files;
    CalmParts(env);
    hide UndosOf, RetiredSteps, RetiredOf, TakeAll, Spares, Peaceful, Calm, ViewOf, InConfig, Applied, Keys, BackupPath;
    hide Faithful, NoFailures, RunSteps;
    if Calm(env) && OnlyRetires(m, k, env) && (rp.entry.Some? ==> InConfig(files, rp.entry.value, env) != Unknown) {
      if rp.entry.Some? {
        Preview.InConfigIsView(files, rp.entry.value, env);
        Preview.InConfigIsView(middle, rp.entry.value, env);
        TakeAllSpares(UndosOf(m, env), files, rp.entry.value, env);
      }
      TickRetires(steps, k, middle, env);
      TickIs(steps, middle, env);
    }
  }
}
