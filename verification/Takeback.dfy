/**
 What an uninstall takes back, from the rows of the manifest and the files on disk, and what it never
 touches.
 */
module Takeback {
  import opened Text
  import opened Json
  import opened Paths
  import opened Outcomes
  import opened ConfigFile
  import opened World
  import opened Retired
  import opened Gated
  import opened GatedRun
  import opened RetiredList
  import opened Steps
  import opened Frames
  import opened Ticks
  import opened Manifest
  import opened Uninstall
  import opened Directives
  import opened Surfaces
  import opened Promises
  import BlockScan
  import Splice

  // ---- the rows of an uninstall ------------------------------------------------------------------

  /** One file of a plugin: deleted if it stays inside the plugin's directory, else reported. */
  predicate FileUndo(u: Undo, p: Plugin, pf: SourceFile, env: Env) {
    var dir := PlaceOf(p.installPath, env);
    var dst := Join(dir, pf.name);
    u == if dst == dir || (dir != [] && dir <= dst) then Drop(p.id, PluginFile, dst) else Escape(p.id, dst)
  }

  predicate ConfigUndo(u: Undo, p: Plugin, env: Env) {
    && p.allowList.Some?
    && (var al := p.allowList.value;
        u == Distrust(p.id, ConfigEntry(PlaceOf(al.configPath, env), Place(al.allow, al.entries, p.id))))
  }

  predicate PluginUndo(u: Undo, p: Plugin, env: Env) {
    (exists pf :: pf in p.files && FileUndo(u, p, pf, env)) || ConfigUndo(u, p, env)
  }

  /** A tool, there or not: its copy, its heartbeat, its plugin. */
  predicate ToolUndo(u: Undo, t: Tool, m: Manifest, env: Env) {
    || u == Drop(t.name, SkillFile, CopyOf(t, m, env))
    || (t.heartbeatPath != "" && u == Unblock(t.name, PlaceOf(t.heartbeatPath, env)))
    || (t.plugin.Some? && PluginUndo(u, t.plugin.value, env))
  }

  lemma {:induction false} FileUndosAre(p: Plugin, pfs: seq<SourceFile>, env: Env, u: Undo)
    ensures u in PluginFileUndos(p.id, PlaceOf(p.installPath, env), pfs) <==>
              exists pf :: pf in pfs && FileUndo(u, p, pf, env)
  {
    if pfs != [] {
      var dir := PlaceOf(p.installPath, env);
      PathWithinIsComponentPrefix(dir, Join(dir, pfs[0].name));
      FileUndosAre(p, pfs[1..], env, u);
      hide PathWithin, Join, PlaceOf;
      assert u == PluginFileUndo(p.id, dir, pfs[0]) <==> FileUndo(u, p, pfs[0], env);
      assert forall pf :: pf in pfs <==> pf == pfs[0] || pf in pfs[1..];
    }
  }

  lemma PluginUndosAre(p: Plugin, env: Env, u: Undo)
    ensures u in PluginUndos(Some(p), env) <==> PluginUndo(u, p, env)
    ensures u !in PluginUndos(None, env)
  {
    FileUndosAre(p, p.files, env, u);
    hide PluginFileUndos, PlaceOf, FileUndo;
  }

  lemma ToolUndosAre(t: Tool, m: Manifest, env: Env, u: Undo)
    ensures u in ToolUndos(t, m, env) <==> ToolUndo(u, t, m, env)
  {
    hide PluginUndos, PlaceOf, PluginUndo, CopyOf, SkillPathOf;
    CopyOfIs(t, m, env);
    if t.plugin.Some? {
      PluginUndosAre(t.plugin.value, env, u);
    } else {
      PluginUndosAre(Plugin("", "", [], None), env, u);
    }
  }

  lemma {:induction false} AllToolUndosAre(ts: seq<Tool>, m: Manifest, env: Env, u: Undo)
    ensures u in AllToolUndos(ts, m, env) <==> exists t :: t in ts && ToolUndo(u, t, m, env)
  {
    hide ToolUndos, ToolUndo;
    if ts != [] {
      ToolUndosAre(ts[0], m, env, u);
      AllToolUndosAre(ts[1..], m, env, u);
      assert forall t :: t in ts <==> t == ts[0] || t in ts[1..];
    }
  }

  lemma {:induction false} HelperUndosAre(hs: seq<Helper>, env: Env, u: Undo)
    ensures u in HelperUndos(hs, env) <==> exists h :: h in hs && u == Drop(h.name, HelperFile, PlaceOf(h.dst, env))
  {
    hide PlaceOf;
    if hs != [] {
      HelperUndosAre(hs[1..], env, u);
      assert forall h :: h in hs <==> h == hs[0] || h in hs[1..];
    }
  }

  lemma {:induction false} GateUndosAre(gts: seq<GatedTool>, m: Manifest, u: Undo)
    ensures u in GateUndos(gts, m) <==> exists gt :: gt in gts && u == Ungate(gt, m.entrypoint)
  {
    if gts != [] {
      GateUndosAre(gts[1..], m, u);
      assert forall gt :: gt in gts <==> gt == gts[0] || gt in gts[1..];
    }
  }

  /** Main result on the list of an uninstall: it takes back exactly what some row of the manifest asks for. */
  lemma UndosAreRows(m: Manifest, env: Env)
    ensures forall u ::
              u in UndosOf(m, env) <==>
                || (exists h :: h in m.helpers && u == Drop(h.name, HelperFile, PlaceOf(h.dst, env)))
                || (exists t :: t in m.tools && ToolUndo(u, t, m, env))
                || (exists gt :: gt in m.gated && u == Ungate(gt, m.entrypoint))
  {
    hide HelperUndos, AllToolUndos, GateUndos, ToolUndo, PlaceOf;
    forall u
      ensures u in UndosOf(m, env) <==>
                || (exists h :: h in m.helpers && u == Drop(h.name, HelperFile, PlaceOf(h.dst, env)))
                || (exists t :: t in m.tools && ToolUndo(u, t, m, env))
                || (exists gt :: gt in m.gated && u == Ungate(gt, m.entrypoint))
    {
      HelperUndosAre(m.helpers, env, u);
      AllToolUndosAre(m.tools, m, env, u);
      GateUndosAre(m.gated, m, u);
    }
  }

  // ---- owned files ---------------------------------------------------------------------------------

  lemma DroppedIsGone(m: Manifest, files: Files, env: Env, u: Undo)
    requires u.Drop? && u in UndosOf(m, env)
    ensures NoFailures(env) ==> env.canon(u.path) !in AfterUninstall(m, files, env)
  {
    hide UndosOf, AfterUninstall, NoFailures;
    if NoFailures(env) {
      var k :| 0 <= k < |UndosOf(m, env)| && UndosOf(m, env)[k] == u;
      UninstallDeletes(m, files, env, k);
    }
  }

  /** No helper of the manifest is left. */
  lemma HelperIsRemoved(m: Manifest, files: Files, env: Env, h: Helper)
    requires h in m.helpers
    ensures NoFailures(env) ==> env.canon(PlaceOf(h.dst, env)) !in AfterUninstall(m, files, env)
  {
    hide UndosOf, AfterUninstall, PlaceOf, ToolUndo;
    UndosAreRows(m, env);
    DroppedIsGone(m, files, env, Drop(h.name, HelperFile, PlaceOf(h.dst, env)));
  }

  /** No tool has its copy of the skill any more, whether or not the tool is there. */
  lemma CopyIsRemoved(m: Manifest, files: Files, env: Env, t: Tool)
    requires t in m.tools
    ensures NoFailures(env) && ValidIdentifier(m.entrypoint) ==>
              var file := if t.flat then [m.entrypoint + ".md"] else [m.entrypoint, "SKILL.md"];
              && Clean(PlaceOf(t.skillsDir, env) + file)
              && env.canon(PlaceOf(t.skillsDir, env) + file) !in AfterUninstall(m, files, env)
  {
    hide UndosOf, AfterUninstall, PlaceOf, PluginUndo, CopyOf;
    UndosAreRows(m, env);
    var u := Drop(t.name, SkillFile, CopyOf(t, m, env));
    assert ToolUndo(u, t, m, env);
    DroppedIsGone(m, files, env, u);
    if ValidIdentifier(m.entrypoint) { CopyIsBelow(t, m, env); }
  }

  lemma PluginUndoIsListed(m: Manifest, env: Env, t: Tool, u: Undo)
    requires t in m.tools && t.plugin.Some? && PluginUndo(u, t.plugin.value, env)
    ensures u in UndosOf(m, env)
  {
    hide UndosOf, PluginUndo, PlaceOf, CopyOf;
    UndosAreRows(m, env);
    assert ToolUndo(u, t, m, env);
  }

  /** No file of a plugin is left, if it stays inside the plugin's directory. */
  lemma PluginFileIsRemoved(m: Manifest, files: Files, env: Env, t: Tool, pf: SourceFile)
    requires t in m.tools && t.plugin.Some? && pf in t.plugin.value.files
    ensures var dir := PlaceOf(t.plugin.value.installPath, env);
            NoFailures(env) && dir != [] && dir <= Join(dir, pf.name) ==>
              env.canon(Join(dir, pf.name)) !in AfterUninstall(m, files, env)
  {
    hide UndosOf, AfterUninstall, PlaceOf, Join, NoFailures;
    var p := t.plugin.value;
    var dir := PlaceOf(p.installPath, env);
    if dir != [] && dir <= Join(dir, pf.name) {
      var u := Drop(p.id, PluginFile, Join(dir, pf.name));
      assert FileUndo(u, p, pf, env);
      PluginUndoIsListed(m, env, t, u);
      DroppedIsGone(m, files, env, u);
    }
  }

  // ---- trust -----------------------------------------------------------------------------------------

  /** The plugin's place in its config. */
  function ConfigEntryOf(p: Plugin, env: Env): ConfigEntry
    requires p.allowList.Some?
  {
    var al := p.allowList.value;
    ConfigEntry(PlaceOf(al.configPath, env), Place(al.allow, al.entries, p.id))
  }

  /** Nothing else of the manifest touches the config or its sidecar, but for siblings. */
  ghost predicate OnlySiblingsOf(m: Manifest, id: string, e: ConfigEntry, env: Env) {
    && env.canon(BackupPath(e.path)) != env.canon(e.path)
    && (forall u :: u in UndosOf(m, env) ==> Spares(u, e, env))
    && (forall s :: s in RetiredSteps(RetiredOf(m, env)) ==> Undisturbed(s, Trust(id, e), env) && ConfigApart(s, env))
  }

  /** The config, if it is there, parses, and neither allows nor enables the id; and there is no sidecar. */
  predicate ConfigDistrusts(files: Files, e: ConfigEntry, env: Env) {
    && env.canon(BackupPath(e.path)) !in files
    && (env.canon(e.path) in files ==>
          && env.codec.parse(files[env.canon(e.path)]).Some?
          && (var o := env.codec.parse(files[env.canon(e.path)]).value;
              && Str(e.at.id) !in Items(o, e.at.allow)
              && Get(o, e.at.entries + [e.at.id, "enabled"]) != Some(Bool(true))))
  }

  lemma OustedMeansDistrusts(files: Files, e: ConfigEntry, env: Env)
    requires NoFailures(env)
    ensures Ousted(files, e, env) ==> ConfigDistrusts(files, e, env)
  {
    hide Get, Items, BackupPath;
  }

  /** Main result on trust: after a failure-free uninstall every plugin of the manifest whose config
      could be read, of tools that are there or not, is neither allowed nor enabled in it, and its
      sidecar is gone. */
  lemma PluginIsDistrusted(m: Manifest, files: Files, env: Env, t: Tool)
    requires t in m.tools && t.plugin.Some? && t.plugin.value.allowList.Some?
    ensures var e := ConfigEntryOf(t.plugin.value, env);
            NoFailures(env) && Faithful(env.codec) && OnlySiblingsOf(m, t.plugin.value.id, e, env) &&
            ConfigReads(files, e.path, env) ==>
              ConfigDistrusts(AfterUninstall(m, files, env), e, env)
  {
    hide *;
    var p := t.plugin.value;
    var e := ConfigEntryOf(p, env);
    var u := Distrust(p.id, e);
    ConfigUndoIs(p, env);
    PluginUndoIsListed(m, env, t, u);
    if NoFailures(env) && Faithful(env.codec) && OnlySiblingsOf(m, p.id, e, env) && ConfigReads(files, e.path, env) {
      var k :| 0 <= k < |UndosOf(m, env)| && UndosOf(m, env)[k] == u;
      ReadsMeansView(files, e, env);
      SiblingsByIndex(m, k, env);
      UninstallDistrusts(m, files, env, k);
      OustedMeansDistrusts(AfterUninstall(m, files, env), e, env);
    }
  }

  lemma ConfigUndoIs(p: Plugin, env: Env)
    requires p.allowList.Some?
    ensures PluginUndo(Distrust(p.id, ConfigEntryOf(p, env)), p, env)
  {
    hide PlaceOf, FileUndo;
  }

  lemma SiblingsByIndex(m: Manifest, k: nat, env: Env)
    requires k < |UndosOf(m, env)| && UndosOf(m, env)[k].Distrust?
    ensures OnlySiblingsOf(m, UndosOf(m, env)[k].id, UndosOf(m, env)[k].entry, env) ==> OnlySiblings(m, k, env)
  {
    hide UndosOf, RetiredSteps, RetiredOf, Spares, Undisturbed, ConfigApart, BackupPath;
    var us, steps := UndosOf(m, env), RetiredSteps(RetiredOf(m, env));
    assert forall j :: 0 <= j < |us| ==> us[j] in us;
    assert forall j :: 0 <= j < |steps| ==> steps[j] in steps;
  }

  // ---- heartbeats ------------------------------------------------------------------------------------

  /** A heartbeat file of any tool is stripped, whether or not the tool is there or has a template. */
  lemma HeartbeatIsUnblocked(m: Manifest, env: Env, t: Tool) returns (u: Undo)
    requires t in m.tools && t.heartbeatPath != ""
    ensures u in UndosOf(m, env) && u.Unblock? && env.canon(u.path) == env.canon(PlaceOf(t.heartbeatPath, env))
  {
    hide UndosOf, PlaceOf, PluginUndo, CopyOf;
    UndosAreRows(m, env);
    u := Unblock(t.name, PlaceOf(t.heartbeatPath, env));
    assert ToolUndo(u, t, m, env);
  }

  // ---- what is not touched -----------------------------------------------------------------------------

  /** The files an undo may change. */
  ghost function UndoWrites(u: Undo, env: Env): set<AbsPath> {
    match u
    case Drop(_, _, path) => {env.canon(path)}
    case Unblock(_, path) => {env.canon(path)}
    case Distrust(_, e) => {env.canon(e.path), env.canon(BackupPath(e.path))}
    case Ungate(gt, entrypoint) =>
      if CopyPath(gt, entrypoint, env.home).Some? then {env.canon(CopyPath(gt, entrypoint, env.home).value)} else {}
    case Escape(_, _) => {}
  }

  lemma UngateFrame(files: Files, gt: GatedTool, entrypoint: string, env: Env)
    ensures AgreeOff(files, UngateTool(files, gt, entrypoint, env).files, UndoWrites(Ungate(gt, entrypoint), env))
  {
    hide MarkerPath, ReadMarker, ResolveTarget, Attests, LinkOnWay, MarkerNames, CopyPath, UngateTool, Deletes;
    UngateDeletes(files, gt, entrypoint, env);
    UngateRemovesWhen(files, gt, entrypoint, env);
    StandsSomewhere(gt, entrypoint, env);
  }

  lemma DistrustFrame(files: Files, id: string, e: ConfigEntry, env: Env)
    ensures AgreeOff(files, DistrustPlugin(files, id, e, env).files, UndoWrites(Distrust(id, e), env))
  {
    hide Withdraw, BackupPath;
  }

  lemma TakeFrame(u: Undo, files: Files, env: Env)
    ensures AgreeOff(files, Take(u, files, env).files, UndoWrites(u, env))
  {
    hide DistrustPlugin, UngateTool, BlockScan.Blocks, Splice.Kept, BackupPath, CopyPath;
    match u
    case Distrust(id, e) => DistrustFrame(files, id, e, env);
    case Ungate(gt, entrypoint) => UngateFrame(files, gt, entrypoint, env);
    case _ =>
  }

  lemma {:induction false} TakeAllSpare(us: seq<Undo>, files: Files, env: Env, keys: set<AbsPath>)
    requires forall u :: u in us ==> UndoWrites(u, env) !! keys
    ensures AgreeOn(files, TakeAll(us, files, env).files, keys)
    decreases |us|
  {
    hide Take, UndoWrites;
    if us != [] {
      assert us[0] in us && forall u :: u in us[1..] ==> u in us;
      TakeFrame(us[0], files, env);
      TakeAllSpare(us[1..], Take(us[0], files, env).files, env, keys);
    }
  }

  /** Some row of the manifest names the file, for taking it back. */
  ghost predicate NamedToRemove(k: AbsPath, m: Manifest, env: Env) {
    || (exists h :: h in m.helpers && k == env.canon(PlaceOf(h.dst, env)))
    || (exists t :: t in m.tools && NamedByTool(k, t, m, env))
    || (exists gt :: gt in m.gated && CopyPath(gt, m.entrypoint, env.home).Some? &&
           k == env.canon(CopyPath(gt, m.entrypoint, env.home).value))
    || (exists e :: e in RetiredMarkers(m) && MarkerGone(e, m, env) && k == env.canon(Expand(e.path, env.home).value))
    || (exists e :: e in RetiredPlugins(m) && PluginGone(e, m, env) && NamedByRetired(k, e, env))
    || (exists e :: e in RetiredHelpers(m) && HelperGone(e, m, env) && k == env.canon(Expand(e.dst, env.home).value))
  }

  /** A tool's copy, its heartbeat file, or a file of its plugin. */
  ghost predicate NamedByTool(k: AbsPath, t: Tool, m: Manifest, env: Env) {
    || k == env.canon(CopyOf(t, m, env))
    || (t.heartbeatPath != "" && k == env.canon(PlaceOf(t.heartbeatPath, env)))
    || (t.plugin.Some? && NamedByPlugin(k, t.plugin.value, env))
  }

  lemma PluginUndoIsNamed(k: AbsPath, u: Undo, p: Plugin, env: Env)
    requires PluginUndo(u, p, env) && k in UndoWrites(u, env)
    ensures NamedByPlugin(k, p, env)
  {
    hide PlaceOf, Join, BackupPath;
  }

  lemma UndoIsNamed(k: AbsPath, u: Undo, m: Manifest, env: Env)
    requires u in UndosOf(m, env) && k in UndoWrites(u, env)
    ensures NamedToRemove(k, m, env)
  {
    hide UndosOf, PlaceOf, CopyOf, PluginUndo, NamedByPlugin, NamedByRetired, CopyPath, MarkerGone, PluginGone;
    hide HelperGone, Expand, RetiredMarkers, RetiredPlugins, RetiredHelpers, BackupPath;
    UndosAreRows(m, env);
    if t :| t in m.tools && ToolUndo(u, t, m, env) {
      if t.plugin.Some? && PluginUndo(u, t.plugin.value, env) { PluginUndoIsNamed(k, u, t.plugin.value, env); }
      assert NamedByTool(k, t, m, env);
    }
  }

  lemma RetiredStepIsNamed(k: AbsPath, s: Step, m: Manifest, env: Env)
    requires s in RetiredSteps(RetiredOf(m, env)) && k in Writes(s, env) + ConfigKeys(s, env)
    ensures NamedToRemove(k, m, env)
  {
    hide *;
    PartsOfTick(m, SMALLEST, env, s);
    UnmarkStepsAre(m, env, s);
    UnownStepsAre(m, env, s);
    UnplugStepsAre(m, env);
    if s in UnmarkSteps(RetiredOf(m, env).markers) {
      var i :| 0 <= i < |RetiredMarkers(m)| && UnmarkRow(s, m, env, i);
      UnmarkIsNamedToRemove(k, s, i, m, env);
    } else if s in UnownSteps(RetiredOf(m, env).helpers) {
      var i :| 0 <= i < |RetiredHelpers(m)| && UnownRow(s, m, env, i);
      UnownIsNamedToRemove(k, s, i, m, env);
    } else {
      var i :| 0 <= i < |RetiredPlugins(m)| && UnplugRow(s, m, env, i);
      UnplugIsNamedToRemove(k, s, i, m, env);
    }
  }

  /** Nothing fetched. */
  const SMALLEST := Fetched("", (s: string) => None, (t: string, p: AbsPath) => None)

  lemma UnmarkIsNamedToRemove(k: AbsPath, s: Step, i: nat, m: Manifest, env: Env)
    requires i < |RetiredMarkers(m)| && UnmarkRow(s, m, env, i) && k in Writes(s, env) + ConfigKeys(s, env)
    ensures NamedToRemove(k, m, env)
  {
    hide PlaceOf, NamedByTool, NamedByRetired, MarkerGone, RetiredMarkers, CopyPath, Expand;
    assert RetiredMarkers(m)[i] in RetiredMarkers(m);
  }

  lemma UnownIsNamedToRemove(k: AbsPath, s: Step, i: nat, m: Manifest, env: Env)
    requires i < |RetiredHelpers(m)| && UnownRow(s, m, env, i) && k in Writes(s, env) + ConfigKeys(s, env)
    ensures NamedToRemove(k, m, env)
  {
    hide PlaceOf, NamedByTool, NamedByRetired, HelperGone, RetiredHelpers, CopyPath, Expand;
    assert RetiredHelpers(m)[i] in RetiredHelpers(m);
  }

  lemma UnplugIsNamedToRemove(k: AbsPath, s: Step, i: nat, m: Manifest, env: Env)
    requires i < |RetiredPlugins(m)| && UnplugRow(s, m, env, i) && k in Writes(s, env) + ConfigKeys(s, env)
    ensures NamedToRemove(k, m, env)
  {
    hide PlaceOf, NamedByTool, PluginGone, RetiredPlugins, CopyPath, Expand, FileGone, ConfigGone;
    UnplugRowHolds(s, m, env, i);
    var e := RetiredPlugins(m)[i];
    assert e in RetiredPlugins(m);
    assert NamedByRetired(k, e, env);
  }

  /** Main result on what an uninstall leaves alone: whatever fails, a file that no row of the manifest
      names is as before. */
  lemma UninstallTouchesOnlyNamed(m: Manifest, files: Files, env: Env, k: AbsPath)
    requires !NamedToRemove(k, m, env)
    ensures AgreeOn(files, AfterUninstall(m, files, env), {k})
  {
    hide *;
    forall u | u in UndosOf(m, env) ensures UndoWrites(u, env) !! {k} {
      if k in UndoWrites(u, env) { UndoIsNamed(k, u, m, env); }
    }
    TakeAllSpare(UndosOf(m, env), files, env, {k});
    var middle := TakeAll(UndosOf(m, env), files, env).files;
    forall s | s in RetiredSteps(RetiredOf(m, env)) ensures k !in Writes(s, env) + ConfigKeys(s, env) {
      if k in Writes(s, env) + ConfigKeys(s, env) { RetiredStepIsNamed(k, s, m, env); }
    }
    SparedByAll(RetiredSteps(RetiredOf(m, env)), middle, env, false, k);
    AgreeTrans(files, middle, RunSteps(RetiredSteps(RetiredOf(m, env)), middle, env, false).files, {k});
    AfterUninstallIs(m, files, env);
  }

  lemma AgreeTrans(a: Files, b: Files, c: Files, keys: set<AbsPath>)
    ensures AgreeOn(a, b, keys) && AgreeOn(b, c, keys) ==> AgreeOn(a, c, keys)
  {
  }

  lemma AfterUninstallIs(m: Manifest, files: Files, env: Env)
    ensures AfterUninstall(m, files, env) ==
            RunSteps(RetiredSteps(RetiredOf(m, env)), TakeAll(UndosOf(m, env), files, env).files, env, false).files
  {
    hide RunSteps, RetiredSteps, RetiredOf, TakeAll, UndosOf;
  }

  // ---- gated rows --------------------------------------------------------------------------------------

  /** The marker file of a gated row. */
  function MarkerFileOf(gt: GatedTool, env: Env): set<AbsPath> {
    if Expand(gt.requireMarker, env.home).Some? then {env.canon(Expand(gt.requireMarker, env.home).value)} else {}
  }

  /** Nothing else of the manifest touches the row's copy or its marker. */
  ghost predicate GateAlone(m: Manifest, gt: GatedTool, env: Env) {
    && CopyPath(gt, m.entrypoint, env.home).Some?
    && (var key := env.canon(CopyPath(gt, m.entrypoint, env.home).value);
        && key !in MarkerFileOf(gt, env)
        && (forall u :: u in UndosOf(m, env) ==>
              u == Ungate(gt, m.entrypoint) || UndoWrites(u, env) !! MarkerFileOf(gt, env) + {key})
        && (forall s :: s in RetiredSteps(RetiredOf(m, env)) ==> key !in Writes(s, env) + ConfigKeys(s, env)))
  }

  lemma MarkerNamesLocal(a: Files, b: Files, gt: GatedTool, env: Env)
    requires AgreeOn(a, b, MarkerFileOf(gt, env))
    ensures MarkerNames(a, gt, env) <==> MarkerNames(b, gt, env)
  {
    hide Expand, Declared;
  }

  lemma UngateOnce(files: Files, gt: GatedTool, entrypoint: string, env: Env)
    requires CopyPath(gt, entrypoint, env.home).Some? && NoFailures(env)
    requires env.canon(CopyPath(gt, entrypoint, env.home).value) !in MarkerFileOf(gt, env)
    ensures var key := env.canon(CopyPath(gt, entrypoint, env.home).value);
            var after := Take(Ungate(gt, entrypoint), files, env).files;
            && AgreeOn(files, after, MarkerFileOf(gt, env))
            && (if MarkerNames(files, gt, env) && Stands(gt, entrypoint, env) then key !in after else after == files)
  {
    hide UngateTool, MarkerNames, Stands, CopyPath, MarkerFileOf, Deletes;
    UngateDeletes(files, gt, entrypoint, env);
    UngateRemovesWhen(files, gt, entrypoint, env);
  }

  lemma {:induction false} UngateRun(us: seq<Undo>, files: Files, gt: GatedTool, entrypoint: string, env: Env)
    requires CopyPath(gt, entrypoint, env.home).Some? && NoFailures(env)
    requires var key := env.canon(CopyPath(gt, entrypoint, env.home).value);
             && key !in MarkerFileOf(gt, env)
             && forall u :: u in us ==>
                  u == Ungate(gt, entrypoint) || UndoWrites(u, env) !! MarkerFileOf(gt, env) + {key}
    ensures var key := env.canon(CopyPath(gt, entrypoint, env.home).value);
            var after := TakeAll(us, files, env).files;
            && (MarkerNames(files, gt, env) && Stands(gt, entrypoint, env) ==>
                  (Ungate(gt, entrypoint) in us || key !in files ==> key !in after))
            && (!(MarkerNames(files, gt, env) && Stands(gt, entrypoint, env)) ==> AgreeOn(files, after, {key}))
    decreases |us|
  {
    hide Take, UndoWrites, MarkerNames, Stands, CopyPath, MarkerFileOf, NoFailures;
    if us != [] {
      var key := env.canon(CopyPath(gt, entrypoint, env.home).value);
      var next := Take(us[0], files, env).files;
      assert us[0] in us && forall u :: u in us[1..] ==> u in us;
      if us[0] == Ungate(gt, entrypoint) {
        UngateOnce(files, gt, entrypoint, env);
      } else {
        TakeFrame(us[0], files, env);
      }
      MarkerNamesLocal(files, next, gt, env);
      UngateRun(us[1..], next, gt, entrypoint, env);
      assert Ungate(gt, entrypoint) in us <==> us[0] == Ungate(gt, entrypoint) || Ungate(gt, entrypoint) in us[1..];
    }
  }

  /** Main result on gated rows: a failure-free uninstall deletes a row's copy if the marker names the row
      and it stands; and while the marker does not name it, or it does not stand, the file in that place
      is as before. */
  lemma GatedCopyIsRemoved(m: Manifest, files: Files, env: Env, gt: GatedTool)
    requires gt in m.gated && CopyPath(gt, m.entrypoint, env.home).Some?
    ensures var key := env.canon(CopyPath(gt, m.entrypoint, env.home).value);
            var after := AfterUninstall(m, files, env);
            NoFailures(env) && GateAlone(m, gt, env) ==>
              if MarkerNames(files, gt, env) && Stands(gt, m.entrypoint, env) then key !in after
              else AgreeOn(files, after, {key})
  {
    hide UndosOf, RetiredSteps, RetiredOf, CopyPath, MarkerNames, Stands, MarkerFileOf, UndoWrites, NoFailures;
    hide ToolUndo, PlaceOf, TakeAll, RunSteps, Writes, ConfigKeys;
    if NoFailures(env) && GateAlone(m, gt, env) {
      var key := env.canon(CopyPath(gt, m.entrypoint, env.home).value);
      var middle := TakeAll(UndosOf(m, env), files, env).files;
      UndosAreRows(m, env);
      UngateRun(UndosOf(m, env), files, gt, m.entrypoint, env);
      SparedByAll(RetiredSteps(RetiredOf(m, env)), middle, env, false, key);
    }
  }

  // ---- retired plugins ---------------------------------------------------------------------------------

  /** Nothing the manifest manages touches the retired plugin's config or its sidecar, but for siblings. */
  ghost predicate ConfigSpared(m: Manifest, e: ConfigEntry, env: Env) {
    && env.canon(BackupPath(e.path)) != env.canon(e.path)
    && forall u :: u in UndosOf(m, env) ==> Spares(u, e, env)
  }

  /** Main result on retired plugins: a failure-free uninstall takes the id of an entry that goes out of a
      config that parsed when it began, and deletes every file of the entry, whatever was restored before. */
  lemma RetiredPluginIsRemoved(m: Manifest, files: Files, env: Env, i: nat)
    requires i < |RetiredPlugins(m)| && PluginGoes(m, env, i)
    ensures var e := RetiredPlugins(m)[i];
            var config := ConfigGone(e, env);
            var after := AfterUninstall(m, files, env);
            NoFailures(env) && Faithful(env.codec) && Peaceful(RetiredSteps(RetiredOf(m, env)), env) &&
            (config.Some? ==> ConfigSpared(m, config.value, env) && ConfigReads(files, config.value.path, env)) ==>
              && (config.Some? ==> SaysNothing(after, config.value, env))
              && (forall p :: FileGone(p, e, env) ==> env.canon(p) !in after)
  {
    hide *;
    var e := RetiredPlugins(m)[i];
    var config := ConfigGone(e, env);
    var steps := RetiredSteps(RetiredOf(m, env));
    var after := AfterUninstall(m, files, env);
    CalmParts(env);
    var s := PluginHasStep(m, SMALLEST, env, i);
    UnplugRowHolds(s, m, env, i);
    if NoFailures(env) && Faithful(env.codec) && Peaceful(steps, env) &&
      (config.Some? ==> ConfigSpared(m, config.value, env) && ConfigReads(files, config.value.path, env))
    {
      var k :| 0 <= k < |steps| && steps[k] == s;
      SparedByIndex(m, k, env);
      if config.Some? {
        ClearSaysNothing(files, config.value, env);
        ReadsIs(files, config.value.path, env);
        ClearSaysNothing(after, config.value, env);
        NothingUnreadable(env);
      }
      UninstallRetires(m, files, env, k);
    }
  }

  lemma NothingUnreadable(env: Env)
    ensures NoFailures(env) ==> env.unreadable == {} && env.locked == {}
  {
  }

  lemma SparedByIndex(m: Manifest, k: nat, env: Env)
    requires k < |RetiredSteps(RetiredOf(m, env))| && RetiredSteps(RetiredOf(m, env))[k].Unplug?
    ensures var rp := RetiredSteps(RetiredOf(m, env))[k].rp;
            (rp.entry.Some? ==> ConfigSpared(m, rp.entry.value, env)) && Peaceful(RetiredSteps(RetiredOf(m, env)), env)
            ==> OnlyRetires(m, k, env)
  {
    hide UndosOf, RetiredSteps, RetiredOf, Spares, Peaceful, BackupPath;
    assert forall j :: 0 <= j < |UndosOf(m, env)| ==> UndosOf(m, env)[j] in UndosOf(m, env);
  }

  /** A file of the entry that no other row takes back is in one store and not in the other. */
  ghost predicate LosesFile(m: Manifest, e: PluginEntry, files: Files, after: Files, env: Env)
    requires Expand(e.installPath, env.home).Some?
  {
    exists p :: FileGone(p, e, env) && Untaken(m, env.canon(p), env) && env.canon(p) in files && env.canon(p) !in after
  }

  ghost predicate Untaken(m: Manifest, key: AbsPath, env: Env) {
    forall u :: u in UndosOf(m, env) ==> key !in UndoWrites(u, env)
  }

  /** Whatever fails: if a file of the entry that no other row takes back goes in an uninstall, the config
      lists the id at neither of its paths at the end. */
  lemma RetiredFilesAreRemovedSafely(m: Manifest, files: Files, env: Env, i: nat)
    requires i < |RetiredPlugins(m)| && PluginGoes(m, env, i)
    requires ConfigGone(RetiredPlugins(m)[i], env).Some?
    ensures var e := RetiredPlugins(m)[i];
            var config := ConfigGone(e, env).value;
            var after := AfterUninstall(m, files, env);
            Faithful(env.codec) && Peaceful(RetiredSteps(RetiredOf(m, env)), env) &&
            env.canon(config.path) !in env.unreadable && LosesFile(m, e, files, after, env) ==>
              SaysNothing(after, config, env)
  {
    hide *;
    var e := RetiredPlugins(m)[i];
    var config := ConfigGone(e, env).value;
    var steps := RetiredSteps(RetiredOf(m, env));
    var middle := TakeAll(UndosOf(m, env), files, env).files;
    var after := AfterUninstall(m, files, env);
    var s := PluginHasStep(m, SMALLEST, env, i);
    UnplugRowHolds(s, m, env, i);
    AfterUninstallIs(m, files, env);
    if Faithful(env.codec) && Peaceful(steps, env) && env.canon(config.path) !in env.unreadable &&
      LosesFile(m, e, files, after, env)
    {
      var p := LostFile(m, e, files, after, env);
      TakeAllSpare(UndosOf(m, env), files, env, {env.canon(p)});
      AgreeAt(files, middle, {env.canon(p)}, env.canon(p));
      var k :| 0 <= k < |steps| && steps[k] == s;
      UnplugRefusable(s, middle, env);
      TickIs(steps, middle, env);
      TickRetiresSafely(steps, k, middle, env);
      ClearSaysNothing(after, config, env);
    }
  }

  lemma LostFile(m: Manifest, e: PluginEntry, files: Files, after: Files, env: Env) returns (p: AbsPath)
    requires Expand(e.installPath, env.home).Some? && LosesFile(m, e, files, after, env)
    ensures FileGone(p, e, env) && env.canon(p) in files && env.canon(p) !in after
    ensures forall u :: u in UndosOf(m, env) ==> UndoWrites(u, env) !! {env.canon(p)}
  {
    hide FileGone, UndosOf, UndoWrites, Expand;
    p :| FileGone(p, e, env) && Untaken(m, env.canon(p), env) && env.canon(p) in files && env.canon(p) !in after;
  }

  // ---- in which order ------------------------------------------------------------------------------------

  /** Helpers, tools, gated rows. */
  function UndoRank(u: Undo): nat {
    match u
    case Drop(_, kind, _) => if kind == HelperFile then 0 else 1
    case Unblock(_, _) => 1
    case Distrust(_, _) => 1
    case Escape(_, _) => 1
    case Ungate(_, _) => 2
  }

  lemma HelperUndoRank(hs: seq<Helper>, env: Env)
    ensures forall u :: u in HelperUndos(hs, env) ==> UndoRank(u) == 0
  {
    hide PlaceOf, HelperUndos;
    forall u | u in HelperUndos(hs, env) ensures UndoRank(u) == 0 { HelperUndosAre(hs, env, u); }
  }

  lemma ToolUndoRank(ts: seq<Tool>, m: Manifest, env: Env)
    ensures forall u :: u in AllToolUndos(ts, m, env) ==> UndoRank(u) == 1
  {
    hide PlaceOf, AllToolUndos, Join, CopyOf;
    forall u | u in AllToolUndos(ts, m, env) ensures UndoRank(u) == 1 { AllToolUndosAre(ts, m, env, u); }
  }

  lemma GateUndoRank(gts: seq<GatedTool>, m: Manifest)
    ensures forall u :: u in GateUndos(gts, m) ==> UndoRank(u) == 2
  {
    hide GateUndos;
    forall u | u in GateUndos(gts, m) ensures UndoRank(u) == 2 { GateUndosAre(gts, m, u); }
  }

  /** Main result on order: an uninstall takes helpers first, then tools, then gated rows. */
  lemma UndosInOrder(m: Manifest, env: Env, i: nat, j: nat)
    requires i < j < |UndosOf(m, env)|
    ensures UndoRank(UndosOf(m, env)[i]) <= UndoRank(UndosOf(m, env)[j])
  {
    hide UndoRank, HelperUndos, AllToolUndos, GateUndos;
    var a, b, c := HelperUndos(m.helpers, env), AllToolUndos(m.tools, m, env), GateUndos(m.gated, m);
    HelperUndoRank(m.helpers, env);
    ToolUndoRank(m.tools, m, env);
    GateUndoRank(m.gated, m);
    var all := UndosOf(m, env);
    forall k | 0 <= k < |all|
      ensures UndoRank(all[k]) == if k < |a| then 0 else if k < |a| + |b| then 1 else 2
    {
      if k < |a| { assert all[k] in a; } else if k < |a| + |b| { assert all[k] == b[k - |a|]; } else {
        assert all[k] == c[k - |a| - |b|];
      }
    }
  }
}
