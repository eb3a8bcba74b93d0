/**
 The rows of a manifest and the steps of its tick: each step is there because of a row, and each row
 that has its turn is there as a step. The rows are spelled out in the manifest's own words.
 */
module Surfaces {
  import opened Text
  import opened Render
  import opened Heartbeat
  import opened Paths
  import opened Outcomes
  import opened ConfigFile
  import opened World
  import opened Retired
  import opened Gated
  import opened GatedRun
  import opened RetiredList
  import opened Steps
  import opened Manifest
  import opened Directives
  import MuseShell
  import Ownership

  // ---- rows of tools ---------------------------------------------------------------------------

  /** The tool's root directory is there. */
  predicate OnHost(t: Tool, env: Env) {
    PlaceOf(t.rootDir, env) in env.dirs
  }

  /** The tool is there, has a heartbeat, and its template renders to something that can be written. */
  predicate Renders(t: Tool, m: Manifest, f: Fetched, env: Env) {
    && OnHost(t, env) && t.heartbeatPath != "" && t.template != ""
    && f.render(t.template, CopyOf(t, m, env)).Some?
    && ValidRef(f.render(t.template, CopyOf(t, m, env)).value)
  }

  /** The block the tool renders: the body, and the hashes of the skill and of both together. */
  function BlockFor(t: Tool, m: Manifest, f: Fetched, env: Env): Directive
    requires Renders(t, m, f, env)
  {
    var ref := f.render(t.template, CopyOf(t, m, env)).value;
    Directive(ref, Short(env.sha(f.skill)), Short(env.sha(Covered(env.sha(f.skill), ref))))
  }

  function BeatFile(t: Tool, env: Env): AbsPath {
    env.canon(PlaceOf(t.heartbeatPath, env))
  }

  /** A tool before tool `i` beats in the same file. */
  ghost predicate Taken(m: Manifest, f: Fetched, env: Env, i: nat)
    requires i < |m.tools|
  {
    exists j :: 0 <= j < i && Renders(m.tools[j], m, f, env) && BeatFile(m.tools[j], env) == BeatFile(m.tools[i], env)
  }

  /** Tool `i` gets as far as its plugin: it is there and has a heartbeat, whose block is written for it
      or for a tool before it. */
  ghost predicate PluginTurn(m: Manifest, f: Fetched, env: Env, i: nat)
    requires i < |m.tools|
  {
    var t := m.tools[i];
    && OnHost(t, env) && t.heartbeatPath != "" && t.template != ""
    && (Taken(m, f, env, i) || Renders(t, m, f, env))
  }

  /** The heartbeat of tool `i`: noted if it is taken, written if it renders, an error if not. */
  ghost predicate BeatRow(s: Step, m: Manifest, f: Fetched, env: Env, i: nat)
    requires i < |m.tools|
  {
    var t := m.tools[i];
    var path := PlaceOf(t.heartbeatPath, env);
    && OnHost(t, env) && t.heartbeatPath != "" && t.template != ""
    && s == if Taken(m, f, env, i) then Say(Row(t.name, MarkerFile, path, Identical, Noop))
            else if Renders(t, m, f, env) then Beat(t.name, path, BlockFor(t, m, f, env))
            else Say(Row(t.name, MarkerFile, path, Absent, Error))
  }

  /** One file of a plugin: written if it stays inside the plugin's directory and its body is there. */
  predicate PluginFileRow(s: Step, p: Plugin, pf: SourceFile, f: Fetched, env: Env) {
    var dir := PlaceOf(p.installPath, env);
    var dst, body := Join(dir, pf.name), f.body(pf.src);
    s == if (dst == dir || (dir != [] && dir <= dst)) && body.Some? then Own(p.id, PluginFile, dst, body.value)
         else Say(Row(p.id, PluginFile, dst, Absent, Error))
  }

  /** Its place in the tool's config. */
  predicate TrustRow(s: Step, p: Plugin, env: Env) {
    && p.allowList.Some?
    && (var al := p.allowList.value;
        s == Trust(p.id, ConfigEntry(PlaceOf(al.configPath, env), Place(al.allow, al.entries, p.id))))
  }

  predicate PluginRow(s: Step, p: Plugin, f: Fetched, env: Env) {
    (exists pf :: pf in p.files && PluginFileRow(s, p, pf, f, env)) || TrustRow(s, p, env)
  }

  /** Everything tool `i` asks for. */
  ghost predicate ToolRow(s: Step, m: Manifest, f: Fetched, env: Env, i: nat)
    requires i < |m.tools|
  {
    var t := m.tools[i];
    || (OnHost(t, env) && s == Own(t.name, SkillFile, CopyOf(t, m, env), f.skill))
    || BeatRow(s, m, f, env, i)
    || (PluginTurn(m, f, env, i) && t.plugin.Some? && PluginRow(s, t.plugin.value, f, env))
  }

  // ---- the other rows ------------------------------------------------------------------------------

  predicate HelperRow(s: Step, h: Helper, f: Fetched, env: Env) {
    var dst, body := PlaceOf(h.dst, env), f.body(h.src);
    s == if body.Some? then Own(h.name, HelperFile, dst, body.value)
         else Say(Row(h.name, HelperFile, dst, Absent, Error))
  }

  /** The skill under its Muse name: an underscore for each dash. */
  function MuseName(entrypoint: string): string {
    seq(|entrypoint|, k requires 0 <= k < |entrypoint| => if entrypoint[k] == '-' then '_' else entrypoint[k])
  }

  /** A gated row: the skill as it is, rewritten for Muse, or in a format that does not exist; taken are
      the skill copies of the tools that are there. */
  ghost predicate GateRow(s: Step, gt: GatedTool, m: Manifest, f: Fetched, env: Env) {
    && s.Gate? && s.gt == gt && s.entrypoint == m.entrypoint
    && s.want == (if gt.skillFormat == "" then Some(f.skill)
                  else if gt.skillFormat == "muse"
                  then Some(MuseShell.MuseFrontmatter(f.skill, MuseName(m.entrypoint)))
                  else None)
    && forall k :: k in s.taken <==> exists t :: t in m.tools && OnHost(t, env) && env.canon(CopyOf(t, m, env)) == k
  }

  /** What is retired: the built-in entries, and then those of the manifest. */
  function RetiredMarkers(m: Manifest): seq<MarkerEntry> {
    BUILTIN.markers + m.retired.markers
  }

  function RetiredPlugins(m: Manifest): seq<PluginEntry> {
    BUILTIN.plugins + m.retired.plugins
  }

  function RetiredHelpers(m: Manifest): seq<HelperEntry> {
    BUILTIN.helpers + m.retired.helpers
  }

  /** The entry names an absolute path that no tool has for its heartbeat, after symlinks are resolved. */
  predicate MarkerGone(e: MarkerEntry, m: Manifest, env: Env): (gone: bool)
    ensures gone ==> Expand(e.path, env.home).Some?
  {
    var p := Expand(e.path, env.home);
    && p.Some?
    && forall t :: t in m.tools && Expand(t.heartbeatPath, env.home).Some? ==>
         env.canon(Expand(t.heartbeatPath, env.home).value) != env.canon(p.value)
  }

  /** Entry `i` is the first of its file. */
  predicate UnmarkRow(s: Step, m: Manifest, env: Env, i: nat)
    requires i < |RetiredMarkers(m)|
  {
    var e := RetiredMarkers(m)[i];
    && MarkerGone(e, m, env)
    && s == Unmark(e.tool, Expand(e.path, env.home).value)
    && forall j :: 0 <= j < i && MarkerGone(RetiredMarkers(m)[j], m, env) ==>
         env.canon(Expand(RetiredMarkers(m)[j].path, env.home).value) != env.canon(Expand(e.path, env.home).value)
  }

  /** The entry names a directory by the plugin's id, and no tool has that plugin or a plugin in that
      directory. */
  predicate PluginGone(e: PluginEntry, m: Manifest, env: Env): (gone: bool)
    ensures gone ==> Expand(e.installPath, env.home).Some?
  {
    var dir := Expand(e.installPath, env.home);
    && dir.Some? && e.id != "" && e.id == (if dir.value == [] then "/" else dir.value[|dir.value| - 1])
    && forall t :: t in m.tools && t.plugin.Some? ==>
         && t.plugin.value.id != e.id
         && (Expand(t.plugin.value.installPath, env.home).Some? ==>
               env.canon(Expand(t.plugin.value.installPath, env.home).value) != env.canon(dir.value))
  }

  /** The files of the entry: the listed names that stay strictly inside its directory. */
  predicate FileGone(p: AbsPath, e: PluginEntry, env: Env)
    requires Expand(e.installPath, env.home).Some?
  {
    var dir := Expand(e.installPath, env.home).value;
    exists name :: name in e.files && name != "" && p == Join(dir, name) && dir != [] && dir < p
  }

  /** Its place in a config, if it has one that can be named. */
  function ConfigGone(e: PluginEntry, env: Env): Option<ConfigEntry> {
    if e.allowList.None? || Expand(e.allowList.value.configPath, env.home).None? then None
    else
      var al := e.allowList.value;
      Some(ConfigEntry(Expand(al.configPath, env.home).value, Place(al.allow, al.entries, e.id)))
  }

  /** Entry `i` is gone, and the first of its id. */
  predicate PluginGoes(m: Manifest, env: Env, i: nat)
    requires i < |RetiredPlugins(m)|
  {
    var e := RetiredPlugins(m)[i];
    && PluginGone(e, m, env)
    && forall j :: 0 <= j < i && PluginGone(RetiredPlugins(m)[j], m, env) ==> RetiredPlugins(m)[j].id != e.id
  }

  ghost predicate UnplugRow(s: Step, m: Manifest, env: Env, i: nat)
    requires i < |RetiredPlugins(m)|
  {
    var e := RetiredPlugins(m)[i];
    && PluginGoes(m, env, i)
    && s.Unplug? && s.rp.id == e.id
    && (forall p :: p in s.rp.files <==> FileGone(p, e, env))
    && s.rp.entry == ConfigGone(e, env)
    && s.rp.stubs == (if e.id in m.stubs then m.stubs[e.id] else map[])
  }

  /** The entry names a path strictly inside ~/.pilot that no helper has. */
  predicate HelperGone(e: HelperEntry, m: Manifest, env: Env): (gone: bool)
    ensures gone ==> Expand(e.dst, env.home).Some?
  {
    var p := Expand(e.dst, env.home);
    && p.Some? && env.home + [PILOT] < p.value
    && forall h :: h in m.helpers ==> Expand(h.dst, env.home) != p
  }

  predicate UnownRow(s: Step, m: Manifest, env: Env, i: nat)
    requires i < |RetiredHelpers(m)|
  {
    var e := RetiredHelpers(m)[i];
    && HelperGone(e, m, env)
    && s == Unown(e.name, Expand(e.dst, env.home).value)
    && forall j :: 0 <= j < i && HelperGone(RetiredHelpers(m)[j], m, env) ==>
         Expand(RetiredHelpers(m)[j].dst, env.home) != Expand(e.dst, env.home)
  }

  // ---- the steps of the tools ------------------------------------------------------------------------

  lemma InConcat(s: Step, a: seq<Step>, b: seq<Step>)
    ensures s in a + b <==> s in a || s in b
  {
  }

  lemma CopyOfIs(t: Tool, m: Manifest, env: Env)
    ensures SkillPathOf(t, m, env) == CopyOf(t, m, env) && (Installed(t, env) <==> OnHost(t, env))
    ensures HeartbeatKey(t, env) == BeatFile(t, env)
    ensures HasHeartbeat(t) <==> t.heartbeatPath != "" && t.template != ""
  {
    hide PlaceOf, Join;
  }

  lemma RendersIs(t: Tool, m: Manifest, f: Fetched, env: Env)
    ensures Renders(t, m, f, env) <==> Installed(t, env) && HasHeartbeat(t) && DirectiveOf(t, m, f, env).Some?
    ensures Renders(t, m, f, env) ==> DirectiveOf(t, m, f, env) == Some(BlockFor(t, m, f, env))
  {
    CopyOfIs(t, m, env);
    DirectiveIs(t, m, f, env);
    hide PlaceOf, CopyOf, ValidRef, Covered, Short, DirectiveOf;
  }

  lemma {:induction false} PluginFilesAre(p: Plugin, pfs: seq<SourceFile>, f: Fetched, env: Env, s: Step)
    ensures s in PluginFileSteps(p.id, PlaceOf(p.installPath, env), pfs, f) <==>
              exists pf :: pf in pfs && PluginFileRow(s, p, pf, f, env)
  {
    if pfs != [] {
      var dir := PlaceOf(p.installPath, env);
      PathWithinIsComponentPrefix(dir, Join(dir, pfs[0].name));
      PluginFilesAre(p, pfs[1..], f, env, s);
      hide PathWithin, Join, PlaceOf;
      assert s == PluginFileStep(p.id, dir, pfs[0], f) <==> PluginFileRow(s, p, pfs[0], f, env);
      assert forall pf :: pf in pfs <==> pf == pfs[0] || pf in pfs[1..];
    }
  }

  lemma PluginStepsAre(p: Plugin, f: Fetched, env: Env, s: Step)
    ensures s in PluginSteps(Some(p), f, env) <==> PluginRow(s, p, f, env)
    ensures s !in PluginSteps(None, f, env)
  {
    PluginFilesAre(p, p.files, f, env, s);
    hide PluginFileSteps, PlaceOf, PluginFileRow;
  }

  /** The owners of heartbeat files among the first `n` tools. */
  ghost predicate OwnedUpTo(owned: set<AbsPath>, m: Manifest, f: Fetched, env: Env, n: nat)
    requires n <= |m.tools|
  {
    forall k :: k in owned <==>
      exists j :: 0 <= j < n && Renders(m.tools[j], m, f, env) && BeatFile(m.tools[j], env) == k
  }

  lemma InToolSteps(t: Tool, m: Manifest, f: Fetched, env: Env, owned: set<AbsPath>, s: Step)
    ensures s in ToolSteps(t, m, f, env, owned) <==>
              && Installed(t, env)
              && (|| s == Own(t.name, SkillFile, SkillPathOf(t, m, env), f.skill)
                  || (HasHeartbeat(t) && s == HeartbeatStep(t, m, f, env, owned))
                  || (HasHeartbeat(t) && GoesOn(t, m, f, env, owned) && s in PluginSteps(t.plugin, f, env)))
  {
    hide Installed, HasHeartbeat, SkillPathOf, HeartbeatStep, GoesOn, PluginSteps;
  }

  lemma OwnedNext(m: Manifest, f: Fetched, env: Env, i: nat, owned: set<AbsPath>)
    requires i < |m.tools| && OwnedUpTo(owned, m, f, env, i)
    ensures BeatFile(m.tools[i], env) in owned <==> Taken(m, f, env, i)
    ensures OwnedUpTo(OwnedAfter(m.tools[i], m, f, env, owned), m, f, env, i + 1)
  {
    hide Renders, BeatFile, DirectiveOf, Installed, HeartbeatKey, HasHeartbeat;
    CopyOfIs(m.tools[i], m, env);
    RendersIs(m.tools[i], m, f, env);
  }

  lemma HeartbeatStepIs(m: Manifest, f: Fetched, env: Env, i: nat, owned: set<AbsPath>)
    requires i < |m.tools| && OwnedUpTo(owned, m, f, env, i)
    requires Installed(m.tools[i], env) && HasHeartbeat(m.tools[i])
    ensures BeatRow(HeartbeatStep(m.tools[i], m, f, env, owned), m, f, env, i)
    ensures GoesOn(m.tools[i], m, f, env, owned) <==> Taken(m, f, env, i) || Renders(m.tools[i], m, f, env)
  {
    hide Renders, BeatFile, DirectiveOf, Installed, HeartbeatKey, HasHeartbeat, Taken, OnHost, BlockFor, PlaceOf;
    hide OwnedUpTo;
    CopyOfIs(m.tools[i], m, env);
    RendersIs(m.tools[i], m, f, env);
    OwnedNext(m, f, env, i, owned);
  }

  /** At most one step is the heartbeat of a tool. */
  lemma BeatRowIsOne(s: Step, z: Step, m: Manifest, f: Fetched, env: Env, i: nat)
    requires i < |m.tools| && BeatRow(s, m, f, env, i)
    ensures BeatRow(z, m, f, env, i) <==> z == s
    ensures OnHost(m.tools[i], env) && m.tools[i].heartbeatPath != "" && m.tools[i].template != ""
  {
    hide Renders, Taken, OnHost, BlockFor, PlaceOf;
  }

  lemma ToolStepsAre(m: Manifest, f: Fetched, env: Env, i: nat, owned: set<AbsPath>, s: Step)
    requires i < |m.tools| && OwnedUpTo(owned, m, f, env, i)
    ensures s in ToolSteps(m.tools[i], m, f, env, owned) <==> ToolRow(s, m, f, env, i)
  {
    hide OwnedUpTo, ToolSteps, Installed, HasHeartbeat, SkillPathOf, HeartbeatStep, GoesOn, PluginSteps, BeatRow, Taken;
    hide Renders, OnHost, CopyOf, PluginRow;
    var t := m.tools[i];
    InToolSteps(t, m, f, env, owned, s);
    CopyOfIs(t, m, env);
    if t.plugin.Some? {
      PluginStepsAre(t.plugin.value, f, env, s);
    } else {
      PluginStepsAre(Plugin("", "", [], None), f, env, s);
    }
    if Installed(t, env) && HasHeartbeat(t) {
      HeartbeatStepIs(m, f, env, i, owned);
      BeatRowIsOne(HeartbeatStep(t, m, f, env, owned), s, m, f, env, i);
    } else if BeatRow(s, m, f, env, i) {
      BeatRowIsOne(s, s, m, f, env, i);
    }
  }

  lemma {:induction false} AllToolStepsAre(m: Manifest, f: Fetched, env: Env, n: nat, owned: set<AbsPath>, s: Step)
    requires n <= |m.tools| && OwnedUpTo(owned, m, f, env, n)
    ensures s in AllToolSteps(m.tools[n..], m, f, env, owned) <==>
              exists i :: n <= i < |m.tools| && ToolRow(s, m, f, env, i)
    decreases |m.tools| - n
  {
    hide OwnedUpTo, ToolSteps, ToolRow, OwnedAfter;
    if n < |m.tools| {
      assert m.tools[n..][0] == m.tools[n] && m.tools[n..][1..] == m.tools[n + 1..];
      ToolStepsAre(m, f, env, n, owned, s);
      OwnedNext(m, f, env, n, owned);
      AllToolStepsAre(m, f, env, n + 1, OwnedAfter(m.tools[n], m, f, env, owned), s);
    }
  }

  // ---- helpers and gated rows --------------------------------------------------------------------------

  lemma {:induction false} HelperStepsAre(hs: seq<Helper>, f: Fetched, env: Env, s: Step)
    ensures s in HelperSteps(hs, f, env) <==> exists h :: h in hs && HelperRow(s, h, f, env)
  {
    if hs != [] {
      HelperStepsAre(hs[1..], f, env, s);
      hide PlaceOf;
      assert s == HelperStep(hs[0], f, env) <==> HelperRow(s, hs[0], f, env);
      assert forall h :: h in hs <==> h == hs[0] || h in hs[1..];
    }
  }

  lemma {:induction false} MuseNameIs(s: string)
    ensures MuseShell.ReplaceAll(s, "-", "_") == MuseName(s)
    decreases |s|
  {
    if s == [] {
      assert MuseName(s) == [];
    } else {
      MuseNameIs(s[1..]);
      assert "-"[0] == '-';
      assert MuseName(s) == [MuseName(s)[0]] + MuseName(s[1..]);
    }
  }

  lemma FormatIs(f: Fetched, gt: GatedTool, m: Manifest)
    ensures FormatSkill(f.skill, gt.skillFormat, m.entrypoint) ==
            (if gt.skillFormat == "" then Some(f.skill)
             else if gt.skillFormat == "muse"
             then Some(MuseShell.MuseFrontmatter(f.skill, MuseName(m.entrypoint)))
             else None)
  {
    hide MuseShell.MuseFrontmatter, MuseName, MuseShell.ReplaceAll;
    MuseNameIs(m.entrypoint);
  }

  lemma SkillKeysAre(m: Manifest, env: Env)
    ensures forall k :: k in SkillKeys(m.tools, m, env) <==>
              exists t :: t in m.tools && OnHost(t, env) && env.canon(CopyOf(t, m, env)) == k
  {
    hide OnHost, CopyOf, Installed, SkillPathOf;
    forall t | t in m.tools
      ensures (Installed(t, env) <==> OnHost(t, env)) && SkillPathOf(t, m, env) == CopyOf(t, m, env)
    {
      CopyOfIs(t, m, env);
    }
  }

  lemma {:induction false} GateStepsAre(gts: seq<GatedTool>, m: Manifest, f: Fetched, env: Env, s: Step)
    ensures s in GateSteps(gts, m, f, SkillKeys(m.tools, m, env)) <==>
              exists gt :: gt in gts && GateRow(s, gt, m, f, env)
  {
    hide FormatSkill, MuseName, MuseShell.MuseFrontmatter, SkillKeys, OnHost, CopyOf;
    if gts != [] {
      GateStepsAre(gts[1..], m, f, env, s);
      FormatIs(f, gts[0], m);
      SkillKeysAre(m, env);
      var taken := SkillKeys(m.tools, m, env);
      if GateRow(s, gts[0], m, f, env) { assert s.taken == taken; }
      assert forall gt :: gt in gts <==> gt == gts[0] || gt in gts[1..];
    }
  }

  // ---- what is retired -----------------------------------------------------------------------------------

  lemma ResolveIsExpand(p: string, m: Manifest, env: Env)
    ensures Resolve(p, ContextOf(m, env)) == Expand(p, env.home) && Resolvable(p, env) == Expand(p, env.home)
  {
    RelativeExpandsToNothing(p, env.home);
    hide Expand;
  }

  lemma MarkerGoneIs(e: MarkerEntry, m: Manifest, env: Env)
    ensures MarkerOf(e, ContextOf(m, env)) ==
            if MarkerGone(e, m, env) then Some(RetiredMarker(e.tool, Expand(e.path, env.home).value)) else None
  {
    hide Expand, Resolve, Resolvable;
    ResolveIsExpand(e.path, m, env);
    forall t | t in m.tools ensures Resolvable(t.heartbeatPath, env) == Expand(t.heartbeatPath, env.home) {
      ResolveIsExpand(t.heartbeatPath, m, env);
    }
  }

  lemma {:induction false} FilesInAre(dir: AbsPath, names: seq<string>, p: AbsPath)
    ensures p in FilesIn(dir, names) <==>
              exists name :: name in names && name != "" && p == Join(dir, name) && dir != [] && dir < p
  {
    hide Join, PathWithin;
    if names != [] {
      FilesInAre(dir, names[1..], p);
      PathWithinIsComponentPrefix(dir, Join(dir, names[0]));
      assert forall name :: name in names <==> name == names[0] || name in names[1..];
    }
  }

  lemma PluginGoneIs(e: PluginEntry, m: Manifest, env: Env)
    ensures PluginOf(e, ContextOf(m, env)) ==
            if PluginGone(e, m, env)
            then Some(RetiredPlugin(e.id, FilesIn(Expand(e.installPath, env.home).value, e.files),
                                    ConfigGone(e, env), if e.id in m.stubs then m.stubs[e.id] else map[]))
            else None
  {
    hide Expand, Resolve, Resolvable, FilesIn;
    ResolveIsExpand(e.installPath, m, env);
    if e.allowList.Some? { ResolveIsExpand(e.allowList.value.configPath, m, env); }
    forall t | t in m.tools && t.plugin.Some?
      ensures Resolvable(t.plugin.value.installPath, env) == Expand(t.plugin.value.installPath, env.home)
    {
      ResolveIsExpand(t.plugin.value.installPath, m, env);
    }
  }

  lemma HelperGoneIs(e: HelperEntry, m: Manifest, env: Env)
    ensures HelperOf(e, ContextOf(m, env)) ==
            if HelperGone(e, m, env) then Some(RetiredHelper(e.name, Expand(e.dst, env.home).value)) else None
  {
    hide Expand, Resolve, Resolvable, PathWithin, Join;
    assert ValidName(PILOT);
    JoinName(env.home, PILOT);
    ResolveIsExpand(e.dst, m, env);
    if Expand(e.dst, env.home).Some? {
      PathWithinIsComponentPrefix(env.home + [PILOT], Expand(e.dst, env.home).value);
    }
    forall h | h in m.helpers ensures Resolvable(h.dst, env) == Expand(h.dst, env.home) {
      ResolveIsExpand(h.dst, m, env);
    }
  }

  lemma {:induction false} UnmarkIn(ms: seq<RetiredMarker>, s: Step)
    ensures s in UnmarkSteps(ms) <==> exists x :: x in ms && s == Unmark(x.tool, x.path)
  {
    if ms != [] {
      UnmarkIn(ms[1..], s);
      assert forall x :: x in ms <==> x == ms[0] || x in ms[1..];
    }
  }

  lemma {:induction false} UnplugIn(ps: seq<RetiredPlugin>, s: Step)
    ensures s in UnplugSteps(ps) <==> exists x :: x in ps && s == Unplug(x)
  {
    if ps != [] {
      UnplugIn(ps[1..], s);
      assert forall x :: x in ps <==> x == ps[0] || x in ps[1..];
    }
  }

  lemma {:induction false} UnownIn(hs: seq<RetiredHelper>, s: Step)
    ensures s in UnownSteps(hs) <==> exists x :: x in hs && s == Unown(x.name, x.path)
  {
    if hs != [] {
      UnownIn(hs[1..], s);
      assert forall x :: x in hs <==> x == hs[0] || x in hs[1..];
    }
  }

  lemma TwoSources(a: Source, b: Source)
    ensures AllMarkers([a, b]) == a.markers + b.markers
    ensures AllPlugins([a, b]) == a.plugins + b.plugins
    ensures AllHelpers([a, b]) == a.helpers + b.helpers
  {
    assert [a, b][1..] == [b] && [b][1..] == [];
    assert AllMarkers([]) == [] && AllPlugins([]) == [] && AllHelpers([]) == [];
    assert AllPlugins([b]) == b.plugins + AllPlugins([b][1..]);
    assert AllHelpers([b]) == b.helpers + AllHelpers([b][1..]);
    assert b.markers + [] == b.markers && b.plugins + [] == b.plugins && b.helpers + [] == b.helpers;
    assert AllMarkers([b]) == b.markers && AllPlugins([b]) == b.plugins && AllHelpers([b]) == b.helpers;
  }

  lemma EntriesAre(m: Manifest)
    ensures AllMarkers([BUILTIN, m.retired]) == RetiredMarkers(m)
    ensures AllPlugins([BUILTIN, m.retired]) == RetiredPlugins(m)
    ensures AllHelpers([BUILTIN, m.retired]) == RetiredHelpers(m)
  {
    hide AllMarkers, AllPlugins, AllHelpers;
    TwoSources(BUILTIN, m.retired);
  }

  lemma UnmarkRowIs(m: Manifest, env: Env, x: RetiredMarker, i: nat)
    requires i < |RetiredMarkers(m)|
    ensures FirstOfKey(RetiredMarkers(m), ToMarker(ContextOf(m, env)), MarkerKey(ContextOf(m, env)), x, i) <==>
              UnmarkRow(Unmark(x.tool, x.path), m, env, i)
  {
    hide MarkerOf, MarkerGone, RetiredMarkers, Expand;
    var c := ContextOf(m, env);
    var es := RetiredMarkers(m);
    forall j | 0 <= j < |es|
      ensures ToMarker(c)(es[j]) == if MarkerGone(es[j], m, env)
                                    then Some(RetiredMarker(es[j].tool, Expand(es[j].path, env.home).value)) else None
    {
      MarkerGoneIs(es[j], m, env);
    }
  }

  lemma UnmarkStepsAre(m: Manifest, env: Env, s: Step)
    ensures s in UnmarkSteps(RetiredOf(m, env).markers) <==>
              exists i :: 0 <= i < |RetiredMarkers(m)| && UnmarkRow(s, m, env, i)
  {
    var c := ContextOf(m, env);
    var ms, es := RetiredOf(m, env).markers, RetiredMarkers(m);
    CollectedParts([BUILTIN, m.retired], c);
    Ownership.RetiredOfIs(m, env);
    EntriesAre(m);
    hide *;
    UnmarkIn(ms, s);
    if x :| x in ms && s == Unmark(x.tool, x.path) {
      PickedIs(es, ToMarker(c), MarkerKey(c), {}, x);
      var i :| 0 <= i < |es| && FirstOfKey(es, ToMarker(c), MarkerKey(c), x, i);
      UnmarkRowIs(m, env, x, i);
    }
    if i :| 0 <= i < |es| && UnmarkRow(s, m, env, i) {
      UnmarkRowUnmarks(s, m, env, i);
      var x := RetiredMarker(s.tool, s.path);
      UnmarkRowIs(m, env, x, i);
      PickedIs(es, ToMarker(c), MarkerKey(c), {}, x);
    }
  }

  lemma UnmarkRowUnmarks(s: Step, m: Manifest, env: Env, i: nat)
    requires i < |RetiredMarkers(m)|
    ensures UnmarkRow(s, m, env, i) ==> s.Unmark?
  {
    hide MarkerGone, RetiredMarkers, Expand;
  }

  lemma UnownRowIs(m: Manifest, env: Env, x: RetiredHelper, i: nat)
    requires i < |RetiredHelpers(m)|
    ensures FirstOfKey(RetiredHelpers(m), ToHelper(ContextOf(m, env)), HelperKey(), x, i) <==>
              UnownRow(Unown(x.name, x.path), m, env, i)
  {
    hide HelperOf, HelperGone, RetiredHelpers, Expand;
    var c := ContextOf(m, env);
    var es := RetiredHelpers(m);
    forall j | 0 <= j < |es|
      ensures ToHelper(c)(es[j]) == if HelperGone(es[j], m, env)
                                    then Some(RetiredHelper(es[j].name, Expand(es[j].dst, env.home).value)) else None
    {
      HelperGoneIs(es[j], m, env);
    }
  }

  lemma UnownStepsAre(m: Manifest, env: Env, s: Step)
    ensures s in UnownSteps(RetiredOf(m, env).helpers) <==>
              exists i :: 0 <= i < |RetiredHelpers(m)| && UnownRow(s, m, env, i)
  {
    var c := ContextOf(m, env);
    var hs, es := RetiredOf(m, env).helpers, RetiredHelpers(m);
    CollectedParts([BUILTIN, m.retired], c);
    Ownership.RetiredOfIs(m, env);
    EntriesAre(m);
    hide *;
    UnownIn(hs, s);
    if x :| x in hs && s == Unown(x.name, x.path) {
      PickedIs(es, ToHelper(c), HelperKey(), {}, x);
      var i :| 0 <= i < |es| && FirstOfKey(es, ToHelper(c), HelperKey(), x, i);
      UnownRowIs(m, env, x, i);
    }
    if i :| 0 <= i < |es| && UnownRow(s, m, env, i) {
      UnownRowUnowns(s, m, env, i);
      var x := RetiredHelper(s.tool, s.path);
      UnownRowIs(m, env, x, i);
      PickedIs(es, ToHelper(c), HelperKey(), {}, x);
    }
  }

  lemma UnownRowUnowns(s: Step, m: Manifest, env: Env, i: nat)
    requires i < |RetiredHelpers(m)|
    ensures UnownRow(s, m, env, i) ==> s.Unown?
  {
    hide HelperGone, RetiredHelpers, Expand;
  }

  /** What the program makes of entry `i`, when it goes. */
  lemma UnplugRowIs(m: Manifest, env: Env, x: RetiredPlugin, i: nat)
    requires i < |RetiredPlugins(m)|
    ensures FirstOfKey(RetiredPlugins(m), ToPlugin(ContextOf(m, env)), PluginKey(), x, i) <==>
              PluginGoes(m, env, i) && Some(x) == PluginOf(RetiredPlugins(m)[i], ContextOf(m, env))
    ensures PluginGoes(m, env, i) && Some(x) == PluginOf(RetiredPlugins(m)[i], ContextOf(m, env)) ==>
              UnplugRow(Unplug(x), m, env, i)
    ensures PluginGoes(m, env, i) ==> PluginOf(RetiredPlugins(m)[i], ContextOf(m, env)).Some?
  {
    hide PluginOf, PluginGone, RetiredPlugins, Expand, FilesIn, ConfigGone, Join;
    var c := ContextOf(m, env);
    var es := RetiredPlugins(m);
    forall j | 0 <= j < |es|
      ensures ToPlugin(c)(es[j]) == PluginOf(es[j], c)
      ensures PluginOf(es[j], c).Some? <==> PluginGone(es[j], m, env)
      ensures PluginOf(es[j], c).Some? ==> PluginOf(es[j], c).value.id == es[j].id
    {
      PluginGoneIs(es[j], m, env);
    }
    PluginGoneIs(es[i], m, env);
    if PluginGone(es[i], m, env) {
      forall p
        ensures p in FilesIn(Expand(es[i].installPath, env.home).value, es[i].files) <==> FileGone(p, es[i], env)
      {
        FilesInAre(Expand(es[i].installPath, env.home).value, es[i].files, p);
      }
    }
  }

  /** Every entry that goes has its step, and every step its entry. */
  lemma UnplugStepsAre(m: Manifest, env: Env)
    ensures forall s :: s in UnplugSteps(RetiredOf(m, env).plugins) ==>
              exists i :: 0 <= i < |RetiredPlugins(m)| && UnplugRow(s, m, env, i)
    ensures forall i :: 0 <= i < |RetiredPlugins(m)| && PluginGoes(m, env, i) ==>
              exists s :: s in UnplugSteps(RetiredOf(m, env).plugins) && UnplugRow(s, m, env, i)
  {
    var c := ContextOf(m, env);
    var ps, es := RetiredOf(m, env).plugins, RetiredPlugins(m);
    CollectedParts([BUILTIN, m.retired], c);
    Ownership.RetiredOfIs(m, env);
    EntriesAre(m);
    hide *;
    forall s | s in UnplugSteps(ps) ensures exists i :: 0 <= i < |es| && UnplugRow(s, m, env, i) {
      UnplugIn(ps, s);
      var x :| x in ps && s == Unplug(x);
      PickedIs(es, ToPlugin(c), PluginKey(), {}, x);
      var i :| 0 <= i < |es| && FirstOfKey(es, ToPlugin(c), PluginKey(), x, i);
      UnplugRowIs(m, env, x, i);
    }
    forall i | 0 <= i < |es| && PluginGoes(m, env, i)
      ensures exists s :: s in UnplugSteps(ps) && UnplugRow(s, m, env, i)
    {
      UnplugRowIs(m, env, RetiredPlugin("", [], None, map[]), i);
      var x := PluginOf(es[i], c).value;
      UnplugRowIs(m, env, x, i);
      PickedIs(es, ToPlugin(c), PluginKey(), {}, x);
      UnplugIn(ps, Unplug(x));
    }
  }

  // ---- the whole tick --------------------------------------------------------------------------------------

  /** Some row of the manifest asks for the step. */
  ghost predicate Asked(s: Step, m: Manifest, f: Fetched, env: Env) {
    || (exists h :: h in m.helpers && HelperRow(s, h, f, env))
    || (exists i :: 0 <= i < |m.tools| && ToolRow(s, m, f, env, i))
    || (exists gt :: gt in m.gated && GateRow(s, gt, m, f, env))
    || (exists i :: 0 <= i < |RetiredMarkers(m)| && UnmarkRow(s, m, env, i))
    || (exists i :: 0 <= i < |RetiredHelpers(m)| && UnownRow(s, m, env, i))
  }

  /** Main result on ticks: the steps of a tick are exactly those some row of the manifest asks for, where
      a retired plugin has one step with all its files, its config and its stubs. */
  lemma StepsAreRows(m: Manifest, f: Fetched, env: Env)
    ensures forall s: Step :: !s.Unplug? ==> (s in StepsOf(m, f, env) <==> Asked(s, m, f, env))
    ensures forall s: Step :: s.Unplug? && s in StepsOf(m, f, env) ==>
              exists i :: 0 <= i < |RetiredPlugins(m)| && UnplugRow(s, m, env, i)
    ensures forall i :: 0 <= i < |RetiredPlugins(m)| && PluginGoes(m, env, i) ==>
              exists s :: s in StepsOf(m, f, env) && UnplugRow(s, m, env, i)
  {
    hide *;
    forall s: Step ensures !s.Unplug? ==> (s in StepsOf(m, f, env) <==> Asked(s, m, f, env)) {
      StepIsAsked(m, f, env, s);
    }
    UnplugStepsAre(m, env);
    forall s: Step | s.Unplug? && s in StepsOf(m, f, env) ensures s in UnplugSteps(RetiredOf(m, env).plugins) {
      UnplugIsRetired(m, f, env, s);
    }
    forall s | s in UnplugSteps(RetiredOf(m, env).plugins) ensures s in StepsOf(m, f, env) {
      PartsOfTick(m, f, env, s);
    }
  }

  lemma PartsOfTick(m: Manifest, f: Fetched, env: Env, s: Step)
    ensures s in StepsOf(m, f, env) <==>
              || s in HelperSteps(m.helpers, f, env) || s in AllToolSteps(m.tools, m, f, env, {})
              || s in GateSteps(m.gated, m, f, SkillKeys(m.tools, m, env))
              || s in RetiredSteps(RetiredOf(m, env))
    ensures s in RetiredSteps(RetiredOf(m, env)) <==>
              || s in UnmarkSteps(RetiredOf(m, env).markers) || s in UnplugSteps(RetiredOf(m, env).plugins)
              || s in UnownSteps(RetiredOf(m, env).helpers)
  {
    hide HelperSteps, AllToolSteps, GateSteps, UnmarkSteps, UnplugSteps, UnownSteps, RetiredOf, SkillKeys;
  }

  /** Only retired plugins are unplugged. */
  lemma UnplugIsRetired(m: Manifest, f: Fetched, env: Env, s: Step)
    requires s.Unplug? && s in StepsOf(m, f, env)
    ensures s in UnplugSteps(RetiredOf(m, env).plugins)
  {
    hide *;
    PartsOfTick(m, f, env, s);
    Ownership.HelperKinds(m.helpers, f, env);
    Ownership.GateKinds(m.gated, m, f, SkillKeys(m.tools, m, env));
    Ownership.UnmarkKinds(RetiredOf(m, env).markers);
    Ownership.UnownKinds(RetiredOf(m, env).helpers);
    ToolsDoNotUnplug(m, f, env, s);
  }

  lemma ToolsDoNotUnplug(m: Manifest, f: Fetched, env: Env, s: Step)
    requires s.Unplug?
    ensures s !in AllToolSteps(m.tools, m, f, env, {})
  {
    hide AllToolSteps, OnHost, CopyOf, Taken, Renders, BlockFor, PlaceOf, PluginTurn, Join;
    NoOwners(m, f, env);
    AllToolStepsAre(m, f, env, 0, {}, s);
  }

  lemma NoOwners(m: Manifest, f: Fetched, env: Env)
    ensures OwnedUpTo({}, m, f, env, 0) && m.tools[0..] == m.tools
  {
  }

  lemma StepIsAsked(m: Manifest, f: Fetched, env: Env, s: Step)
    ensures !s.Unplug? ==> (s in StepsOf(m, f, env) <==> Asked(s, m, f, env))
  {
    hide *;
    PartsOfTick(m, f, env, s);
    HelperStepsAre(m.helpers, f, env, s);
    NoOwners(m, f, env);
    AllToolStepsAre(m, f, env, 0, {}, s);
    GateStepsAre(m.gated, m, f, env, s);
    UnmarkStepsAre(m, env, s);
    UnownStepsAre(m, env, s);
    Ownership.UnplugKinds(RetiredOf(m, env).plugins);
    AskedIs(s, m, f, env);
  }

  lemma AskedIs(s: Step, m: Manifest, f: Fetched, env: Env)
    ensures Asked(s, m, f, env) <==>
              || (exists h :: h in m.helpers && HelperRow(s, h, f, env))
              || (exists i :: 0 <= i < |m.tools| && ToolRow(s, m, f, env, i))
              || (exists gt :: gt in m.gated && GateRow(s, gt, m, f, env))
              || (exists i :: 0 <= i < |RetiredMarkers(m)| && UnmarkRow(s, m, env, i))
              || (exists i :: 0 <= i < |RetiredHelpers(m)| && UnownRow(s, m, env, i))
  {
    hide HelperRow, ToolRow, GateRow, UnmarkRow, UnownRow, RetiredMarkers, RetiredHelpers;
  }

  /** On a host in disabled mode a tick does what it would do for a manifest that manages nothing. */
  lemma DisabledManagesNothing(cached: Source, stubs: Stubs, f: Fetched, env: Env)
    ensures DisabledSteps(cached, stubs, env) == StepsOf(Manifest("", [], [], [], cached, stubs), f, env)
  {
    var m := Manifest("", [], [], [], cached, stubs);
    assert ActiveMarkers([], env) == {} && ActiveHelpers([], env) == {} && ActiveIds([]) == {};
    assert ActiveDirs([], env) == {};
    hide RetiredSteps, Collected;
    assert HelperSteps([], f, env) == [] && AllToolSteps([], m, f, env, {}) == [];
    assert GateSteps([], m, f, SkillKeys([], m, env)) == [];
    assert [] + RetiredSteps(RetiredOf(m, env)) == RetiredSteps(RetiredOf(m, env));
  }

  // ---- in which order ----------------------------------------------------------------------------------------

  /** Helpers, tools, gated rows, retired heartbeats, retired plugins, retired helpers. */
  function Rank(s: Step): nat {
    match s
    case Say(row) => if row.kind == HelperFile then 0 else 1
    case Own(_, kind, _, _) => if kind == HelperFile then 0 else 1
    case Beat(_, _, _) => 1
    case Trust(_, _) => 1
    case Gate(_, _, _, _) => 2
    case Unmark(_, _) => 3
    case Unplug(_) => 4
    case Unown(_, _) => 5
  }

  ghost predicate AllRank(steps: seq<Step>, r: nat) {
    forall s :: s in steps ==> Rank(s) == r
  }

  ghost predicate Ranked(steps: seq<Step>) {
    forall i, j :: 0 <= i < j < |steps| ==> Rank(steps[i]) <= Rank(steps[j])
  }

  lemma RankedConcat(a: seq<Step>, b: seq<Step>, r: nat)
    requires Ranked(a) && AllRank(b, r) && forall s :: s in a ==> Rank(s) <= r
    ensures Ranked(a + b) && forall s :: s in a + b ==> Rank(s) <= r
  {
    hide Rank;
    forall i, j | 0 <= i < j < |a + b| ensures Rank((a + b)[i]) <= Rank((a + b)[j]) {
      if j >= |a| { assert b[j - |a|] in b; }
      if i < |a| { assert a[i] in a; } else { assert b[i - |a|] in b; }
    }
  }

  lemma HelperRank(hs: seq<Helper>, f: Fetched, env: Env)
    ensures AllRank(HelperSteps(hs, f, env), 0)
  {
    hide PlaceOf, HelperSteps;
    forall s | s in HelperSteps(hs, f, env) ensures Rank(s) == 0 { HelperStepsAre(hs, f, env, s); }
  }

  lemma ToolRank(m: Manifest, f: Fetched, env: Env)
    ensures AllRank(AllToolSteps(m.tools, m, f, env, {}), 1)
  {
    hide AllToolSteps, OnHost, CopyOf, Taken, Renders, BlockFor, PlaceOf, PluginTurn, Join;
    NoOwners(m, f, env);
    forall s | s in AllToolSteps(m.tools, m, f, env, {}) ensures Rank(s) == 1 { AllToolStepsAre(m, f, env, 0, {}, s); }
  }

  /** Main result on order: a tick takes the kinds of rows in their fixed order. */
  lemma StepsInOrder(m: Manifest, f: Fetched, env: Env)
    ensures Ranked(StepsOf(m, f, env))
  {
    hide HelperSteps, AllToolSteps, GateSteps, UnmarkSteps, UnplugSteps, UnownSteps, RetiredOf, SkillKeys, Ranked;
    var a, b := HelperSteps(m.helpers, f, env), AllToolSteps(m.tools, m, f, env, {});
    var c, items := GateSteps(m.gated, m, f, SkillKeys(m.tools, m, env)), RetiredOf(m, env);
    var d, e, g := UnmarkSteps(items.markers), UnplugSteps(items.plugins), UnownSteps(items.helpers);
    HelperRank(m.helpers, f, env);
    ToolRank(m, f, env);
    Ownership.GateKinds(m.gated, m, f, SkillKeys(m.tools, m, env));
    Ownership.UnmarkKinds(items.markers);
    Ownership.UnplugKinds(items.plugins);
    Ownership.UnownKinds(items.helpers);
    NoneRanked();
    RankedConcat([], a, 0);
    assert [] + a == a;
    RankedConcat(a, b, 1);
    RankedConcat(a + b, c, 2);
    RankedConcat(a + b + c, d, 3);
    RankedConcat(a + b + c + d, e, 4);
    RankedConcat(a + b + c + d + e, g, 5);
    assert a + b + c + (d + e + g) == a + b + c + d + e + g;
  }

  lemma NoneRanked()
    ensures Ranked([])
  {
  }

  /** Helpers have one step each, in the order of the manifest. */
  lemma {:induction false} HelpersInOrder(hs: seq<Helper>, f: Fetched, env: Env, k: nat)
    ensures |HelperSteps(hs, f, env)| == |hs|
    ensures k < |hs| ==> HelperRow(HelperSteps(hs, f, env)[k], hs[k], f, env)
  {
    hide PlaceOf;
    if hs != [] { HelpersInOrder(hs[1..], f, env, if k > 0 then k - 1 else 0); }
  }

  /** So do gated rows. */
  lemma {:induction false} GatesInOrder(gts: seq<GatedTool>, m: Manifest, f: Fetched, taken: set<AbsPath>, k: nat)
    ensures |GateSteps(gts, m, f, taken)| == |gts|
    ensures k < |gts| ==>
              var s := GateSteps(gts, m, f, taken)[k]; s.Gate? && s.gt == gts[k] && s.taken == taken
  {
    hide FormatSkill;
    if gts != [] { GatesInOrder(gts[1..], m, f, taken, if k > 0 then k - 1 else 0); }
  }

  /** And the files of a plugin, before its config. */
  lemma {:induction false} PluginInOrder(p: Plugin, pfs: seq<SourceFile>, f: Fetched, env: Env, k: nat)
    ensures var steps := PluginFileSteps(p.id, PlaceOf(p.installPath, env), pfs, f);
            && |steps| == |pfs|
            && (k < |pfs| ==> PluginFileRow(steps[k], p, pfs[k], f, env))
  {
    if pfs != [] {
      var dir := PlaceOf(p.installPath, env);
      PathWithinIsComponentPrefix(dir, Join(dir, pfs[0].name));
      PluginInOrder(p, pfs[1..], f, env, if k > 0 then k - 1 else 0);
      hide PathWithin, Join, PlaceOf;
    }
  }

  /** A tool's steps: its copy, its heartbeat, its plugin's files, its config. */
  lemma ToolInOrder(t: Tool, m: Manifest, f: Fetched, env: Env, owned: set<AbsPath>)
    ensures OnHost(t, env) ==>
              var steps := ToolSteps(t, m, f, env, owned);
              && steps != [] && steps[0] == Own(t.name, SkillFile, CopyOf(t, m, env), f.skill)
              && (|steps| > 1 ==> steps[1].Beat? || (steps[1].Say? && steps[1].row.kind == MarkerFile))
              && steps[if |steps| > 1 then 2 else 1..] <= PluginSteps(t.plugin, f, env)
    ensures !OnHost(t, env) ==> ToolSteps(t, m, f, env, owned) == []
    ensures t.plugin.Some? && t.plugin.value.allowList.Some? ==>
              var steps := PluginSteps(t.plugin, f, env);
              |steps| == |t.plugin.value.files| + 1 && steps[|steps| - 1].Trust?
  {
    hide PluginFileSteps, PlaceOf, SkillPathOf, DirectiveOf, CopyOf, Installed, OnHost, HasHeartbeat, HeartbeatKey;
    CopyOfIs(t, m, env);
    if t.plugin.Some? { PluginInOrder(t.plugin.value, t.plugin.value.files, f, env, 0); }
  }

  // ---- where a path of the manifest leads -----------------------------------------------------------------

  /** An absolute path of the manifest is that path, one below `~` lies below the home directory, and a
      relative one below the working directory. */
  lemma PlacesAre(q: AbsPath, env: Env)
    ensures PlaceOf(PathText(q), env) == q
    ensures PlaceOf("~" + Slashed(q), env) == env.home + q
    ensures q != [] && q[0][0] != '~' ==> PlaceOf(Slashed(q)[1..], env) == env.cwd + q
  {
    PathTextReadsBack(q, env.home);
    TildeIsHome(q, env.home);
    if q != [] && q[0][0] != '~' {
      SlashedStart(q);
      var s := Slashed(q)[1..];
      assert ValidName(q[0]) && q[0][0] in q[0];
      assert Slashed(q) == "/" + s && s[0] == q[0][0];
      PartsOfSlashed(q);
      SlashPart(s);
      assert ([""] + q)[1..] == q && ([""] + Parts(s))[1..] == Parts(s);
      ResolvedNames(env.cwd, q);
      RelativeExpandsToNothing(s, env.home);
      if At(s, 0, "~/") { AtChar(s, 0, "~/", 0); }
    }
    hide Parts, Resolved, PathText, Slashed;
  }
}
