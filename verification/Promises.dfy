/**
 What a tick promises, from the rows of the manifest and the files on disk: what it delivers, what it
 takes away, and what it never touches.
 */
module Promises {
  import opened Text
  import opened Json
  import opened Render
  import opened Heartbeat
  import opened Paths
  import opened Outcomes
  import opened ConfigFile
  import opened World
  import opened Retired
  import opened Gated
  import opened GatedRun
  import opened RetiredList
  import opened Steps
  import opened Frames
  import opened Siblings
  import opened Settle
  import opened Ticks
  import opened Manifest
  import opened Directives
  import opened Surfaces
  import MuseShell
  import Installed
  import Ownership
  import Preview

  /** The store after one tick of the manifest in which nothing fails. */
  ghost function After(m: Manifest, f: Fetched, files: Files, env: Env): Files {
    Tick(StepsOf(m, f, env), files, env)
  }

  /** Nothing fails, and the rows of the manifest leave one another alone. */
  ghost predicate Fair(m: Manifest, f: Fetched, env: Env) {
    NoFailures(env) && Faithful(env.codec) && Peaceful(StepsOf(m, f, env), env)
  }

  /** A file with the bytes of `body`, as far as the hash tells. */
  predicate HasBody(files: Files, key: AbsPath, body: string, env: Env) {
    key in files && env.sha(files[key]) == env.sha(body)
  }

  // ---- what it delivers ----------------------------------------------------------------------------

  lemma StepIsDone(m: Manifest, f: Fetched, files: Files, env: Env, s: Step)
    requires s in StepsOf(m, f, env) && !s.Beat? && !s.Unmark?
    ensures Fair(m, f, env) ==> Installed.AsWanted(s, After(m, f, files, env), env) && Sturdy(s, env)
  {
    hide StepsOf, Peaceful, Tick, Installed.AsWanted, Still, Faithful, NoFailures, Sturdy;
    if Fair(m, f, env) {
      var steps := StepsOf(m, f, env);
      var k :| 0 <= k < |steps| && steps[k] == s;
      CalmParts(env);
      PeacefulParts(steps, env);
      DoneAfterTick(steps, k, files, env);
      Installed.StillIsWanted(s, Tick(steps, files, env), env);
    }
  }

  lemma OwnArrives(m: Manifest, f: Fetched, files: Files, env: Env, s: Step)
    requires s.Own? && Asked(s, m, f, env)
    ensures Fair(m, f, env) ==> HasBody(After(m, f, files, env), env.canon(s.path), s.body, env)
  {
    hide Asked, StepsOf, Fair, After;
    StepsAreRows(m, f, env);
    StepIsDone(m, f, files, env, s);
  }

  /** Every helper whose body could be fetched is there. */
  lemma HelperArrives(m: Manifest, f: Fetched, files: Files, env: Env, h: Helper)
    requires h in m.helpers && f.body(h.src).Some?
    ensures Fair(m, f, env) ==>
              HasBody(After(m, f, files, env), env.canon(PlaceOf(h.dst, env)), f.body(h.src).value, env)
  {
    hide Fair, After, PlaceOf, ToolRow, GateRow, UnmarkRow, UnownRow;
    var s := Own(h.name, HelperFile, PlaceOf(h.dst, env), f.body(h.src).value);
    assert HelperRow(s, h, f, env);
    OwnArrives(m, f, files, env, s);
  }

  /** Every tool whose root directory is there has its copy of the skill. */
  lemma CopyArrives(m: Manifest, f: Fetched, files: Files, env: Env, t: Tool)
    requires t in m.tools && PlaceOf(t.rootDir, env) in env.dirs
    ensures Fair(m, f, env) && ValidIdentifier(m.entrypoint) ==>
              var file := if t.flat then [m.entrypoint + ".md"] else [m.entrypoint, "SKILL.md"];
              && Clean(PlaceOf(t.skillsDir, env) + file)
              && HasBody(After(m, f, files, env), env.canon(PlaceOf(t.skillsDir, env) + file), f.skill, env)
  {
    hide Fair, After, PlaceOf, CopyOf, BeatRow, PluginTurn, PluginRow, HelperRow, GateRow, UnmarkRow, UnownRow;
    var i :| 0 <= i < |m.tools| && m.tools[i] == t;
    var s := Own(t.name, SkillFile, CopyOf(t, m, env), f.skill);
    assert ToolRow(s, m, f, env, i);
    OwnArrives(m, f, files, env, s);
    if ValidIdentifier(m.entrypoint) { CopyIsBelow(t, m, env); }
  }

  lemma CopyIsBelow(t: Tool, m: Manifest, env: Env)
    requires ValidIdentifier(m.entrypoint)
    ensures CopyOf(t, m, env) ==
            PlaceOf(t.skillsDir, env) + (if t.flat then [m.entrypoint + ".md"] else [m.entrypoint, "SKILL.md"])
  {
    hide PlaceOf, Join;
    SkillPathIs(PlaceOf(t.skillsDir, env), m.entrypoint, t.flat);
  }

  /** A plugin has its turn when its tool is there and has a heartbeat, and that tool or one before it
      with the same heartbeat file is there and renders its block. */
  ghost predicate HasTurn(m: Manifest, f: Fetched, env: Env, i: nat)
    requires i < |m.tools|
  {
    && PlaceOf(m.tools[i].rootDir, env) in env.dirs
    && m.tools[i].heartbeatPath != "" && m.tools[i].template != ""
    && exists j :: 0 <= j <= i && Renders(m.tools[j], m, f, env) &&
         env.canon(PlaceOf(m.tools[j].heartbeatPath, env)) == env.canon(PlaceOf(m.tools[i].heartbeatPath, env))
  }

  lemma HasTurnIs(m: Manifest, f: Fetched, env: Env, i: nat)
    requires i < |m.tools|
    ensures HasTurn(m, f, env, i) <==> PluginTurn(m, f, env, i)
  {
    hide Renders, PlaceOf;
    if PluginTurn(m, f, env, i) && Taken(m, f, env, i) {
      var j :| 0 <= j < i && Renders(m.tools[j], m, f, env) && BeatFile(m.tools[j], env) == BeatFile(m.tools[i], env);
    }
    if HasTurn(m, f, env, i) {
      var j :| 0 <= j <= i && Renders(m.tools[j], m, f, env) &&
        env.canon(PlaceOf(m.tools[j].heartbeatPath, env)) == env.canon(PlaceOf(m.tools[i].heartbeatPath, env));
      assert BeatFile(m.tools[j], env) == BeatFile(m.tools[i], env);
    }
  }

  lemma PluginStepIsAsked(m: Manifest, f: Fetched, env: Env, i: nat, s: Step)
    requires i < |m.tools| && m.tools[i].plugin.Some? && HasTurn(m, f, env, i)
    requires PluginRow(s, m.tools[i].plugin.value, f, env)
    ensures Asked(s, m, f, env)
  {
    HasTurnIs(m, f, env, i);
    hide PluginTurn, PluginRow, HasTurn, BeatRow, HelperRow, GateRow, UnmarkRow, UnownRow, OnHost, CopyOf;
    assert ToolRow(s, m, f, env, i);
  }

  /** Every file of a plugin that had its turn is there, if it stays inside the plugin's directory and
      its body could be fetched. */
  lemma PluginFileArrives(m: Manifest, f: Fetched, files: Files, env: Env, i: nat, pf: SourceFile)
    requires i < |m.tools| && m.tools[i].plugin.Some? && pf in m.tools[i].plugin.value.files
    requires f.body(pf.src).Some?
    ensures var dir := PlaceOf(m.tools[i].plugin.value.installPath, env);
            Fair(m, f, env) && HasTurn(m, f, env, i) && dir != [] && dir <= Join(dir, pf.name) ==>
              HasBody(After(m, f, files, env), env.canon(Join(dir, pf.name)), f.body(pf.src).value, env)
  {
    hide Fair, HasTurn, After, PlaceOf, Join, Asked;
    var p := m.tools[i].plugin.value;
    var dir := PlaceOf(p.installPath, env);
    if HasTurn(m, f, env, i) && dir != [] && dir <= Join(dir, pf.name) {
      var s := Own(p.id, PluginFile, Join(dir, pf.name), f.body(pf.src).value);
      assert PluginFileRow(s, p, pf, f, env);
      PluginStepIsAsked(m, f, env, i, s);
      OwnArrives(m, f, files, env, s);
    }
  }

  /** The config says of the id what the two paths hold. */
  predicate ConfigTrusts(files: Files, path: AbsPath, al: AllowListEntry, id: string, env: Env) {
    var key := env.canon(path);
    && key in files && env.codec.parse(files[key]).Some?
    && (var o := env.codec.parse(files[key]).value;
        Str(id) in Items(o, al.allow) && Get(o, al.entries + [id, "enabled"]) == Some(Bool(true)))
  }

  /** The config is absent, or parses. */
  predicate ConfigReads(files: Files, path: AbsPath, env: Env) {
    env.canon(path) in files ==> env.codec.parse(files[env.canon(path)]).Some?
  }

  /** The plugin's config can be read, and neither of its two paths lies on the way to the other. */
  predicate CanBeTrusted(files: Files, p: Plugin, env: Env) {
    && p.allowList.Some?
    && ConfigReads(files, PlaceOf(p.allowList.value.configPath, env), env)
    && !Comparable(p.allowList.value.allow, p.allowList.value.entries + [p.id, "enabled"])
  }

  predicate IsTrusted(files: Files, p: Plugin, env: Env) {
    p.allowList.Some? && ConfigTrusts(files, PlaceOf(p.allowList.value.configPath, env), p.allowList.value, p.id, env)
  }

  /** The step that puts a plugin into its config. */
  function TrustOf(p: Plugin, env: Env): Step
    requires p.allowList.Some?
  {
    var al := p.allowList.value;
    Trust(p.id, ConfigEntry(PlaceOf(al.configPath, env), Place(al.allow, al.entries, p.id)))
  }

  /** Every plugin that had its turn is allowed and enabled in its tool's config, if that can be. */
  lemma PluginIsTrusted(m: Manifest, f: Fetched, files: Files, env: Env, i: nat)
    requires i < |m.tools| && m.tools[i].plugin.Some?
    ensures Fair(m, f, env) && HasTurn(m, f, env, i) && CanBeTrusted(files, m.tools[i].plugin.value, env) ==>
              IsTrusted(After(m, f, files, env), m.tools[i].plugin.value, env)
  {
    hide *;
    var p := m.tools[i].plugin.value;
    CanMeansAllowList(files, p, env);
    if Fair(m, f, env) && HasTurn(m, f, env, i) && CanBeTrusted(files, p, env) {
      var s := TrustOf(p, env);
      TrustRowIs(p, f, env);
      PluginStepIsAsked(m, f, env, i, s);
      StepsAreRows(m, f, env);
      TrustStepTakes(StepsOf(m, f, env), p, files, env);
      FairParts(m, f, env);
      AfterIs(m, f, files, env);
    }
  }

  lemma CanMeansAllowList(files: Files, p: Plugin, env: Env)
    ensures CanBeTrusted(files, p, env) ==> p.allowList.Some?
  {
    hide ConfigReads, PlaceOf, Comparable;
  }

  lemma TrustStepTakes(steps: seq<Step>, p: Plugin, files: Files, env: Env)
    requires p.allowList.Some? && TrustOf(p, env) in steps
    ensures Calm(env) && Peaceful(steps, env) && CanBeTrusted(files, p, env) ==>
              IsTrusted(Tick(steps, files, env), p, env)
  {
    hide Peaceful, Tick, ViewOf, ConfigReads, ConfigTrusts, Comparable, PlaceOf, Calm;
    var al := p.allowList.value;
    var k :| 0 <= k < |steps| && steps[k] == TrustOf(p, env);
    var e := steps[k].entry;
    CalmParts(env);
    if Calm(env) && Peaceful(steps, env) && CanBeTrusted(files, p, env) {
      ReadsMeansView(files, e, env);
      TickKeepsTrust(steps, k, files, env);
      ViewMeansTrusts(Tick(steps, files, env), e.path, al, p.id, env);
    }
  }

  lemma TrustRowIs(p: Plugin, f: Fetched, env: Env)
    requires p.allowList.Some?
    ensures PluginRow(TrustOf(p, env), p, f, env) && TrustOf(p, env).Trust?
  {
    hide PlaceOf, PluginFileRow;
  }

  lemma FairParts(m: Manifest, f: Fetched, env: Env)
    ensures Fair(m, f, env) ==>
              && NoFailures(env) && Faithful(env.codec) && Calm(env) && Peaceful(StepsOf(m, f, env), env)
              && env.unreadable == {} && env.locked == {}
  {
    hide Peaceful, Faithful, StepsOf;
  }

  lemma AfterIs(m: Manifest, f: Fetched, files: Files, env: Env)
    ensures After(m, f, files, env) == Tick(StepsOf(m, f, env), files, env)
  {
    hide Tick, StepsOf;
  }

  lemma ReadsMeansView(files: Files, e: ConfigEntry, env: Env)
    requires NoFailures(env)
    ensures ConfigReads(files, e.path, env) <==> ViewOf(files, e, env).Some?
  {
    hide StandingOf;
  }

  lemma ViewMeansTrusts(files: Files, path: AbsPath, al: AllowListEntry, id: string, env: Env)
    requires NoFailures(env)
    ensures var v := ViewOf(files, ConfigEntry(path, Place(al.allow, al.entries, id)), env);
            v.Some? && v.value.allowed && v.value.enabled <==> ConfigTrusts(files, path, al, id, env)
  {
    Preview.NothingStands(Place(al.allow, al.entries, id));
    hide Get, Items;
    ItemsOfNothing(al.allow);
  }

  lemma ItemsOfNothing(p: Path)
    ensures Items(map[], p) == []
  {
    GetOfNothing(p);
  }

  // ---- heartbeats ------------------------------------------------------------------------------------

  function Bytes(files: Files, key: AbsPath): Option<string> {
    if key in files then Some(files[key]) else None
  }

  /** Tool `i` is the one that beats in its heartbeat file: the first that is there and renders. */
  ghost predicate BeatsFirst(m: Manifest, f: Fetched, env: Env, i: nat)
    requires i < |m.tools|
  {
    && Renders(m.tools[i], m, f, env)
    && forall j :: 0 <= j < i && Renders(m.tools[j], m, f, env) ==>
         env.canon(PlaceOf(m.tools[j].heartbeatPath, env)) != env.canon(PlaceOf(m.tools[i].heartbeatPath, env))
  }

  lemma BeatIsAsked(m: Manifest, f: Fetched, env: Env, i: nat)
    requires i < |m.tools| && BeatsFirst(m, f, env, i)
    ensures var t := m.tools[i];
            Asked(Beat(t.name, PlaceOf(t.heartbeatPath, env), BlockFor(t, m, f, env)), m, f, env)
  {
    var t := m.tools[i];
    var s := Beat(t.name, PlaceOf(t.heartbeatPath, env), BlockFor(t, m, f, env));
    hide HelperRow, GateRow, UnmarkRow, UnownRow, PluginRow, PluginTurn, CopyOf, BlockFor, PlaceOf;
    assert Renders(t, m, f, env) ==> OnHost(t, env) && t.heartbeatPath != "" && t.template != "";
    assert !Taken(m, f, env, i);
    assert BeatRow(s, m, f, env, i);
    assert ToolRow(s, m, f, env, i);
  }

  /** The file after a tick is the file after one reconciliation with the tool's block. */
  lemma HeartbeatIsReconciled(m: Manifest, f: Fetched, files: Files, env: Env, i: nat)
    requires i < |m.tools| && BeatsFirst(m, f, env, i)
    ensures var key := env.canon(PlaceOf(m.tools[i].heartbeatPath, env));
            Fair(m, f, env) ==>
              Bytes(After(m, f, files, env), key) == Reconciled(Bytes(files, key), BlockFor(m.tools[i], m, f, env))
  {
    hide *;
    var t := m.tools[i];
    FirstRenders(m, f, env, i);
    var s := Beat(t.name, PlaceOf(t.heartbeatPath, env), BlockFor(t, m, f, env));
    BeatIsAsked(m, f, env, i);
    StepsAreRows(m, f, env);
    FairParts(m, f, env);
    AfterIs(m, f, files, env);
    if Fair(m, f, env) {
      var steps := StepsOf(m, f, env);
      var k :| 0 <= k < |steps| && steps[k] == s;
      ContentAfterTick(steps, k, files, env);
      MarkText(s, files, env);
      MarkText(s, After(m, f, files, env), env);
    }
  }

  lemma FirstRenders(m: Manifest, f: Fetched, env: Env, i: nat)
    requires i < |m.tools| && BeatsFirst(m, f, env, i)
    ensures Renders(m.tools[i], m, f, env)
  {
    hide Renders;
  }

  lemma MarkText(s: Step, files: Files, env: Env)
    requires NoFailures(env) && (s.Beat? || s.Unmark?)
    ensures ContentOf(s, files, env) == Bytes(files, env.canon(s.path))
    ensures NextContent(s, ContentOf(s, files, env)) ==
            if s.Beat? then Reconciled(Bytes(files, env.canon(s.path)), s.d)
            else Stripped(Bytes(files, env.canon(s.path)))
  {
    hide Reconciled, Stripped;
  }

  /** Main result on heartbeats: with at most one block in the file, one tick leaves exactly one block
      there with the hashes of this skill and this rendering; and unless that block was there already,
      the new one stands in the file with its body, literally. */
  lemma HeartbeatArrives(m: Manifest, f: Fetched, files: Files, env: Env, i: nat)
    requires i < |m.tools| && BeatsFirst(m, f, env, i)
    ensures var key := env.canon(PlaceOf(m.tools[i].heartbeatPath, env));
            var d := BlockFor(m.tools[i], m, f, env);
            var start := Bytes(files, key);
            var end := Bytes(After(m, f, files, env), key);
            Fair(m, f, env) && HexHash(env.sha) && (start.Some? ==> |BlockScan.Blocks(start.value)| <= 1) ==>
              && Settled(end, d)
              && (if Settled(start, d) then end == start else Carries(end, d))
  {
    hide *;
    FirstRenders(m, f, env, i);
    var t := m.tools[i];
    var d := BlockFor(t, m, f, env);
    var start := Bytes(files, env.canon(PlaceOf(t.heartbeatPath, env)));
    HeartbeatIsReconciled(m, f, files, env, i);
    if Fair(m, f, env) && HexHash(env.sha) && (start.Some? ==> |BlockScan.Blocks(start.value)| <= 1) {
      BlockIsValid(m, f, env, i);
      OneWriteSettles(start, d);
      if Settled(start, d) {
        SettledStays(start, d, 0);
      } else {
        UnsettledIsWritten(start, d);
        WrittenCarries(start, d);
      }
    }
  }

  /** The text holds the block's body between its delimiters. */
  ghost predicate Carries(content: Option<string>, d: Directive) {
    && content.Some?
    && exists p: string, q: string ::
         content.value == p + (BlockScan.CLOSE + "\n" + d.ref + "\n" + BlockScan.END + "\n") + q
  }

  lemma UnsettledIsWritten(content: Option<string>, d: Directive)
    requires !Settled(content, d)
    ensures Reconciled(content, d) == Some(Written(content, d))
  {
    hide Written, BlockScan.BlocksFrom;
  }

  lemma WrittenCarries(content: Option<string>, d: Directive)
    requires Valid(d)
    ensures Carries(Some(Written(content, d)), d)
  {
    hide *;
    var a, t := FirstWrite(content, d);
    RenderedHolds(d);
    InFormIs(Written(content, d), a, d, t);
    var head := BlockScan.HEADER + d.hash + (" r=" + d.r + "\n     " + DISCLOSURE + "\n");
    var body := BlockScan.CLOSE + "\n" + d.ref + "\n" + BlockScan.END + "\n";
    assert Rendered(d) == head + body;
    assert a + Rendered(d) + t == (a + head) + body + t;
    CarriesIs(Written(content, d), a + head, d, t);
  }

  lemma CarriesIs(w: string, p: string, d: Directive, q: string)
    requires w == p + (BlockScan.CLOSE + "\n" + d.ref + "\n" + BlockScan.END + "\n") + q
    ensures Carries(Some(w), d)
  {
  }

  lemma BlockIsValid(m: Manifest, f: Fetched, env: Env, i: nat)
    requires i < |m.tools| && Renders(m.tools[i], m, f, env) && HexHash(env.sha)
    ensures Valid(BlockFor(m.tools[i], m, f, env))
  {
    hide Valid, Renders, BlockFor, HexHash, DirectiveOf;
    RendersIs(m.tools[i], m, f, env);
    Ownership.DirectiveIsValid(m.tools[i], m, f, env);
  }

  // ---- gated rows --------------------------------------------------------------------------------------

  /** The row's copy is no tool's copy. */
  ghost predicate OwnCopy(gt: GatedTool, m: Manifest, env: Env) {
    && CopyPath(gt, m.entrypoint, env.home).Some?
    && forall t :: t in m.tools && OnHost(t, env) ==>
         env.canon(CopyOf(t, m, env)) != env.canon(CopyPath(gt, m.entrypoint, env.home).value)
  }

  /** The skill in the row's format. */
  function Formatted(f: Fetched, gt: GatedTool, m: Manifest): Option<string> {
    if gt.skillFormat == "" then Some(f.skill)
    else if gt.skillFormat == "muse" then Some(MuseShell.MuseFrontmatter(f.skill, MuseName(m.entrypoint)))
    else None
  }

  lemma GateIsAsked(m: Manifest, f: Fetched, env: Env, gt: GatedTool) returns (s: Step)
    requires gt in m.gated
    ensures s in StepsOf(m, f, env) && s.Gate? && s.gt == gt && s.entrypoint == m.entrypoint
    ensures s.want == Formatted(f, gt, m)
    ensures OwnCopy(gt, m, env) ==> env.canon(CopyPath(gt, m.entrypoint, env.home).value) !in s.taken
  {
    hide OnHost, CopyOf, CopyPath, MuseShell.MuseFrontmatter, MuseName, HelperRow, ToolRow, UnmarkRow, UnownRow;
    hide SkillKeys, StepsOf;
    SkillKeysAre(m, env);
    s := Gate(gt, m.entrypoint, Formatted(f, gt, m), SkillKeys(m.tools, m, env));
    assert GateRow(s, gt, m, f, env);
    StepsAreRows(m, f, env);
  }

  lemma OnlyDone(steps: seq<Step>, s: Step, files: Files, env: Env) returns (k: nat, before: Files)
    requires s in steps && !s.Own?
    ensures k < |steps| && steps[k] == s
    ensures Calm(env) && Peaceful(steps, env) ==>
              && SameView(s, files, before, env) && Sturdy(s, env)
              && SameView(s, Apply(s, before, env, false).files, Tick(steps, files, env), env)
  {
    hide Peaceful, Tick, SameView, Calm, Sturdy, Apply;
    k :| 0 <= k < |steps| && steps[k] == s;
    before := files;
    CalmParts(env);
    PeacefulParts(steps, env);
    if Calm(env) && Peaceful(steps, env) {
      Preview.Refuse(s, files, env);
      before := AroundStep(steps, k, files, env);
    }
  }

  /** Which files a gated row looks at: its copy and its marker. */
  lemma GateLooksAt(s: Step, env: Env)
    requires s.Gate? && CopyPath(s.gt, s.entrypoint, env.home).Some?
    requires env.canon(CopyPath(s.gt, s.entrypoint, env.home).value) !in s.taken
    ensures env.canon(CopyPath(s.gt, s.entrypoint, env.home).value) in Looks(s, env)
    ensures var marker := Expand(s.gt.requireMarker, env.home);
            marker.Some? && env.home + [PILOT] < marker.value ==> env.canon(marker.value) in Looks(s, env)
  {
    hide Expand, ResolveTarget, MarkerPath, CopyPath, Stands, WayClear, LinkOnWay;
    MarkerPathIs(s.gt, env.home);
    TargetStands(s.gt, s.entrypoint, env);
  }

  lemma MarkerNamesAgree(a: Files, b: Files, gt: GatedTool, env: Env)
    requires var marker := Expand(gt.requireMarker, env.home);
             marker.Some? && env.home + [PILOT] < marker.value ==> AgreeOn(a, b, {env.canon(marker.value)})
    ensures MarkerNames(a, gt, env) <==> MarkerNames(b, gt, env)
  {
    hide Expand, Declared;
  }

  lemma GateLooks(s: Step, a: Files, b: Files, env: Env)
    requires s.Gate? && SameView(s, a, b, env)
    requires CopyPath(s.gt, s.entrypoint, env.home).Some?
    requires env.canon(CopyPath(s.gt, s.entrypoint, env.home).value) !in s.taken
    ensures AgreeOn(a, b, {env.canon(CopyPath(s.gt, s.entrypoint, env.home).value)})
    ensures MarkerNames(a, s.gt, env) <==> MarkerNames(b, s.gt, env)
  {
    hide Expand, CopyPath, MarkerNames, Looks, ViewOf, ConfigOf;
    GateLooksAt(s, env);
    MarkerNamesAgree(a, b, s.gt, env);
  }

  /** Main result on gated rows: after a tick a row's copy is there with the skill in its format, if its
      marker names it, it stands and the copy is no tool's; and while the marker does not name it, or it
      does not stand, the file in that place is as before. */
  lemma GateArrives(m: Manifest, f: Fetched, files: Files, env: Env, gt: GatedTool)
    requires gt in m.gated && OwnCopy(gt, m, env)
    ensures var key := env.canon(CopyPath(gt, m.entrypoint, env.home).value);
            Fair(m, f, env) ==>
              if MarkerNames(files, gt, env) && Stands(gt, m.entrypoint, env) && Formatted(f, gt, m).Some?
              then HasBody(After(m, f, files, env), key, Formatted(f, gt, m).value, env)
              else AgreeOn(files, After(m, f, files, env), {key})
  {
    hide *;
    var s := GateIsAsked(m, f, env, gt);
    OwnCopyIs(gt, m, env);
    FairParts(m, f, env);
    AfterIs(m, f, files, env);
    var k, before := OnlyDone(StepsOf(m, f, env), s, files, env);
    if Fair(m, f, env) {
      var key := env.canon(CopyPath(gt, m.entrypoint, env.home).value);
      var middle := Apply(s, before, env, false).files;
      var after := After(m, f, files, env);
      GateLooks(s, files, before, env);
      GateLooks(s, middle, after, env);
      GateApplies(s, before, env);
      GateWritesWhen(before, gt, m.entrypoint, s.want, s.taken, env);
      GateEnds(files, before, middle, after, key, s.want, env);
    }
  }

  lemma GateApplies(s: Step, files: Files, env: Env)
    requires s.Gate?
    ensures Apply(s, files, env, false).files ==
            GateReconciled(files, s.gt, s.entrypoint, s.want, s.taken, env, false).files
  {
    hide GateReconciled;
  }

  lemma OwnCopyIs(gt: GatedTool, m: Manifest, env: Env)
    requires OwnCopy(gt, m, env)
    ensures CopyPath(gt, m.entrypoint, env.home).Some?
  {
    hide CopyPath, OnHost, CopyOf;
  }

  lemma GateEnds(files: Files, before: Files, middle: Files, after: Files, key: AbsPath, want: Option<string>, env: Env)
    requires AgreeOn(files, before, {key}) && AgreeOn(middle, after, {key})
    requires env.unreadable == {} && env.locked == {}
    ensures want.Some? && middle == before[key := want.value] ==> HasBody(after, key, want.value, env)
    ensures want.Some? && middle == before && !MayWrite(before, key, want.value, env) ==>
              HasBody(after, key, want.value, env)
    ensures middle == before ==> AgreeOn(files, after, {key})
  {
  }

  // ---- what it takes away ----------------------------------------------------------------------------

  /** A retired heartbeat file loses its blocks. */
  lemma RetiredHeartbeatIsStripped(m: Manifest, f: Fetched, files: Files, env: Env, e: MarkerEntry)
    requires e in RetiredMarkers(m) && MarkerGone(e, m, env)
    ensures var key := env.canon(Expand(e.path, env.home).value);
            Fair(m, f, env) ==> Bytes(After(m, f, files, env), key) == Stripped(Bytes(files, key))
  {
    hide *;
    var key := env.canon(Expand(e.path, env.home).value);
    var s := GoneHasStep(m, f, env, e);
    FairParts(m, f, env);
    AfterIs(m, f, files, env);
    if Fair(m, f, env) {
      var steps := StepsOf(m, f, env);
      var k :| 0 <= k < |steps| && steps[k] == s;
      ContentAfterTick(steps, k, files, env);
      MarkText(s, files, env);
      MarkText(s, After(m, f, files, env), env);
    }
  }

  /** An entry that is gone has a step, its own or that of an earlier entry for its file. */
  lemma GoneHasStep(m: Manifest, f: Fetched, env: Env, e: MarkerEntry) returns (s: Step)
    requires e in RetiredMarkers(m) && MarkerGone(e, m, env)
    ensures s in StepsOf(m, f, env) && s in RetiredSteps(RetiredOf(m, env)) && s.Unmark?
    ensures env.canon(s.path) == env.canon(Expand(e.path, env.home).value)
  {
    hide *;
    var key := env.canon(Expand(e.path, env.home).value);
    var es := RetiredMarkers(m);
    var i :| 0 <= i < |es| && es[i] == e;
    i := FirstGone(m, env, i, key);
    FirstIsRow(m, env, i, key);
    s := Unmark(es[i].tool, Expand(es[i].path, env.home).value);
    UnmarkStepsAre(m, env, s);
    PartsOfTick(m, f, env, s);
  }

  ghost predicate GoneAt(m: Manifest, env: Env, i: nat, key: AbsPath)
    requires i < |RetiredMarkers(m)|
  {
    MarkerGone(RetiredMarkers(m)[i], m, env) && env.canon(Expand(RetiredMarkers(m)[i].path, env.home).value) == key
  }

  lemma {:induction false} FirstGone(m: Manifest, env: Env, i: nat, key: AbsPath) returns (k: nat)
    requires i < |RetiredMarkers(m)| && MarkerGone(RetiredMarkers(m)[i], m, env)
    requires env.canon(Expand(RetiredMarkers(m)[i].path, env.home).value) == key
    ensures k <= i && GoneAt(m, env, k, key) && forall j :: 0 <= j < k ==> !GoneAt(m, env, j, key)
  {
    hide MarkerGone, Expand, RetiredMarkers;
    if j :| 0 <= j < i && GoneAt(m, env, j, key) {
      k := FirstGone(m, env, j, key);
    } else {
      k := i;
    }
  }

  lemma FirstIsRow(m: Manifest, env: Env, i: nat, key: AbsPath)
    requires i < |RetiredMarkers(m)| && GoneAt(m, env, i, key)
    requires forall j :: 0 <= j < i ==> !GoneAt(m, env, j, key)
    ensures var e := RetiredMarkers(m)[i];
            MarkerGone(e, m, env) && UnmarkRow(Unmark(e.tool, Expand(e.path, env.home).value), m, env, i)
    ensures env.canon(Expand(RetiredMarkers(m)[i].path, env.home).value) == key
  {
    hide MarkerGone, Expand, RetiredMarkers;
    forall j | 0 <= j < i && MarkerGone(RetiredMarkers(m)[j], m, env)
      ensures env.canon(Expand(RetiredMarkers(m)[j].path, env.home).value) != key
    {
      assert !GoneAt(m, env, j, key);
    }
  }

  /** A retired helper is deleted. */
  lemma RetiredHelperGoes(m: Manifest, f: Fetched, files: Files, env: Env, e: HelperEntry)
    requires e in RetiredHelpers(m) && HelperGone(e, m, env)
    ensures Fair(m, f, env) ==> env.canon(Expand(e.dst, env.home).value) !in After(m, f, files, env)
  {
    hide *;
    var es := RetiredHelpers(m);
    var i :| 0 <= i < |es| && es[i] == e;
    var s := HelperHasStep(m, f, env, i);
    StepIsDone(m, f, files, env, s);
    UnownIsDone(s, After(m, f, files, env), env);
  }

  lemma UnownIsDone(s: Step, files: Files, env: Env)
    requires s.Unown?
    ensures Installed.AsWanted(s, files, env) <==> env.canon(s.path) !in files
  {
  }

  lemma {:induction false} HelperHasStep(m: Manifest, f: Fetched, env: Env, i: nat) returns (s: Step)
    requires i < |RetiredHelpers(m)| && HelperGone(RetiredHelpers(m)[i], m, env)
    ensures s in StepsOf(m, f, env) && s.Unown? && s.path == Expand(RetiredHelpers(m)[i].dst, env.home).value
  {
    hide HelperGone, Expand, RetiredHelpers, StepsOf, HelperRow, ToolRow, GateRow, UnmarkRow;
    var es := RetiredHelpers(m);
    if j :| 0 <= j < i && HelperGone(es[j], m, env) && Expand(es[j].dst, env.home) == Expand(es[i].dst, env.home) {
      s := HelperHasStep(m, f, env, j);
    } else {
      s := Unown(es[i].name, Expand(es[i].dst, env.home).value);
      assert UnownRow(s, m, env, i);
      StepsAreRows(m, f, env);
    }
  }

  /** The config, if it is there, parses and lists the id at neither of the two paths. */
  predicate SaysNothing(files: Files, e: ConfigEntry, env: Env) {
    var key := env.canon(e.path);
    key in files ==>
      && env.codec.parse(files[key]).Some?
      && Str(e.at.id) !in Items(env.codec.parse(files[key]).value, e.at.allow)
      && Get(env.codec.parse(files[key]).value, e.at.entries + [e.at.id]).None?
  }

  lemma ClearSaysNothing(files: Files, e: ConfigEntry, env: Env)
    ensures InConfig(files, e, env) == Clear ==> SaysNothing(files, e, env)
    ensures InConfig(files, e, env) == Unknown <==>
              && env.canon(e.path) in files
              && (env.canon(e.path) in env.unreadable || env.codec.parse(files[env.canon(e.path)]).None?)
  {
    hide Get, Items;
  }

  /** The step of a retired plugin, with its files and its config. */
  lemma PluginHasStep(m: Manifest, f: Fetched, env: Env, i: nat) returns (s: Step)
    requires i < |RetiredPlugins(m)| && PluginGoes(m, env, i)
    ensures s in StepsOf(m, f, env) && s in RetiredSteps(RetiredOf(m, env)) && UnplugRow(s, m, env, i)
  {
    hide *;
    UnplugStepsAre(m, env);
    s :| s in UnplugSteps(RetiredOf(m, env).plugins) && UnplugRow(s, m, env, i);
    PartsOfTick(m, f, env, s);
  }

  lemma UnplugRowHolds(s: Step, m: Manifest, env: Env, i: nat)
    requires i < |RetiredPlugins(m)| && UnplugRow(s, m, env, i)
    ensures var e := RetiredPlugins(m)[i];
            && PluginGone(e, m, env) && s.Unplug? && s.rp.id == e.id && s.rp.entry == ConfigGone(e, env)
            && s.rp.stubs == (if e.id in m.stubs then m.stubs[e.id] else map[])
            && (forall p :: FileGone(p, e, env) <==> p in s.rp.files)
            && (forall p :: FileGone(p, e, env) ==> env.canon(p) in Keys(s.rp.files, env))
  {
    hide PluginGone, FileGone, RetiredPlugins, Expand, ConfigGone;
  }

  /** Main result on retired plugins, safety: whatever fails in a tick, if a file of the entry goes and
      the entry has a config, the config lists the id at neither of its paths when the tick ends. */
  lemma RetiredFilesGoSafely(m: Manifest, f: Fetched, files: Files, env: Env, i: nat)
    requires i < |RetiredPlugins(m)| && PluginGoes(m, env, i)
    requires ConfigGone(RetiredPlugins(m)[i], env).Some?
    ensures var e := RetiredPlugins(m)[i];
            var config := ConfigGone(e, env).value;
            var after := Tick(StepsOf(m, f, env), files, env);
            Faithful(env.codec) && Peaceful(StepsOf(m, f, env), env) &&
            (env.canon(config.path) in env.unreadable ==> env.canon(config.path) in files) &&
            (exists p :: FileGone(p, e, env) && env.canon(p) in files && env.canon(p) !in after) ==>
              SaysNothing(after, config, env)
  {
    hide *;
    var e := RetiredPlugins(m)[i];
    var config := ConfigGone(e, env).value;
    var steps := StepsOf(m, f, env);
    var after := Tick(steps, files, env);
    var s := PluginHasStep(m, f, env, i);
    UnplugRowHolds(s, m, env, i);
    if Faithful(env.codec) && Peaceful(steps, env) &&
      (env.canon(config.path) in env.unreadable ==> env.canon(config.path) in files) &&
      (exists p :: FileGone(p, e, env) && env.canon(p) in files && env.canon(p) !in after)
    {
      var k :| 0 <= k < |steps| && steps[k] == s;
      UnplugRefusable(s, files, env);
      TickRetiresSafely(steps, k, files, env);
      ClearSaysNothing(after, config, env);
    }
  }

  lemma UnplugRefusable(s: Step, files: Files, env: Env)
    requires s.Unplug? && s.rp.entry.Some?
    ensures Refusable(s, files, env) <==>
              (env.canon(s.rp.entry.value.path) in env.unreadable ==> env.canon(s.rp.entry.value.path) in files)
  {
  }

  /** Main result on retired plugins, progress: if nothing fails and the entry's config, if it has one,
      parses, then after one tick the config lists the id nowhere and every file of the entry is gone. */
  lemma RetiredPluginGoes(m: Manifest, f: Fetched, files: Files, env: Env, i: nat)
    requires i < |RetiredPlugins(m)| && PluginGoes(m, env, i)
    ensures var e := RetiredPlugins(m)[i];
            var config := ConfigGone(e, env);
            var after := After(m, f, files, env);
            Fair(m, f, env) && (config.Some? ==> ConfigReads(files, config.value.path, env)) ==>
              && (config.Some? ==> SaysNothing(after, config.value, env))
              && (forall p :: FileGone(p, e, env) ==> env.canon(p) !in after)
  {
    hide *;
    var e := RetiredPlugins(m)[i];
    var config := ConfigGone(e, env);
    var s := PluginHasStep(m, f, env, i);
    UnplugRowHolds(s, m, env, i);
    FairParts(m, f, env);
    AfterIs(m, f, files, env);
    if Fair(m, f, env) && (config.Some? ==> ConfigReads(files, config.value.path, env)) {
      var steps := StepsOf(m, f, env);
      var k :| 0 <= k < |steps| && steps[k] == s;
      if config.Some? {
        ClearSaysNothing(files, config.value, env);
        ReadsIs(files, config.value.path, env);
        ClearSaysNothing(After(m, f, files, env), config.value, env);
      }
      TickRetires(steps, k, files, env);
    }
  }

  lemma ReadsIs(files: Files, path: AbsPath, env: Env)
    ensures ConfigReads(files, path, env) <==>
              (env.canon(path) in files ==> env.codec.parse(files[env.canon(path)]).Some?)
  {
  }

  /** A retired plugin whose config does not parse stays, but each of its files with a stub holds the stub. */
  lemma RetiredPluginIsSilenced(m: Manifest, f: Fetched, files: Files, env: Env, i: nat, p: AbsPath)
    requires i < |RetiredPlugins(m)| && PluginGoes(m, env, i) && FileGone(p, RetiredPlugins(m)[i], env)
    requires p != [] && RetiredPlugins(m)[i].id in m.stubs && p[|p| - 1] in m.stubs[RetiredPlugins(m)[i].id]
    requires ConfigGone(RetiredPlugins(m)[i], env).Some?
    ensures var e := RetiredPlugins(m)[i];
            var key := env.canon(ConfigGone(e, env).value.path);
            var after := After(m, f, files, env);
            Fair(m, f, env) && key in after && env.codec.parse(after[key]).None? && env.canon(p) in after ==>
              after[env.canon(p)] == m.stubs[e.id][p[|p| - 1]]
  {
    hide *;
    var e := RetiredPlugins(m)[i];
    var s := PluginHasStep(m, f, env, i);
    UnplugRowHolds(s, m, env, i);
    StepIsDone(m, f, files, env, s);
    UnplugIsDone(s, After(m, f, files, env), env, p);
  }

  lemma UnplugIsDone(s: Step, files: Files, env: Env, p: AbsPath)
    requires s.Unplug? && s.rp.entry.Some? && p in s.rp.files && p != [] && p[|p| - 1] in s.rp.stubs
    ensures Installed.AsWanted(s, files, env) ==>
              var key := env.canon(s.rp.entry.value.path);
              key in files && env.codec.parse(files[key]).None? && env.canon(p) in files ==>
                files[env.canon(p)] == s.rp.stubs[p[|p| - 1]]
  {
    hide Get, Items;
  }

  // ---- what it never touches -----------------------------------------------------------------------------

  /** Some row of the manifest names the file. */
  ghost predicate Named(k: AbsPath, m: Manifest, f: Fetched, env: Env) {
    || (exists h :: h in m.helpers && k == env.canon(PlaceOf(h.dst, env)))
    || (exists t :: t in m.tools && PlaceOf(t.rootDir, env) in env.dirs && k == env.canon(CopyOf(t, m, env)))
    || (exists i :: 0 <= i < |m.tools| && Renders(m.tools[i], m, f, env) &&
           k == env.canon(PlaceOf(m.tools[i].heartbeatPath, env)))
    || (exists i :: 0 <= i < |m.tools| && HasTurn(m, f, env, i) && m.tools[i].plugin.Some? &&
           NamedByPlugin(k, m.tools[i].plugin.value, env))
    || (exists gt :: gt in m.gated && CopyPath(gt, m.entrypoint, env.home).Some? &&
           k == env.canon(CopyPath(gt, m.entrypoint, env.home).value))
    || (exists e :: e in RetiredMarkers(m) && MarkerGone(e, m, env) && k == env.canon(Expand(e.path, env.home).value))
    || (exists e :: e in RetiredPlugins(m) && PluginGone(e, m, env) && NamedByRetired(k, e, env))
    || (exists e :: e in RetiredHelpers(m) && HelperGone(e, m, env) && k == env.canon(Expand(e.dst, env.home).value))
  }

  /** A file strictly inside the plugin's directory, or the directory itself, its config, or the sidecar. */
  ghost predicate NamedByPlugin(k: AbsPath, p: Plugin, env: Env) {
    var dir := PlaceOf(p.installPath, env);
    || (exists pf :: pf in p.files && (Join(dir, pf.name) == dir || (dir != [] && dir <= Join(dir, pf.name))) &&
           k == env.canon(Join(dir, pf.name)))
    || (p.allowList.Some? &&
           (k == env.canon(PlaceOf(p.allowList.value.configPath, env)) ||
            k == env.canon(BackupPath(PlaceOf(p.allowList.value.configPath, env)))))
  }

  ghost predicate NamedByRetired(k: AbsPath, e: PluginEntry, env: Env)
    requires Expand(e.installPath, env.home).Some?
  {
    || (exists p :: FileGone(p, e, env) && k == env.canon(p))
    || (ConfigGone(e, env).Some? && k == env.canon(ConfigGone(e, env).value.path))
  }

  lemma HelperIsNamed(k: AbsPath, s: Step, h: Helper, m: Manifest, f: Fetched, env: Env)
    requires h in m.helpers && HelperRow(s, h, f, env) && k in Writes(s, env) + ConfigKeys(s, env)
    ensures Named(k, m, f, env)
  {
    hide PlaceOf, NamedByPlugin, NamedByRetired, Renders, HasTurn;
  }

  lemma ToolIsNamed(k: AbsPath, s: Step, i: nat, m: Manifest, f: Fetched, env: Env)
    requires i < |m.tools| && ToolRow(s, m, f, env, i) && k in Writes(s, env) + ConfigKeys(s, env)
    ensures Named(k, m, f, env)
  {
    hide PlaceOf, NamedByPlugin, NamedByRetired, Renders, HasTurn, CopyOf, BlockFor, Taken, PluginRow, Join, BackupPath;
    hide PluginTurn;
    HasTurnIs(m, f, env, i);
    var t := m.tools[i];
    if PluginTurn(m, f, env, i) && t.plugin.Some? && PluginRow(s, t.plugin.value, f, env) {
      PluginIsNamed(k, s, t.plugin.value, f, env);
    } else if BeatRow(s, m, f, env, i) {
      assert s.Beat? && Renders(t, m, f, env);
    } else {
      assert k == env.canon(CopyOf(t, m, env)) && t in m.tools;
    }
  }

  lemma PluginIsNamed(k: AbsPath, s: Step, p: Plugin, f: Fetched, env: Env)
    requires PluginRow(s, p, f, env) && k in Writes(s, env) + ConfigKeys(s, env)
    ensures NamedByPlugin(k, p, env)
  {
    hide PlaceOf, Join, BackupPath;
  }

  lemma GateIsNamed(k: AbsPath, s: Step, gt: GatedTool, m: Manifest, f: Fetched, env: Env)
    requires gt in m.gated && GateRow(s, gt, m, f, env) && k in Writes(s, env) + ConfigKeys(s, env)
    ensures Named(k, m, f, env)
  {
    hide PlaceOf, NamedByPlugin, NamedByRetired, Renders, HasTurn, CopyPath, ResolveTarget, OnHost, CopyOf, MuseName;
    hide MuseShell.MuseFrontmatter;
    TargetStands(gt, m.entrypoint, env);
  }

  lemma UnmarkIsNamed(k: AbsPath, s: Step, i: nat, m: Manifest, f: Fetched, env: Env)
    requires i < |RetiredMarkers(m)| && UnmarkRow(s, m, env, i) && k in Writes(s, env) + ConfigKeys(s, env)
    ensures Named(k, m, f, env)
  {
    hide PlaceOf, NamedByPlugin, NamedByRetired, Renders, HasTurn, MarkerGone, RetiredMarkers, CopyPath, Expand;
    assert RetiredMarkers(m)[i] in RetiredMarkers(m);
  }

  lemma UnownIsNamed(k: AbsPath, s: Step, i: nat, m: Manifest, f: Fetched, env: Env)
    requires i < |RetiredHelpers(m)| && UnownRow(s, m, env, i) && k in Writes(s, env) + ConfigKeys(s, env)
    ensures Named(k, m, f, env)
  {
    hide PlaceOf, NamedByPlugin, NamedByRetired, Renders, HasTurn, HelperGone, RetiredHelpers, CopyPath, Expand;
    assert RetiredHelpers(m)[i] in RetiredHelpers(m);
  }

  lemma UnplugIsNamed(k: AbsPath, s: Step, i: nat, m: Manifest, f: Fetched, env: Env)
    requires i < |RetiredPlugins(m)| && UnplugRow(s, m, env, i) && k in Writes(s, env) + ConfigKeys(s, env)
    ensures Named(k, m, f, env)
  {
    hide PlaceOf, NamedByPlugin, Renders, HasTurn, PluginGone, RetiredPlugins, CopyPath, Expand, FileGone, ConfigGone;
    UnplugRowHolds(s, m, env, i);
    var e := RetiredPlugins(m)[i];
    assert e in RetiredPlugins(m);
    assert NamedByRetired(k, e, env);
  }

  lemma StepIsNamed(k: AbsPath, s: Step, m: Manifest, f: Fetched, env: Env)
    requires s in StepsOf(m, f, env) && k in Writes(s, env) + ConfigKeys(s, env)
    ensures Named(k, m, f, env)
  {
    hide *;
    StepsAreRows(m, f, env);
    if s.Unplug? {
      var i :| 0 <= i < |RetiredPlugins(m)| && UnplugRow(s, m, env, i);
      UnplugIsNamed(k, s, i, m, f, env);
    } else {
      AskedIs(s, m, f, env);
      if h :| h in m.helpers && HelperRow(s, h, f, env) {
        HelperIsNamed(k, s, h, m, f, env);
      } else if i :| 0 <= i < |m.tools| && ToolRow(s, m, f, env, i) {
        ToolIsNamed(k, s, i, m, f, env);
      } else if gt :| gt in m.gated && GateRow(s, gt, m, f, env) {
        GateIsNamed(k, s, gt, m, f, env);
      } else if i :| 0 <= i < |RetiredMarkers(m)| && UnmarkRow(s, m, env, i) {
        UnmarkIsNamed(k, s, i, m, f, env);
      } else {
        var i :| 0 <= i < |RetiredHelpers(m)| && UnownRow(s, m, env, i);
        UnownIsNamed(k, s, i, m, f, env);
      }
    }
  }

  lemma {:induction false} SparedByAll(steps: seq<Step>, files: Files, env: Env, dry: bool, k: AbsPath)
    requires forall s :: s in steps ==> k !in Writes(s, env) + ConfigKeys(s, env)
    ensures AgreeOn(files, RunSteps(steps, files, env, dry).files, {k})
    decreases |steps|
  {
    hide Apply, Writes, ConfigKeys;
    if steps != [] {
      assert steps[0] in steps && forall s :: s in steps[1..] ==> s in steps;
      StepFrame(steps[0], files, env, dry);
      SparedByAll(steps[1..], Apply(steps[0], files, env, dry).files, env, dry, k);
    }
  }

  /** Main result on what a tick leaves alone: whatever fails, real or dry, a file that no row of the
      manifest names is as before. */
  lemma TickTouchesOnlyNamed(m: Manifest, f: Fetched, files: Files, env: Env, dry: bool, k: AbsPath)
    requires !Named(k, m, f, env)
    ensures AgreeOn(files, RunSteps(StepsOf(m, f, env), files, env, dry).files, {k})
  {
    hide *;
    forall s | s in StepsOf(m, f, env) ensures k !in Writes(s, env) + ConfigKeys(s, env) {
      if k in Writes(s, env) + ConfigKeys(s, env) { StepIsNamed(k, s, m, f, env); }
    }
    SparedByAll(StepsOf(m, f, env), files, env, dry, k);
  }

  /** The sidecar stands beside the config, under its name with one suffix. */
  lemma SidecarIsBeside(p: AbsPath)
    ensures PathText(BackupPath(p)) == PathText(p) + ".pilot-bak"
  {
    if p != [] {
      var dir: AbsPath, name := p[..|p| - 1], p[|p| - 1];
      assert p == dir + [name];
      SlashedAppend(dir, [name]);
      SlashedAppend(dir, [name + SUFFIX]);
      SlashedOne(name);
      SlashedOne(name + SUFFIX);
      assert BackupPath(p) == dir + [name + SUFFIX];
      hide Slashed;
      assert Slashed(dir) + ("/" + (name + SUFFIX)) == (Slashed(dir) + ("/" + name)) + SUFFIX;
    } else {
      SlashedOne(SUFFIX);
    }
  }

  lemma SlashedOne(name: string)
    ensures Slashed([name]) == "/" + name
  {
    assert [name][1..] == [] && Slashed([]) == "";
  }

  /** When a plugin's config is edited at all. */
  lemma TrustsAreRows(m: Manifest, f: Fetched, env: Env, id: string, e: ConfigEntry)
    ensures Trust(id, e) in StepsOf(m, f, env) <==>
              exists i :: 0 <= i < |m.tools| && HasTurn(m, f, env, i) && TrustIsFor(id, e, m.tools[i], env)
  {
    hide OnHost, CopyOf, BlockFor, Taken, PlaceOf, HasTurn, Renders, Join, MuseShell.MuseFrontmatter, MuseName;
    hide PluginTurn, StepsOf;
    StepsAreRows(m, f, env);
    var s := Trust(id, e);
    forall i | 0 <= i < |m.tools|
      ensures ToolRow(s, m, f, env, i) <==> HasTurn(m, f, env, i) && TrustIsFor(id, e, m.tools[i], env)
    {
      HasTurnIs(m, f, env, i);
    }
  }

  predicate TrustIsFor(id: string, e: ConfigEntry, t: Tool, env: Env) {
    && t.plugin.Some? && t.plugin.value.allowList.Some? && id == t.plugin.value.id
    && (var al := t.plugin.value.allowList.value;
        e == ConfigEntry(PlaceOf(al.configPath, env), Place(al.allow, al.entries, id)))
  }
}
