/**
 From a manifest to the steps of a tick: which surfaces are managed, in which order, who owns
 a shared heartbeat file, and what is retired.
 */
module Manifest {
  import opened Text
  import opened Render
  import opened Heartbeat
  import opened Paths
  import opened Outcomes
  import opened ConfigFile
  import opened World
  import opened Retired
  import opened Gated
  import opened GatedRun
  import opened RetiredList
  import opened Steps

  datatype SourceFile = SourceFile(name: string, src: string)
  datatype Plugin = Plugin(id: string, installPath: string, files: seq<SourceFile>, allowList: Option<AllowListEntry>)
  datatype Helper = Helper(name: string, src: string, dst: string)

  /** An empty heartbeat path or template means the tool has no heartbeat file. */
  datatype Tool = Tool(name: string, rootDir: string, skillsDir: string, flat: bool,
                       heartbeatPath: string, template: string, plugin: Option<Plugin>)

  datatype Manifest = Manifest(entrypoint: string, helpers: seq<Helper>, tools: seq<Tool>,
                               gated: seq<GatedTool>, retired: Source, stubs: Stubs)

  /** What was fetched: the skill body, repository files, and each template rendered for a skill path. */
  datatype Fetched = Fetched(skill: string, body: string -> Option<string>, render: (string, AbsPath) -> Option<string>)

  /** `builtinRetired`. */
  const BUILTIN := Source(
    [MarkerEntry("openclaw", "~/.openclaw/workspace/HEARTBEAT.md"),
        MarkerEntry("picoclaw", "~/.picoclaw/workspace/AGENT.md")],
    [PluginEntry("pilotprotocol-prompt-injector", "~/.openclaw/extensions/pilotprotocol-prompt-injector",
                 ["openclaw.plugin.json", "index.mjs"],
                 Some(AllowListEntry("~/.openclaw/openclaw.json", ["plugins", "allow"], ["plugins", "entries"])))],
    [HelperEntry("pilot-ask", "~/.pilot/bin/pilot-ask")])

  /** `expandHome` on a path of the manifest; a relative one is taken from the working directory. */
  function PlaceOf(p: string, env: Env): AbsPath {
    if Expand(p, env.home).Some? then Expand(p, env.home).value else Resolved(env.cwd, Parts(p))
  }

  function SkillPathOf(t: Tool, m: Manifest, env: Env): AbsPath {
    SkillPath(PlaceOf(t.skillsDir, env), m.entrypoint, t.flat)
  }

  predicate Installed(t: Tool, env: Env) {
    PlaceOf(t.rootDir, env) in env.dirs
  }

  predicate HasHeartbeat(t: Tool) {
    t.heartbeatPath != "" && t.template != ""
  }

  function HeartbeatKey(t: Tool, env: Env): AbsPath {
    env.canon(PlaceOf(t.heartbeatPath, env))
  }

  function Short(hash: string): string {
    if |hash| >= 12 then hash[..12] else hash
  }

  /** `markerHash`. */
  function MarkerHash(skillHash: string, ref: string, env: Env): string {
    Short(env.sha(skillHash + "\n" + RenderMarker(ref, "", "")))
  }

  /** The block this tool wants; none if its template cannot be fetched, rendered or written safely. */
  function DirectiveOf(t: Tool, m: Manifest, f: Fetched, env: Env): Option<Directive> {
    var ref := f.render(t.template, SkillPathOf(t, m, env));
    if ref.None? || !ValidRef(ref.value) then None
    else Some(Directive(ref.value, Short(env.sha(f.skill)), MarkerHash(env.sha(f.skill), ref.value, env)))
  }

  // ---- the steps ---------------------------------------------------------------------------------

  function Failed(tool: string, kind: FileKind, path: AbsPath): Step {
    Say(Row(tool, kind, path, Absent, Error))
  }

  function HelperStep(h: Helper, f: Fetched, env: Env): Step {
    var dst := PlaceOf(h.dst, env);
    var body := f.body(h.src);
    if body.None? then Failed(h.name, HelperFile, dst) else Own(h.name, HelperFile, dst, body.value)
  }

  function HelperSteps(hs: seq<Helper>, f: Fetched, env: Env): seq<Step> {
    if hs == [] then [] else [HelperStep(hs[0], f, env)] + HelperSteps(hs[1..], f, env)
  }

  function PluginFileStep(id: string, dir: AbsPath, pf: SourceFile, f: Fetched): Step {
    var dst := Join(dir, pf.name);
    var body := f.body(pf.src);
    if !PathWithin(dir, dst) || body.None? then Failed(id, PluginFile, dst) else Own(id, PluginFile, dst, body.value)
  }

  function PluginFileSteps(id: string, dir: AbsPath, files: seq<SourceFile>, f: Fetched): seq<Step> {
    if files == [] then [] else [PluginFileStep(id, dir, files[0], f)] + PluginFileSteps(id, dir, files[1..], f)
  }

  function EntryFor(p: Plugin, env: Env): ConfigEntry
    requires p.allowList.Some?
  {
    var al := p.allowList.value;
    ConfigEntry(PlaceOf(al.configPath, env), Place(al.allow, al.entries, p.id))
  }

  function PluginSteps(p: Option<Plugin>, f: Fetched, env: Env): seq<Step> {
    match p
    case None => []
    case Some(p) =>
      PluginFileSteps(p.id, PlaceOf(p.installPath, env), p.files, f) +
      (if p.allowList.Some? then [Trust(p.id, EntryFor(p, env))] else [])
  }

  /** The heartbeat of a tool: noted if another tool owns the file, failed, or written. */
  function HeartbeatStep(t: Tool, m: Manifest, f: Fetched, env: Env, owned: set<AbsPath>): Step {
    var path := PlaceOf(t.heartbeatPath, env);
    if HeartbeatKey(t, env) in owned then Say(Row(t.name, MarkerFile, path, Identical, Noop))
    else match DirectiveOf(t, m, f, env)
      case None => Failed(t.name, MarkerFile, path)
      case Some(d) => Beat(t.name, path, d)
  }

  /** The rest of the tool is skipped when its heartbeat could not be rendered. */
  predicate GoesOn(t: Tool, m: Manifest, f: Fetched, env: Env, owned: set<AbsPath>) {
    HeartbeatKey(t, env) in owned || DirectiveOf(t, m, f, env).Some?
  }

  function ToolSteps(t: Tool, m: Manifest, f: Fetched, env: Env, owned: set<AbsPath>): seq<Step> {
    if !Installed(t, env) then []
    else
      [Own(t.name, SkillFile, SkillPathOf(t, m, env), f.skill)] +
      (if !HasHeartbeat(t) then []
       else [HeartbeatStep(t, m, f, env, owned)] +
              (if GoesOn(t, m, f, env, owned) then PluginSteps(t.plugin, f, env) else []))
  }

  function OwnedAfter(t: Tool, m: Manifest, f: Fetched, env: Env, owned: set<AbsPath>): set<AbsPath> {
    if Installed(t, env) && HasHeartbeat(t) && GoesOn(t, m, f, env, owned)
    then owned + {HeartbeatKey(t, env)}
    else owned
  }

  function AllToolSteps(ts: seq<Tool>, m: Manifest, f: Fetched, env: Env, owned: set<AbsPath>): seq<Step>
    decreases |ts|
  {
    if ts == [] then []
    else ToolSteps(ts[0], m, f, env, owned) + AllToolSteps(ts[1..], m, f, env, OwnedAfter(ts[0], m, f, env, owned))
  }

  /** The skill copies of the installed tools, by the files they resolve to. */
  function SkillKeys(ts: seq<Tool>, m: Manifest, env: Env): set<AbsPath> {
    set t | t in ts && Installed(t, env) :: env.canon(SkillPathOf(t, m, env))
  }

  function GateSteps(gts: seq<GatedTool>, m: Manifest, f: Fetched, taken: set<AbsPath>): seq<Step> {
    if gts == [] then []
    else [Gate(gts[0], m.entrypoint, FormatSkill(f.skill, gts[0].skillFormat, m.entrypoint), taken)] +
           GateSteps(gts[1..], m, f, taken)
  }

  // ---- what is active, and what is retired -----------------------------------------------------------

  function Resolvable(p: string, env: Env): Option<AbsPath> {
    if p == "" then None else Expand(p, env.home)
  }

  function ActiveMarkers(ts: seq<Tool>, env: Env): set<AbsPath> {
    set t | t in ts && Resolvable(t.heartbeatPath, env).Some? :: env.canon(Resolvable(t.heartbeatPath, env).value)
  }

  function ActiveIds(ts: seq<Tool>): set<string> {
    set t | t in ts && t.plugin.Some? :: t.plugin.value.id
  }

  function ActiveDirs(ts: seq<Tool>, env: Env): set<AbsPath> {
    set t | t in ts && t.plugin.Some? && Resolvable(t.plugin.value.installPath, env).Some? ::
      env.canon(Resolvable(t.plugin.value.installPath, env).value)
  }

  function ActiveHelpers(hs: seq<Helper>, env: Env): set<AbsPath> {
    set h | h in hs && Resolvable(h.dst, env).Some? :: Resolvable(h.dst, env).value
  }

  function ActiveOf(m: Manifest, env: Env): ActiveSet {
    ActiveSet(ActiveMarkers(m.tools, env), ActiveHelpers(m.helpers, env), ActiveIds(m.tools), ActiveDirs(m.tools, env))
  }

  function ContextOf(m: Manifest, env: Env): Context {
    Context(env.home, env.canon, ActiveOf(m, env), m.stubs)
  }

  function UnmarkSteps(ms: seq<RetiredMarker>): seq<Step> {
    if ms == [] then [] else [Unmark(ms[0].tool, ms[0].path)] + UnmarkSteps(ms[1..])
  }

  function UnplugSteps(ps: seq<RetiredPlugin>): seq<Step> {
    if ps == [] then [] else [Unplug(ps[0])] + UnplugSteps(ps[1..])
  }

  function UnownSteps(hs: seq<RetiredHelper>): seq<Step> {
    if hs == [] then [] else [Unown(hs[0].name, hs[0].path)] + UnownSteps(hs[1..])
  }

  function RetiredSteps(items: RetiredItems): seq<Step> {
    UnmarkSteps(items.markers) + UnplugSteps(items.plugins) + UnownSteps(items.helpers)
  }

  function RetiredOf(m: Manifest, env: Env): RetiredItems {
    Collected([BUILTIN, m.retired], ContextOf(m, env))
  }

  /** The whole tick, in the order of the program. */
  function StepsOf(m: Manifest, f: Fetched, env: Env): seq<Step> {
    HelperSteps(m.helpers, f, env) +
    AllToolSteps(m.tools, m, f, env, {}) +
    GateSteps(m.gated, m, f, SkillKeys(m.tools, m, env)) +
    RetiredSteps(RetiredOf(m, env))
  }

  /** Nothing is managed on a host in disabled mode. */
  const NOTHING_ACTIVE := ActiveSet({}, {}, {}, {})

  /** `collectRetiredWhileDisabled`: the built-in list and that of the cached manifest. */
  function DisabledSteps(cached: Source, stubs: Stubs, env: Env): seq<Step> {
    RetiredSteps(Collected([BUILTIN, cached], Context(env.home, env.canon, NOTHING_ACTIVE, stubs)))
  }
}
