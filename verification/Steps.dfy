/**
 One tick as a list of steps, each about one managed surface, and what a step does to the
 files: for real, or only as a preview (`dry`).
 */
module Steps {
  import opened Text
  import opened BlockScan
  import opened Splice
  import opened Heartbeat
  import opened Paths
  import opened Outcomes
  import opened ConfigFile
  import opened World
  import opened Retired
  import opened Gated
  import opened GatedRun

  datatype Step =
    | Say(row: Row)                                                    // a row, and nothing else
    | Own(tool: string, kind: FileKind, path: AbsPath, body: string)   // a file of ours
    | Beat(tool: string, path: AbsPath, d: Directive)                  // our block in a user's file
    | Trust(id: string, entry: ConfigEntry)                            // a plugin's place in a config
    | Gate(gt: GatedTool, entrypoint: string, want: Option<string>, taken: set<AbsPath>)
    | Unmark(tool: string, path: AbsPath)                              // a retired heartbeat
    | Unplug(rp: RetiredPlugin)                                        // a retired plugin
    | Unown(tool: string, path: AbsPath)                               // a retired helper

  const SUFFIX := ".pilot-bak"

  /** The sidecar next to a config. */
  function BackupPath(p: AbsPath): AbsPath {
    if p == [] then [SUFFIX] else p[..|p| - 1] + [p[|p| - 1] + SUFFIX]
  }

  /** There, but cannot be read. */
  predicate Refused(files: Files, env: Env, key: AbsPath) {
    key in files && key in env.unreadable
  }

  function OwnStep(files: Files, tool: string, kind: FileKind, path: AbsPath, body: string, env: Env,
                   dry: bool): Result {
    var key := env.canon(path);
    var state := StateOf(Read(files, env, key), body, env);
    var row := Row(tool, kind, path, state, ActionFor(state));
    if kind == HelperFile && Refused(files, env, key) then Result(files, [row.(action := Error)])
    else if row.action == Noop || dry then Result(files, [row])
    else if key in env.locked then Result(files, [row.(action := Error)])
    else Result(files[key := body], [row])
  }

  ghost function BeatStep(files: Files, tool: string, path: AbsPath, d: Directive, env: Env, dry: bool): Result {
    var key := env.canon(path);
    var state := ClassifyMarker(Read(files, env, key), d.hash, d.r);
    var row := Row(tool, MarkerFile, path, state, ActionFor(state));
    if row.action == Noop || dry then Result(files, [row])
    else if Refused(files, env, key) || key in env.locked then Result(files, [row.(action := Error)])
    else Result(files[key := Written(Read(files, env, key), d)], [row])
  }

  /** The files after a merge, and whether it went through. */
  function MergedFiles(files: Files, e: ConfigEntry, env: Env): (Files, bool) {
    var key, bak := env.canon(e.path), env.canon(BackupPath(e.path));
    var live := Read(files, env, key);
    if Refused(files, env, key) || !Mergeable(live, env.codec, e.at) then (files, false)
    else if NeedsBackup(live, env.codec, e.at) && bak in env.locked then (files, false)
    else
      var saved := if NeedsBackup(live, env.codec, e.at) then files[bak := live.value] else files;
      if key in env.locked then (saved, false)
      else (saved[key := Next(live, env.codec, e.at).value], true)
  }

  function TrustStep(files: Files, id: string, e: ConfigEntry, env: Env, dry: bool): Result {
    var state := ClassifyConfig(Read(files, env, env.canon(e.path)), env.codec, e.at);
    var row := Row(id, PluginAllowList, e.path, state, ActionFor(state));
    if row.action == Noop || dry then Result(files, [row])
    else
      var (merged, done) := MergedFiles(files, e, env);
      Result(merged, [if done then row else row.(action := Error)])
  }

  ghost function UnmarkStep(files: Files, tool: string, path: AbsPath, env: Env, dry: bool): Result {
    var key := env.canon(path);
    var content := Read(files, env, key);
    var row := Row(tool, MarkerFile, path, State.Retired, Remove);
    if content.None? || Blocks(content.value) == [] then Result(files, [])
    else if dry then Result(files, [row])
    else if key in env.locked then Result(files, [row.(action := Error)])
    else Result(files[key := Kept(content.value, 0)], [row])
  }

  function UnownStep(files: Files, tool: string, path: AbsPath, env: Env, dry: bool): Result {
    var key := env.canon(path);
    var row := Row(tool, HelperFile, path, State.Retired, Remove);
    if key !in files then Result(files, [])
    else if dry then Result(files, [row])
    else if key in env.locked then Result(files, [row.(action := Error)])
    else Result(files - {key}, [row])
  }

  ghost function Apply(step: Step, files: Files, env: Env, dry: bool): Result {
    match step
    case Say(row) => Result(files, [row])
    case Own(tool, kind, path, body) => OwnStep(files, tool, kind, path, body, env, dry)
    case Beat(tool, path, d) => BeatStep(files, tool, path, d, env, dry)
    case Trust(id, e) => TrustStep(files, id, e, env, dry)
    case Gate(gt, entrypoint, want, taken) => GateReconciled(files, gt, entrypoint, want, taken, env, dry)
    case Unmark(tool, path) => UnmarkStep(files, tool, path, env, dry)
    case Unplug(rp) => Applied(files, rp, env, dry)
    case Unown(tool, path) => UnownStep(files, tool, path, env, dry)
  }

  /** The steps one after the other. */
  ghost function RunSteps(steps: seq<Step>, files: Files, env: Env, dry: bool): Result
    decreases |steps|
  {
    if steps == [] then Result(files, [])
    else
      var first := Apply(steps[0], files, env, dry);
      var rest := RunSteps(steps[1..], first.files, env, dry);
      Result(rest.files, first.rows + rest.rows)
  }

  lemma {:induction false} RunSplit(a: seq<Step>, b: seq<Step>, files: Files, env: Env, dry: bool)
    ensures var x := RunSteps(a, files, env, dry);
            var y := RunSteps(b, x.files, env, dry);
            RunSteps(a + b, files, env, dry) == Result(y.files, x.rows + y.rows)
    decreases |a|
  {
    hide Apply;
    if a == [] {
      assert a + b == b;
      assert RunSteps(a, files, env, dry).rows + RunSteps(b, files, env, dry).rows == RunSteps(b, files, env, dry).rows;
    } else {
      assert (a + b)[0] == a[0] && (a + b)[1..] == a[1..] + b;
      var first := Apply(a[0], files, env, dry);
      RunSplit(a[1..], b, first.files, env, dry);
      var x := RunSteps(a[1..], first.files, env, dry);
      var y := RunSteps(b, x.files, env, dry);
      assert first.rows + (x.rows + y.rows) == (first.rows + x.rows) + y.rows;
    }
  }

  lemma RunOne(step: Step, files: Files, env: Env, dry: bool)
    ensures RunSteps([step], files, env, dry) == Apply(step, files, env, dry)
  {
    hide Apply;
    var first := Apply(step, files, env, dry);
    assert [step][1..] == [];
    assert first.rows + [] == first.rows;
  }

  // ---- what a step writes, and what it looks at --------------------------------------------------

  /** The config a step edits, and the plugin's place in it. */
  function ConfigOf(step: Step): Option<ConfigEntry> {
    match step
    case Trust(_, e) => Some(e)
    case Unplug(rp) => rp.entry
    case _ => None
  }

  /** The files a step may write, besides a config. */
  ghost function Writes(step: Step, env: Env): set<AbsPath> {
    match step
    case Say(_) => {}
    case Own(_, _, path, _) => {env.canon(path)}
    case Beat(_, path, _) => {env.canon(path)}
    case Trust(_, e) => {env.canon(BackupPath(e.path))}
    case Gate(gt, entrypoint, _, taken) =>
      var t := ResolveTarget(gt, entrypoint, env.home);
      if t.None? || env.canon(t.value.path) in taken then {} else {env.canon(t.value.path)}
    case Unmark(_, path) => {env.canon(path)}
    case Unplug(rp) => Keys(rp.files, env)
    case Unown(_, path) => {env.canon(path)}
  }

  ghost function ConfigKeys(step: Step, env: Env): set<AbsPath> {
    if ConfigOf(step).Some? then {env.canon(ConfigOf(step).value.path)} else {}
  }

  /** The files a step looks at, besides a config. */
  ghost function Looks(step: Step, env: Env): set<AbsPath> {
    match step
    case Trust(_, _) => {}
    case Gate(gt, _, _, _) =>
      Writes(step, env) + (if MarkerPath(gt, env.home).Some? then {env.canon(MarkerPath(gt, env.home).value)} else {})
    case _ => Writes(step, env)
  }
}
