/**
 A user's text across whole histories of the disk: any ticks and uninstalls, of changing
 manifests and with any failures, and one uninstall at the end.
 */
module OnDisk {
  import opened Text
  import opened BlockScan
  import opened Splice
  import opened Heartbeat
  import opened HeartbeatRuns
  import opened Paths
  import opened ConfigFile
  import opened World
  import opened Gated
  import opened GatedRun
  import opened Steps
  import opened Frames
  import opened Manifest
  import opened Uninstall
  import Ownership
  import Promises
  import Surfaces
  import Takeback
  import RetiredList

  // ---- one step ----------------------------------------------------------------------------------

  /** The step writes its block into the file or strips it, or leaves the file alone. */
  ghost predicate MarksOrSpares(s: Step, key: AbsPath, env: Env) {
    || ((s.Unmark? || (s.Beat? && Valid(s.d))) && env.canon(s.path) == key)
    || key !in Writes(s, env) + ConfigKeys(s, env)
  }

  ghost predicate OnlyStrips(ops: seq<Op>) {
    forall k :: 0 <= k < |ops| ==> ops[k].Strip?
  }

  /** A heartbeat of a manifest is never in the way: it is another file, or it marks or strips this one. */
  lemma HeartbeatsMark(m: Manifest, f: Fetched, env: Env, s: Step, key: AbsPath)
    requires HexHash(env.sha) && s in StepsOf(m, f, env) && Ownership.IsHeartbeat(s)
    ensures MarksOrSpares(s, key, env)
  {
    Ownership.StepBeatsValid(m, f, env);
    hide StepsOf, Valid, HexHash;
  }

  lemma SparedByStep(s: Step, files: Files, key: AbsPath, env: Env)
    requires key !in Writes(s, env) + ConfigKeys(s, env)
    ensures Lookup(Apply(s, files, env, false).files, key) == Lookup(files, key)
  {
    StepFrame(s, files, env, false);
    hide Apply, Writes, ConfigKeys;
  }

  lemma RunOp(content: Option<string>, op: Op)
    ensures Run(content, [op]) == OpResult(content, op) && Run(content, []) == content
  {
    hide OpResult;
    assert [op][..0] == [];
  }

  /** A heartbeat step installs its block, unless it fails. */
  lemma BeatText(s: Step, files: Files, key: AbsPath, env: Env) returns (ops: seq<Op>)
    requires s.Beat? && env.canon(s.path) == key && Valid(s.d)
    ensures ValidOps(ops) && Lookup(Apply(s, files, env, false).files, key) == Run(Lookup(files, key), ops)
  {
    RunOp(Lookup(files, key), Install(s.d));
    ops := if Refused(files, env, key) || key in env.locked then [] else [Install(s.d)];
    hide Written, ClassifyMarker, Valid, Run;
  }

  /** A retired heartbeat is stripped, unless that fails. */
  lemma UnmarkText(s: Step, files: Files, key: AbsPath, env: Env) returns (ops: seq<Op>)
    requires s.Unmark? && env.canon(s.path) == key
    ensures OnlyStrips(ops) && Lookup(Apply(s, files, env, false).files, key) == Run(Lookup(files, key), ops)
    ensures NoFailures(env) ==> ops != []
  {
    RunOp(Lookup(files, key), Strip);
    if key in files && Blocks(files[key]) == [] { NothingToStrip(files[key]); }
    ops := if Refused(files, env, key) || key in env.locked then [] else [Strip];
    hide Blocks, Kept, Run;
  }

  /** On one file a step is an install, a strip, or nothing. */
  lemma StepText(s: Step, files: Files, key: AbsPath, env: Env) returns (ops: seq<Op>)
    requires MarksOrSpares(s, key, env)
    ensures ValidOps(ops) && Lookup(Apply(s, files, env, false).files, key) == Run(Lookup(files, key), ops)
    ensures !s.Beat? ==> OnlyStrips(ops)
    ensures NoFailures(env) && s.Unmark? && env.canon(s.path) == key ==> ops != []
  {
    hide Apply, Valid, Writes, ConfigKeys, Run;
    if s.Beat? && env.canon(s.path) == key && Valid(s.d) {
      ops := BeatText(s, files, key, env);
    } else if s.Unmark? && env.canon(s.path) == key {
      ops := UnmarkText(s, files, key, env);
    } else {
      SparedByStep(s, files, key, env);
      RunOp(Lookup(files, key), Strip);
      ops := [];
    }
  }

  lemma {:induction false} RunConcat(content: Option<string>, a: seq<Op>, b: seq<Op>)
    ensures Run(content, a + b) == Run(Run(content, a), b)
    decreases |b|
  {
    hide OpResult;
    if b == [] {
      assert a + b == a;
    } else {
      assert (a + b)[..|a + b| - 1] == a + b[..|b| - 1];
      RunConcat(content, a, b[..|b| - 1]);
    }
  }

  ghost predicate AllMarkOrSpare(steps: seq<Step>, key: AbsPath, env: Env) {
    forall k :: 0 <= k < |steps| ==> MarksOrSpares(steps[k], key, env)
  }

  /** Some step strips the file. */
  ghost predicate Unmarks(steps: seq<Step>, key: AbsPath, env: Env) {
    exists k :: 0 <= k < |steps| && steps[k].Unmark? && env.canon(steps[k].path) == key
  }

  lemma {:induction false} StepsText(steps: seq<Step>, files: Files, key: AbsPath, env: Env) returns (ops: seq<Op>)
    requires AllMarkOrSpare(steps, key, env)
    ensures ValidOps(ops) && Lookup(RunSteps(steps, files, env, false).files, key) == Run(Lookup(files, key), ops)
    ensures (forall k :: 0 <= k < |steps| ==> !steps[k].Beat?) ==> OnlyStrips(ops)
    ensures NoFailures(env) && Unmarks(steps, key, env) ==> ops != []
    decreases |steps|
  {
    hide Apply, MarksOrSpares, NoFailures, Run, Valid;
    if steps == [] {
      RunOp(Lookup(files, key), Strip);
      ops := [];
    } else {
      var next := Apply(steps[0], files, env, false).files;
      var first := StepText(steps[0], files, key, env);
      var rest := StepsText(steps[1..], next, key, env);
      ops := first + rest;
      RunConcat(Lookup(files, key), first, rest);
      if Unmarks(steps, key, env) {
        var k :| 0 <= k < |steps| && steps[k].Unmark? && env.canon(steps[k].path) == key;
        assert k > 0 ==> steps[1..][k - 1] == steps[k];
      }
    }
  }

  // ---- one undo ------------------------------------------------------------------------------------

  /** The undo strips the file, or leaves it alone. */
  ghost predicate StripsOrSpares(u: Undo, key: AbsPath, env: Env) {
    match u
    case Drop(_, _, path) => env.canon(path) != key
    case Unblock(_, _) => true
    case Distrust(_, e) => env.canon(e.path) != key && env.canon(BackupPath(e.path)) != key
    case Ungate(gt, entrypoint) =>
      ResolveTarget(gt, entrypoint, env.home).Some? ==>
        env.canon(ResolveTarget(gt, entrypoint, env.home).value.path) != key
    case Escape(_, _) => true
  }

  lemma UnblockText(u: Undo, files: Files, key: AbsPath, env: Env) returns (ops: seq<Op>)
    requires u.Unblock?
    ensures OnlyStrips(ops) && Lookup(Take(u, files, env).files, key) == Run(Lookup(files, key), ops)
    ensures NoFailures(env) && env.canon(u.path) == key ==> ops != []
  {
    RunOp(Lookup(files, key), Strip);
    if key in files && Blocks(files[key]) == [] { NothingToStrip(files[key]); }
    ops := if env.canon(u.path) != key || Refused(files, env, key) || key in env.locked then [] else [Strip];
    hide Blocks, Kept, Run;
  }

  lemma SparedByUndo(u: Undo, files: Files, key: AbsPath, env: Env)
    requires StripsOrSpares(u, key, env) && !u.Unblock?
    ensures Lookup(Take(u, files, env).files, key) == Lookup(files, key)
  {
    hide Withdraw, MarkerPath, ResolveTarget, ReadMarker, Attests, LinkOnWay, BackupPath;
  }

  /** On one file an undo is a strip, or nothing. */
  lemma UndoText(u: Undo, files: Files, key: AbsPath, env: Env) returns (ops: seq<Op>)
    requires StripsOrSpares(u, key, env)
    ensures OnlyStrips(ops) && Lookup(Take(u, files, env).files, key) == Run(Lookup(files, key), ops)
    ensures NoFailures(env) && u.Unblock? && env.canon(u.path) == key ==> ops != []
  {
    hide Take, StripsOrSpares, Run;
    if u.Unblock? {
      ops := UnblockText(u, files, key, env);
    } else {
      SparedByUndo(u, files, key, env);
      RunOp(Lookup(files, key), Strip);
      ops := [];
    }
  }

  ghost predicate AllStripOrSpare(us: seq<Undo>, key: AbsPath, env: Env) {
    forall k :: 0 <= k < |us| ==> StripsOrSpares(us[k], key, env)
  }

  ghost predicate Unblocks(us: seq<Undo>, key: AbsPath, env: Env) {
    exists k :: 0 <= k < |us| && us[k].Unblock? && env.canon(us[k].path) == key
  }

  lemma {:induction false} UndosText(us: seq<Undo>, files: Files, key: AbsPath, env: Env) returns (ops: seq<Op>)
    requires AllStripOrSpare(us, key, env)
    ensures OnlyStrips(ops) && Lookup(TakeAll(us, files, env).files, key) == Run(Lookup(files, key), ops)
    ensures NoFailures(env) && Unblocks(us, key, env) ==> ops != []
    decreases |us|
  {
    hide Take, StripsOrSpares, NoFailures, Run;
    if us == [] {
      RunOp(Lookup(files, key), Strip);
      ops := [];
    } else {
      var next := Take(us[0], files, env).files;
      var first := UndoText(us[0], files, key, env);
      var rest := UndosText(us[1..], next, key, env);
      ops := first + rest;
      RunConcat(Lookup(files, key), first, rest);
      if Unblocks(us, key, env) {
        var k :| 0 <= k < |us| && us[k].Unblock? && env.canon(us[k].path) == key;
        assert k > 0 ==> us[1..][k - 1] == us[k];
      }
    }
  }

  // ---- an uninstall ----------------------------------------------------------------------------------

  /** The manifest puts no other surface of its own into the file. */
  ghost predicate LeavesAlone(m: Manifest, key: AbsPath, env: Env) {
    && AllStripOrSpare(UndosOf(m, env), key, env)
    && AllMarkOrSpare(RetiredSteps(RetiredOf(m, env)), key, env)
  }

  /** The manifest lists the file as a heartbeat: of a tool, there or not, or as a retired one. */
  ghost predicate ListsHeartbeat(m: Manifest, key: AbsPath, env: Env) {
    || (exists t :: t in m.tools && t.heartbeatPath != "" && env.canon(PlaceOf(t.heartbeatPath, env)) == key)
    || (exists e :: e in Surfaces.RetiredMarkers(m) && Surfaces.MarkerGone(e, m, env) &&
           env.canon(Expand(e.path, env.home).value) == key)
  }

  /** So an uninstall strips it. */
  lemma ListedIsStripped(m: Manifest, key: AbsPath, env: Env)
    requires ListsHeartbeat(m, key, env)
    ensures Unblocks(UndosOf(m, env), key, env) || Unmarks(RetiredSteps(RetiredOf(m, env)), key, env)
  {
    hide UndosOf, RetiredSteps, RetiredOf, PlaceOf, Expand, Surfaces.MarkerGone, Surfaces.RetiredMarkers;
    if t :| t in m.tools && t.heartbeatPath != "" && env.canon(PlaceOf(t.heartbeatPath, env)) == key {
      var u := Takeback.HeartbeatIsUnblocked(m, env, t);
      var k :| 0 <= k < |UndosOf(m, env)| && UndosOf(m, env)[k] == u;
    } else {
      var e :| e in Surfaces.RetiredMarkers(m) && Surfaces.MarkerGone(e, m, env) &&
        env.canon(Expand(e.path, env.home).value) == key;
      var s := Promises.GoneHasStep(m, Takeback.SMALLEST, env, e);
      var steps := RetiredSteps(RetiredOf(m, env));
      var k :| 0 <= k < |steps| && steps[k] == s;
    }
  }

  lemma NoBeats(items: RetiredList.RetiredItems)
    ensures forall k :: 0 <= k < |RetiredSteps(items)| ==> !RetiredSteps(items)[k].Beat?
  {
    Ownership.RetiredKinds(items);
    hide RetiredSteps;
    forall k | 0 <= k < |RetiredSteps(items)| ensures !RetiredSteps(items)[k].Beat? {
      assert RetiredSteps(items)[k] in RetiredSteps(items);
    }
  }

  /** On one file an uninstall is a list of strips; without failures it has at least one if the file is listed. */
  lemma UninstallText(m: Manifest, files: Files, key: AbsPath, env: Env) returns (ops: seq<Op>)
    requires LeavesAlone(m, key, env)
    ensures OnlyStrips(ops) && Lookup(AfterUninstall(m, files, env), key) == Run(Lookup(files, key), ops)
    ensures NoFailures(env) && ListsHeartbeat(m, key, env) ==> ops != []
  {
    hide UndosOf, RetiredOf, RetiredSteps, AllStripOrSpare, AllMarkOrSpare, Unblocks, Unmarks;
    hide TakeAll, RunSteps, NoFailures, Run, ListsHeartbeat;
    if ListsHeartbeat(m, key, env) { ListedIsStripped(m, key, env); }
    var us := UndosOf(m, env);
    var first := UndosText(us, files, key, env);
    NoBeats(RetiredOf(m, env));
    var rest := StepsText(RetiredSteps(RetiredOf(m, env)), TakeAll(us, files, env).files, key, env);
    ops := first + rest;
    RunConcat(Lookup(files, key), first, rest);
  }

  // ---- histories -----------------------------------------------------------------------------------------

  /** What the program does to a disk: a tick or an uninstall, each with its own failures. */
  datatype Event = Ticking(steps: seq<Step>, env: Env) | Uninstalling(m: Manifest, env: Env)

  ghost function Happen(e: Event, files: Files): Files {
    match e
    case Ticking(steps, env) => RunSteps(steps, files, env, false).files
    case Uninstalling(m, env) => AfterUninstall(m, files, env)
  }

  ghost function HappenAll(history: seq<Event>, files: Files): Files
    decreases |history|
  {
    if history == [] then files else HappenAll(history[1..], Happen(history[0], files))
  }

  /** The file is a heartbeat to the event, active or retired, or none of its business. */
  ghost predicate Minds(e: Event, key: AbsPath) {
    match e
    case Ticking(steps, env) => AllMarkOrSpare(steps, key, env)
    case Uninstalling(m, env) => LeavesAlone(m, key, env)
  }

  ghost predicate AllMind(history: seq<Event>, key: AbsPath) {
    forall k :: 0 <= k < |history| ==> Minds(history[k], key)
  }

  lemma EventText(e: Event, files: Files, key: AbsPath) returns (ops: seq<Op>)
    requires Minds(e, key)
    ensures ValidOps(ops) && Lookup(Happen(e, files), key) == Run(Lookup(files, key), ops)
  {
    hide AllMarkOrSpare, LeavesAlone, RunSteps, AfterUninstall, Run, Valid;
    match e
    case Ticking(steps, env) => ops := StepsText(steps, files, key, env);
    case Uninstalling(m, env) => ops := UninstallText(m, files, key, env);
  }

  lemma {:induction false} HistoryText(history: seq<Event>, files: Files, key: AbsPath) returns (ops: seq<Op>)
    requires AllMind(history, key)
    ensures ValidOps(ops) && Lookup(HappenAll(history, files), key) == Run(Lookup(files, key), ops)
    decreases |history|
  {
    hide Minds, Happen, Run, Valid;
    if history == [] {
      RunOp(Lookup(files, key), Strip);
      ops := [];
    } else {
      var next := Happen(history[0], files);
      var first := EventText(history[0], files, key);
      var rest := HistoryText(history[1..], next, key);
      ops := first + rest;
      RunConcat(Lookup(files, key), first, rest);
    }
  }

  /** The same bytes up to the final newlines, with the frontmatter still first. */
  ghost predicate SameText(s: string, t: string) {
    && TrimNewlines(t) == TrimNewlines(s)
    && (var n := FrontmatterEnd(s); n > 0 ==> FrontmatterEnd(t) == n <= |t| && t[..n] == s[..n])
  }

  /** No block, and the text the user started with; nothing, or an empty file, if there was none. */
  ghost predicate ComesBack(start: Option<string>, end: Option<string>) {
    && Blockless(end)
    && (start.None? ==> end == None || end == Some(""))
    && (start.Some? ==> end.Some? && SameText(start.value, end.value))
  }

  /** Any run that ends in strips gives the text back. */
  lemma StripsEnd(start: Option<string>, ops: seq<Op>, strips: seq<Op>)
    requires Blockless(start) && ValidOps(ops) && OnlyStrips(strips) && strips != []
    ensures ComesBack(start, Run(start, ops + strips))
  {
    hide Run, TrimNewlines, FrontmatterEnd, Blocks, Valid;
    var before := ops + strips[..|strips| - 1];
    assert ops + strips == before + [Strip];
    RoundTrip(start, before);
  }

  /** Main result on the disk: start from any text of the user without a complete block, let any
      ticks and uninstalls happen, of whatever manifests, with the file an active heartbeat in one
      and a retired one in the next, and whatever fails in them. One uninstall that does not fail,
      of a manifest that lists the file as a heartbeat, active or retired, brings the text back up
      to its final newlines, with its frontmatter in place and no block left. What is asked of the
      manifests is that none of them has another kind of surface in the file. */
  lemma UserTextComesBack(m: Manifest, env: Env, history: seq<Event>, files: Files, key: AbsPath)
    ensures Blockless(Lookup(files, key)) && AllMind(history, key) && LeavesAlone(m, key, env) &&
              NoFailures(env) && ListsHeartbeat(m, key, env) ==>
              ComesBack(Lookup(files, key), Lookup(AfterUninstall(m, HappenAll(history, files), env), key))
  {
    hide *;
    if Blockless(Lookup(files, key)) && AllMind(history, key) && LeavesAlone(m, key, env) &&
      NoFailures(env) && ListsHeartbeat(m, key, env) {
      var start := Lookup(files, key);
      var ops := HistoryText(history, files, key);
      var strips := UninstallText(m, HappenAll(history, files), key, env);
      RunConcat(start, ops, strips);
      StripsEnd(start, ops, strips);
    }
  }
}
