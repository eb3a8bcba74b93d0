/**
 A gated row against the disk: install (`reconcileGatedTool`) and uninstall
 (`removeGatedTool`), and the promise that nothing happens without an attesting marker.
 */
module GatedRun {
  import opened Text
  import opened Paths
  import opened Outcomes
  import opened Gated
  import opened World
  import MuseShell

  /** `formatSkill`: the body itself, the Muse rewrite, or no such format. */
  function FormatSkill(body: string, format: string, entrypoint: string): Option<string> {
    if format == "" then Some(body)
    else if format == "muse" then Some(MuseShell.MuseFrontmatter(body, MuseShell.ReplaceAll(entrypoint, "-", "_")))
    else None
  }

  /** `readGatedMarker`: nothing there, something that attests nothing, or a declaration. */
  ghost function ReadMarker(files: Files, env: Env, marker: AbsPath): Option<Declaration> {
    var key := env.canon(marker);
    if marker in env.links || marker in env.dirs then Some(Malformed)
    else if key !in files then None
    else if key in env.unreadable || |files[key]| > MARKER_MAX then Some(Malformed)
    else Some(Declared(files[key]))
  }

  /** `attests`: the marker names exactly this skills directory and format. */
  predicate Attests(m: Declaration, gt: GatedTool, env: Env) {
    && m.Declares?
    && m.skillsDir != ""
    && Expand(m.skillsDir, env.home).Some? && Expand(gt.skillsDir, env.home).Some?
    && env.canon(Expand(m.skillsDir, env.home).value) == env.canon(Expand(gt.skillsDir, env.home).value)
    && m.skillFormat == if gt.skillFormat == "" then CANONICAL else gt.skillFormat
  }

  /** `checkNoLinks`: some component below the root, down to the file, is a symlink. */
  predicate LinkOnWay(env: Env, root: AbsPath, path: AbsPath)
    requires root <= path
    decreases |path|
  {
    root != path && (path in env.links || LinkOnWay(env, root, path[..|path| - 1]))
  }

  /** An error row; until the target is known it names the path as the manifest spells it. */
  function Fail(files: Files, gt: GatedTool, path: AbsPath, state: State, named: string := ""): Result {
    Result(files, [Row(gt.name, SkillFile, path, state, Error, named)])
  }

  /** The row is on: its marker is there and attests its target. */
  ghost predicate Active(files: Files, gt: GatedTool, entrypoint: string, env: Env) {
    && MarkerPath(gt, env.home).Some?
    && ReadMarker(files, env, MarkerPath(gt, env.home).value).Some?
    && ResolveTarget(gt, entrypoint, env.home).Some?
    && Attests(ReadMarker(files, env, MarkerPath(gt, env.home).value).value, gt, env)
  }

  function StateOf(current: Option<string>, want: string, env: Env): State {
    if current.None? then Absent
    else if env.sha(current.value) == env.sha(want) then Identical
    else Drifted
  }

  /** Classify the skill copy by its hash, and write it unless it is identical. */
  function CopyStep(files: Files, gt: GatedTool, path: AbsPath, want: string, env: Env, dry: bool): Result {
    var key := env.canon(path);
    var state := StateOf(Read(files, env, key), want, env);
    if key in files && key in env.unreadable then Fail(files, gt, path, Absent)
    else if ActionFor(state) == Noop || dry then Result(files, [Row(gt.name, SkillFile, path, state, ActionFor(state))])
    else if key in env.locked then Fail(files, gt, path, state)
    else Result(files[key := want], [Row(gt.name, SkillFile, path, state, ActionFor(state))])
  }

  /** `want` is the formatted skill, if there is such a format. */
  ghost function GateReconciled(files: Files, gt: GatedTool, entrypoint: string, want: Option<string>,
                            taken: set<AbsPath>, env: Env, dry: bool): Result
  {
    var marker := MarkerPath(gt, env.home);
    var target := ResolveTarget(gt, entrypoint, env.home);
    if marker.None? then Fail(files, gt, [], Absent, gt.requireMarker)
    else if ReadMarker(files, env, marker.value).None? then Result(files, [])
    else if target.None? then Fail(files, gt, [], Absent, gt.skillsDir)
    else if want.None? then Fail(files, gt, target.value.path, Absent)
    else if target.value.root !in env.dirs then Result(files, [])
    else if env.canon(target.value.path) in taken then Fail(files, gt, target.value.path, Absent)
    else if !Attests(ReadMarker(files, env, marker.value).value, gt, env) then Result(files, [])
    else
      TargetStrictlyInside(gt, entrypoint, env.home);
      var path := target.value.path;
      if LinkOnWay(env, target.value.root, path) then Fail(files, gt, path, Absent)
      else if path in env.dirs then Fail(files, gt, path, Absent)
      else CopyStep(files, gt, path, want.value, env, dry)
  }

  /** Whether the skill copy is deleted. */
  ghost predicate Deletes(files: Files, gt: GatedTool, entrypoint: string, env: Env) {
    && Active(files, gt, entrypoint, env)
    && (var t := ResolveTarget(gt, entrypoint, env.home).value;
        TargetStrictlyInside(gt, entrypoint, env.home);
        && t.root in env.dirs && !LinkOnWay(env, t.root, t.path)
        && env.canon(t.path) in files && t.path !in env.dirs && env.canon(t.path) !in env.locked)
  }

  ghost function Uninstalled(files: Files, gt: GatedTool, entrypoint: string, env: Env): Files {
    if Deletes(files, gt, entrypoint, env)
    then files - {env.canon(ResolveTarget(gt, entrypoint, env.home).value.path)}
    else files
  }

  // ---- the promise ------------------------------------------------------------------------

  /** Main result on gating, first half: while the marker does not attest the row, neither an
      install nor an uninstall changes any file, and what is reported depends on no file but the
      marker. */
  lemma InactiveTouchesNothing(a: Files, b: Files, gt: GatedTool, entrypoint: string, want: Option<string>,
                               taken: set<AbsPath>, env: Env, dry: bool)
    requires !Active(a, gt, entrypoint, env)
    ensures GateReconciled(a, gt, entrypoint, want, taken, env, dry).files == a
    ensures Uninstalled(a, gt, entrypoint, env) == a
    ensures (MarkerPath(gt, env.home).Some? ==> AgreeOn(a, b, {env.canon(MarkerPath(gt, env.home).value)})) ==>
              && !Active(b, gt, entrypoint, env)
              && GateReconciled(a, gt, entrypoint, want, taken, env, dry).rows ==
                 GateReconciled(b, gt, entrypoint, want, taken, env, dry).rows
  {
    hide ResolveTarget, MarkerPath, Declared, Expand, LinkOnWay;
  }

  /** The check for symlinks does its work: without one on the way, a path resolves below its root. */
  lemma {:induction false} NoLinkNoDetour(env: Env, root: AbsPath, path: AbsPath)
    requires root <= path && Coherent(env) && !LinkOnWay(env, root, path)
    ensures env.canon(path) == env.canon(root) + path[|root|..]
    decreases |path|
  {
    if root == path {
      assert env.canon(root) + [] == env.canon(root);
    } else {
      var parent, name := path[..|path| - 1], path[|path| - 1];
      assert path == parent + [name] && ValidName(name);
      NoLinkNoDetour(env, root, parent);
      assert path[|root|..] == parent[|root|..] + [name];
    }
  }

  /** A file that is in one store and not, or not with the same bytes, in the other. */
  ghost predicate Changed(a: Files, b: Files, k: AbsPath) {
    !((k in a <==> k in b) && (k in a ==> a[k] == b[k]))
  }

  /** Main result on gating, second half: the root of an active row lies strictly inside the home
      directory, and a file the row writes or deletes is its skill file, which lies, after symlinks
      are resolved, strictly below the root. */
  lemma ActiveStaysInside(files: Files, gt: GatedTool, entrypoint: string, want: Option<string>,
                          taken: set<AbsPath>, env: Env, dry: bool, k: AbsPath)
    ensures Active(files, gt, entrypoint, env) ==>
              var t := ResolveTarget(gt, entrypoint, env.home).value;
              && env.home < t.root < t.path
              && (Changed(files, GateReconciled(files, gt, entrypoint, want, taken, env, dry).files, k) ||
                  Changed(files, Uninstalled(files, gt, entrypoint, env), k) ==>
                    k == env.canon(t.path) && (Coherent(env) ==> env.canon(t.root) < k))
  {
    hide *;
    ActiveHasTarget(files, gt, entrypoint, env);
    if Active(files, gt, entrypoint, env) {
      var t := ResolveTarget(gt, entrypoint, env.home).value;
      TargetStrictlyInside(gt, entrypoint, env.home);
      ReconciledWrites(files, gt, entrypoint, want, taken, env, dry);
      UninstalledRemoves(files, gt, entrypoint, env);
      OneFileChanged(files, GateReconciled(files, gt, entrypoint, want, taken, env, dry).files, env.canon(t.path), k);
      OneFileChanged(files, Uninstalled(files, gt, entrypoint, env), env.canon(t.path), k);
      if Coherent(env) && !LinkOnWay(env, t.root, t.path) { NoLinkNoDetour(env, t.root, t.path); }
    }
  }

  lemma ActiveHasTarget(files: Files, gt: GatedTool, entrypoint: string, env: Env)
    ensures Active(files, gt, entrypoint, env) ==> ResolveTarget(gt, entrypoint, env.home).Some?
  {
    hide ResolveTarget, MarkerPath, Declared, Expand, Attests;
  }

  lemma OneFileChanged(a: Files, b: Files, p: AbsPath, k: AbsPath)
    ensures b == a ==> !Changed(a, b, k)
    ensures (p in b && b == a[p := b[p]]) || b == a - {p} ==> (Changed(a, b, k) ==> k == p)
  {
  }

  lemma ReconciledWrites(files: Files, gt: GatedTool, entrypoint: string, want: Option<string>,
                         taken: set<AbsPath>, env: Env, dry: bool)
    ensures var u := GateReconciled(files, gt, entrypoint, want, taken, env, dry).files;
            var t := ResolveTarget(gt, entrypoint, env.home);
            || u == files
            || (!dry && t.Some? && want.Some? && u == files[env.canon(t.value.path) := want.value]
                && t.value.root <= t.value.path && !LinkOnWay(env, t.value.root, t.value.path))
  {
    hide ResolveTarget, MarkerPath, ReadMarker, Declared, Expand, LinkOnWay, Attests, StateOf, RelUp;
    if ResolveTarget(gt, entrypoint, env.home).Some? { TargetStrictlyInside(gt, entrypoint, env.home); }
  }

  lemma UninstalledRemoves(files: Files, gt: GatedTool, entrypoint: string, env: Env)
    ensures var u := Uninstalled(files, gt, entrypoint, env);
            var t := ResolveTarget(gt, entrypoint, env.home);
            || u == files
            || (t.Some? && u == files - {env.canon(t.value.path)}
                && t.value.root <= t.value.path && !LinkOnWay(env, t.value.root, t.value.path))
  {
    hide ResolveTarget, MarkerPath, ReadMarker, Declared, Expand, LinkOnWay, Attests, StateOf, RelUp;
    if ResolveTarget(gt, entrypoint, env.home).Some? { TargetStrictlyInside(gt, entrypoint, env.home); }
  }

  // ---- exactly when a row acts ------------------------------------------------------------------

  /** The marker file: strictly inside ~/.pilot, a readable regular file of bounded size, whose text
      declares a skills directory that resolves to the row's and the row's format. */
  ghost predicate MarkerNames(files: Files, gt: GatedTool, env: Env) {
    var marker := Expand(gt.requireMarker, env.home);
    && marker.Some? && env.home + [PILOT] < marker.value
    && marker.value !in env.links && marker.value !in env.dirs
    && (var key := env.canon(marker.value);
        && key in files && key !in env.unreadable && |files[key]| <= 4096
        && (var said, skills := Declared(files[key]), Expand(gt.skillsDir, env.home);
            && said.Declares? && Expand(said.skillsDir, env.home).Some? && skills.Some?
            && env.canon(Expand(said.skillsDir, env.home).value) == env.canon(skills.value)
            && said.skillFormat == if gt.skillFormat == "" then "canonical" else gt.skillFormat))
  }

  /** Where the skill copy goes, if the row is in order. */
  function CopyPath(gt: GatedTool, entrypoint: string, home: AbsPath): Option<AbsPath> {
    var root, skills := Expand(gt.rootDir, home), Expand(gt.skillsDir, home);
    if ValidIdentifier(gt.name) && ValidIdentifier(entrypoint) && root.Some? && skills.Some? &&
      home != [] && home < root.value && root.value <= skills.value
    then
      IdentifierIsName(entrypoint);
      Some(skills.value + if gt.flat then [entrypoint + ".md"] else [entrypoint, "SKILL.md"])
    else None
  }

  /** The row is in order, its root is there, and nothing but a file is in the way of its copy. */
  predicate Stands(gt: GatedTool, entrypoint: string, env: Env) {
    && CopyPath(gt, entrypoint, env.home).Some?
    && (var root, path := Expand(gt.rootDir, env.home).value, CopyPath(gt, entrypoint, env.home).value;
        && root in env.dirs && root <= path && !LinkOnWay(env, root, path) && path !in env.dirs)
  }

  lemma ActiveIs(files: Files, gt: GatedTool, entrypoint: string, env: Env)
    ensures Active(files, gt, entrypoint, env) <==>
              MarkerNames(files, gt, env) && CopyPath(gt, entrypoint, env.home).Some?
  {
    MarkerPathIs(gt, env.home);
    TargetIs(gt, entrypoint, env.home);
    RelativeExpandsToNothing("", env.home);
    hide MarkerPath, ResolveTarget, Declared, Expand, ValidIdentifier;
  }

  lemma TargetStands(gt: GatedTool, entrypoint: string, env: Env)
    ensures var t := ResolveTarget(gt, entrypoint, env.home);
            && (t.Some? <==> CopyPath(gt, entrypoint, env.home).Some?)
            && (t.Some? ==>
                  && t.value.path == CopyPath(gt, entrypoint, env.home).value && t.value.root <= t.value.path
                  && (Stands(gt, entrypoint, env) <==>
                         t.value.root in env.dirs && !LinkOnWay(env, t.value.root, t.value.path) &&
                         t.value.path !in env.dirs)
                  && (forall taken: set<AbsPath> ::
                         WayClear(t.value, taken, env) <==>
                           Stands(gt, entrypoint, env) && env.canon(t.value.path) !in taken))
  {
    TargetIs(gt, entrypoint, env.home);
    if ResolveTarget(gt, entrypoint, env.home).Some? { TargetStrictlyInside(gt, entrypoint, env.home); }
    hide ResolveTarget, Expand, ValidIdentifier, LinkOnWay;
  }

  /** The checks of an active row after the marker. */
  predicate WayClear(t: Target, taken: set<AbsPath>, env: Env) {
    && t.root in env.dirs && env.canon(t.path) !in taken && t.path !in env.dirs
    && t.root <= t.path && !LinkOnWay(env, t.root, t.path)
  }

  lemma ActiveWrites(files: Files, gt: GatedTool, entrypoint: string, want: string, taken: set<AbsPath>, env: Env)
    requires Active(files, gt, entrypoint, env)
    ensures var after := GateReconciled(files, gt, entrypoint, Some(want), taken, env, false).files;
            var t := ResolveTarget(gt, entrypoint, env.home).value;
            after == if WayClear(t, taken, env) && MayWrite(files, env.canon(t.path), want, env)
                     then files[env.canon(t.path) := want] else files
  {
    hide MarkerPath, ReadMarker, ResolveTarget, Declared, Expand, LinkOnWay, Attests, RelUp, CopyStep, MayWrite;
    hide Clean, ValidName, SkillPath, Join;
    TargetStrictlyInside(gt, entrypoint, env.home);
    CopyStepWrites(files, gt, ResolveTarget(gt, entrypoint, env.home).value.path, want, env);
  }

  lemma CopyStepWrites(files: Files, gt: GatedTool, path: AbsPath, want: string, env: Env)
    ensures var key := env.canon(path);
            CopyStep(files, gt, path, want, env, false).files ==
              if MayWrite(files, key, want, env) then files[key := want] else files
  {
  }

  lemma GateReconciledIs(files: Files, gt: GatedTool, entrypoint: string, want: Option<string>,
                         taken: set<AbsPath>, env: Env)
    ensures var after := GateReconciled(files, gt, entrypoint, want, taken, env, false).files;
            var t := ResolveTarget(gt, entrypoint, env.home);
            after == if Active(files, gt, entrypoint, env) && want.Some? && WayClear(t.value, taken, env) &&
                       MayWrite(files, env.canon(t.value.path), want.value, env)
                     then files[env.canon(t.value.path) := want.value] else files
  {
    hide *;
    ActiveHasTarget(files, gt, entrypoint, env);
    if !Active(files, gt, entrypoint, env) {
      InactiveTouchesNothing(files, files, gt, entrypoint, want, taken, env, false);
    } else if want.Some? {
      ActiveWrites(files, gt, entrypoint, want.value, taken, env);
    } else {
      ReconciledWrites(files, gt, entrypoint, want, taken, env, false);
    }
  }

  /** The file can be written, and is not there with the wanted hash. */
  predicate MayWrite(files: Files, key: AbsPath, want: string, env: Env) {
    && key !in env.locked
    && (key in files ==> key !in env.unreadable && env.sha(files[key]) != env.sha(want))
  }

  lemma WriteShows(files: Files, key: AbsPath, want: string, env: Env)
    ensures MayWrite(files, key, want, env) ==> files[key := want] != files
  {
    if key in files { assert files[key := want][key] == want; }
  }

  /** Main result on installing a gated row: it writes its skill copy, and nothing else, if and only if
      the marker names it, it stands, the copy belongs to no other tool and can be written, and the copy
      is not there with the wanted hash. */
  lemma GateWritesWhen(files: Files, gt: GatedTool, entrypoint: string, want: Option<string>,
                       taken: set<AbsPath>, env: Env)
    ensures var after := GateReconciled(files, gt, entrypoint, want, taken, env, false).files;
            var path := CopyPath(gt, entrypoint, env.home);
            && (after != files <==>
                  && MarkerNames(files, gt, env) && Stands(gt, entrypoint, env) && want.Some?
                  && env.canon(path.value) !in taken
                  && MayWrite(files, env.canon(path.value), want.value, env))
            && (after != files ==> after == files[env.canon(path.value) := want.value])
  {
    hide *;
    ActiveIs(files, gt, entrypoint, env);
    TargetStands(gt, entrypoint, env);
    GateReconciledIs(files, gt, entrypoint, want, taken, env);
    var path := CopyPath(gt, entrypoint, env.home);
    if path.Some? && want.Some? { WriteShows(files, env.canon(path.value), want.value, env); }
    StandsSomewhere(gt, entrypoint, env);
  }

  lemma StandsSomewhere(gt: GatedTool, entrypoint: string, env: Env)
    ensures Stands(gt, entrypoint, env) ==> CopyPath(gt, entrypoint, env.home).Some?
  {
    hide CopyPath;
  }

  /** Main result on uninstalling one: its skill copy goes, and nothing else, if and only if the marker
      names it, it stands, and the copy is there and can be deleted. */
  lemma UngateRemovesWhen(files: Files, gt: GatedTool, entrypoint: string, env: Env)
    ensures var after := Uninstalled(files, gt, entrypoint, env);
            var path := CopyPath(gt, entrypoint, env.home);
            && (after != files <==>
                  && MarkerNames(files, gt, env) && Stands(gt, entrypoint, env)
                  && env.canon(path.value) in files && env.canon(path.value) !in env.locked)
            && (after != files ==> after == files - {env.canon(path.value)})
  {
    ActiveIs(files, gt, entrypoint, env);
    TargetStands(gt, entrypoint, env);
    if ResolveTarget(gt, entrypoint, env.home).Some? { TargetStrictlyInside(gt, entrypoint, env.home); }
    hide MarkerPath, ReadMarker, ResolveTarget, Declared, Expand, LinkOnWay, Attests, MarkerNames, CopyPath, Stands;
    hide RelUp, Active;
    assert ResolveTarget(gt, entrypoint, env.home).Some? ==>
        var key := env.canon(ResolveTarget(gt, entrypoint, env.home).value.path);
        key in files ==> files - {key} != files;
  }
}
