/**
 The rows of a report tell the truth: what a row says was done was done, and what it says was left
 alone was left alone.
 */
module Reports {
  import opened Text
  import opened Json
  import opened AllowList
  import opened BlockScan
  import opened Splice
  import opened Heartbeat
  import opened Paths
  import opened Outcomes
  import opened ConfigFile
  import opened World
  import opened Retired
  import opened Gated
  import opened GatedRun
  import opened Steps
  import opened Uninstall
  import Promises

  predicate IsWrite(a: Action) {
    a == Create || a == Rewrite
  }

  /** A file of ours: the row is a write exactly when the file gets our bytes, and then says what was
      there; a file that holds them already is left alone, and an error writes nothing. */
  lemma OwnRowTells(s: Step, files: Files, env: Env)
    requires s.Own?
    ensures var key := env.canon(s.path);
            var r := Apply(s, files, env, false);
            && |r.rows| == 1 && r.rows[0].tool == s.tool && r.rows[0].kind == s.kind && r.rows[0].path == s.path
            && (var a := r.rows[0].action;
                && r.files == (if IsWrite(a) then files[key := s.body] else files)
                && (a == Noop <==>
                      key in files && key !in env.unreadable && env.sha(files[key]) == env.sha(s.body))
                && (a == Create ==> key !in files || key in env.unreadable)
                && (a == Rewrite ==> key in files && env.sha(files[key]) != env.sha(s.body))
                && (a == Error <==>
                      || (s.kind == HelperFile && Refused(files, env, key))
                      || (key in env.locked && !(key in files && key !in env.unreadable &&
                             env.sha(files[key]) == env.sha(s.body))))
                && a != Remove)
  {
  }

  /** A heartbeat: left alone exactly when it holds one block with both hashes. */
  lemma BeatRowTells(s: Step, files: Files, env: Env)
    requires s.Beat?
    ensures var key := env.canon(s.path);
            var r := Apply(s, files, env, false);
            && |r.rows| == 1 && r.rows[0].tool == s.tool && r.rows[0].kind == MarkerFile && r.rows[0].path == s.path
            && (var a := r.rows[0].action;
                && r.files == (if IsWrite(a) then files[key := Written(Read(files, env, key), s.d)] else files)
                && (a == Noop <==> Settled(Read(files, env, key), s.d))
                && (a == Create ==> Read(files, env, key).Some? ==> Blocks(Read(files, env, key).value) == [])
                && (a == Rewrite ==> key in files && Blocks(files[key]) != [])
                && (a == Error <==>
                      !Settled(Read(files, env, key), s.d) && (Refused(files, env, key) || key in env.locked))
                && a != Remove)
  {
    hide Written, Blocks;
  }

  /** A plugin's config: left alone exactly when it trusts the id; after a write it does; after an error it
      is as before. */
  lemma TrustRowTells(s: Step, files: Files, env: Env)
    requires s.Trust? && env.canon(BackupPath(s.entry.path)) != env.canon(s.entry.path)
    ensures var key := env.canon(s.entry.path);
            var r := Apply(s, files, env, false);
            && |r.rows| == 1 && r.rows[0].tool == s.id && r.rows[0].kind == PluginAllowList
            && r.rows[0].path == s.entry.path
            && (var a := r.rows[0].action;
                && a in {Noop, Rewrite, Error}
                && (a == Noop <==> Reads(files, s.entry, env) && Trusts(files, s.entry, env))
                && (a == Noop ==> r.files == files)
                && (a == Error ==> AgreeOn(files, r.files, {key}))
                && (Refused(files, env, key) || (key in files && env.codec.parse(files[key]).None?) ==> a == Error)
                && (a == Rewrite ==> Trusts(r.files, s.entry, env)))
  {
    hide NeedsBackup, BackupPath, Get, Items;
  }

  predicate Reads(files: Files, e: ConfigEntry, env: Env) {
    env.canon(e.path) in files && env.canon(e.path) !in env.unreadable
  }

  /** The config allows and enables the id. */
  predicate Trusts(files: Files, e: ConfigEntry, env: Env) {
    var key := env.canon(e.path);
    && key in files && env.codec.parse(files[key]).Some?
    && Str(e.at.id) in Items(env.codec.parse(files[key]).value, e.at.allow)
    && Get(env.codec.parse(files[key]).value, e.at.entries + [e.at.id, "enabled"]) == Some(Bool(true))
  }

  /** A gated row: a write exactly when the copy changes, and at most one row. */
  lemma GateRowTells(s: Step, files: Files, env: Env)
    requires s.Gate?
    ensures var r := Apply(s, files, env, false);
            && |r.rows| <= 1
            && (r.files != files <==> r.rows != [] && IsWrite(r.rows[0].action))
            && (r.rows != [] ==> r.rows[0].tool == s.gt.name && r.rows[0].kind == SkillFile)
  {
    hide MarkerPath, ReadMarker, ResolveTarget, Attests, LinkOnWay, CopyStep, RelUp, Clean, ValidName;
    if ResolveTarget(s.gt, s.entrypoint, env.home).Some? {
      TargetStrictlyInside(s.gt, s.entrypoint, env.home);
      var path := ResolveTarget(s.gt, s.entrypoint, env.home).value.path;
      if s.want.Some? { CopyRowTells(files, s.gt, path, s.want.value, env); }
    }
  }

  lemma CopyRowTells(files: Files, gt: GatedTool, path: AbsPath, want: string, env: Env)
    ensures var r := CopyStep(files, gt, path, want, env, false);
            && |r.rows| == 1 && r.rows[0].tool == gt.name && r.rows[0].kind == SkillFile
            && (r.files != files <==> IsWrite(r.rows[0].action))
  {
    WriteShows(files, env.canon(path), want, env);
  }

  /** A retired heartbeat: no row without a block, a removal when the blocks are cut. */
  lemma UnmarkRowTells(s: Step, files: Files, env: Env)
    requires s.Unmark?
    ensures var key := env.canon(s.path);
            var content := Read(files, env, key);
            var r := Apply(s, files, env, false);
            && (r.rows == [] <==> content.None? || Blocks(content.value) == [])
            && (r.rows == [] ==> r.files == files)
            && (r.rows != [] ==>
                  && |r.rows| == 1 && r.rows[0].tool == s.tool && r.rows[0].path == s.path
                  && r.rows[0].kind == MarkerFile
                  && r.rows[0].action == (if key in env.locked then Error else Remove)
                  && r.files == if key in env.locked then files else files[key := Kept(content.value, 0)])
  {
    hide Blocks, Kept;
  }

  /** A retired helper: no row for a file that is not there, a removal when it goes. */
  lemma UnownRowTells(s: Step, files: Files, env: Env)
    requires s.Unown?
    ensures var key := env.canon(s.path);
            var r := Apply(s, files, env, false);
            && (r.rows == [] <==> key !in files)
            && (r.rows != [] ==>
                  && |r.rows| == 1 && r.rows[0].tool == s.tool && r.rows[0].path == s.path
                  && r.rows[0].kind == HelperFile
                  && r.rows[0].action == if key in env.locked then Error else Remove)
            && r.files == if r.rows != [] && r.rows[0].action == Remove then files - {key} else files
  {
  }

  lemma {:induction false} DeletedRowsTell(files: Files, present: seq<AbsPath>, id: string, env: Env)
    ensures var r := Deleted(files, present, id, env, false);
            forall row :: row in r.rows ==>
              && row.tool == id && row.kind == PluginFile && row.path in present
              && (row.action == Remove ==> env.canon(row.path) !in r.files)
              && (row.action != Remove ==> row.action == Error && env.canon(row.path) in env.locked)
    ensures |Deleted(files, present, id, env, false).rows| == |present|
    ensures Deleted(files, present, id, env, false).files.Keys <= files.Keys
    decreases |present|
  {
    if present != [] {
      var key := env.canon(present[0]);
      var fails := key in env.locked && key in files;
      var next := if fails then files else files - {key};
      DeletedRowsTell(next, present[1..], id, env);
    }
  }

  lemma {:induction false} NeutralizedRowsTell(files: Files, present: seq<AbsPath>, rp: RetiredPlugin, env: Env)
    ensures var r := Neutralized(files, present, rp, env, false);
            forall row :: row in r.rows ==>
              && row.tool == rp.id && row.kind == PluginFile && row.path in present
              && (row.action == Rewrite ==> env.canon(row.path) in r.files)
              && (row.action != Rewrite ==> row.action == Error && env.canon(row.path) in env.locked)
    ensures files.Keys <= Neutralized(files, present, rp, env, false).files.Keys
    decreases |present|
  {
    if present != [] {
      var f := present[0];
      var key, stub := env.canon(f), StubFor(rp, f);
      if stub.None? || Read(files, env, key) == stub {
        NeutralizedRowsTell(files, present[1..], rp, env);
      } else {
        var next := if key in env.locked then files else files[key := stub.value];
        NeutralizedRowsTell(next, present[1..], rp, env);
        assert key in env.locked || key in next;
      }
    }
  }

  /** The shapes an outcome for a retired plugin can have. */
  lemma AppliedShapes(files: Files, rp: RetiredPlugin, env: Env)
    ensures var r := Applied(files, rp, env, false);
            var present := Present(files, env, rp.files);
            || r == Result(files, [])
            || r == Deleted(files, present, rp.id, env, false)
            || r == Neutralized(files, present, rp, env, false)
            || (rp.entry.Some? &&
                  r == Result(files, [Row(rp.id, PluginAllowList, rp.entry.value.path, State.Retired, Error)]))
            || (rp.entry.Some? && Dropped(files, rp.entry.value, env).Some? &&
                  var d := Deleted(files[env.canon(rp.entry.value.path) := Dropped(files, rp.entry.value, env).value],
                                   present, rp.id, env, false);
                  r == Result(d.files,
                              [Row(rp.id, PluginAllowList, rp.entry.value.path, State.Retired, Remove)] + d.rows))
  {
    hide InConfig, Dropped, Present, Deleted, Neutralized;
  }

  /** A row of a retired plugin tells the truth about the store the step leaves. */
  ghost predicate PluginRowTells(row: Row, rp: RetiredPlugin, after: Files, env: Env) {
    && row.tool == rp.id
    && (row.kind == PluginAllowList ==>
          && rp.entry.Some? && row.path == rp.entry.value.path && row.action in {Remove, Error}
          && (row.action == Remove ==> Promises.SaysNothing(after, rp.entry.value, env)))
    && (row.kind != PluginAllowList ==>
          && row.kind == PluginFile && row.path in rp.files && row.action in {Remove, Rewrite, Error}
          && (row.action == Remove ==> env.canon(row.path) !in after)
          && (row.action == Rewrite ==> env.canon(row.path) in after))
  }

  lemma DeletedTells(files: Files, present: seq<AbsPath>, rp: RetiredPlugin, env: Env)
    requires forall f :: f in present ==> f in rp.files
    ensures var r := Deleted(files, present, rp.id, env, false);
            forall row :: row in r.rows ==> PluginRowTells(row, rp, r.files, env)
  {
    hide Deleted;
    DeletedRowsTell(files, present, rp.id, env);
  }

  lemma NeutralizedTells(files: Files, present: seq<AbsPath>, rp: RetiredPlugin, env: Env)
    requires forall f :: f in present ==> f in rp.files
    ensures var r := Neutralized(files, present, rp, env, false);
            forall row :: row in r.rows ==> PluginRowTells(row, rp, r.files, env)
  {
    hide Neutralized;
    NeutralizedRowsTell(files, present, rp, env);
  }

  lemma DroppedTells(files: Files, rp: RetiredPlugin, env: Env)
    requires Faithful(env.codec) && Apart(rp, env) && rp.entry.Some? && Dropped(files, rp.entry.value, env).Some?
    ensures var next := files[env.canon(rp.entry.value.path) := Dropped(files, rp.entry.value, env).value];
            Promises.SaysNothing(Deleted(next, Present(files, env, rp.files), rp.id, env, false).files,
                rp.entry.value, env)
  {
    hide InConfig, Dropped, Present, Deleted, Neutralized, Faithful, Apart, Promises.SaysNothing;
    var e := rp.entry.value;
    var next := files[env.canon(e.path) := Dropped(files, e, env).value];
    var after := Deleted(next, Present(files, env, rp.files), rp.id, env, false).files;
    ConfigIsSpared(files, rp, env, false);
    DroppedIsClear(files, e, env);
    InConfigLocal(next, after, e, env);
    Promises.ClearSaysNothing(after, e, env);
  }

  /** A retired plugin: a removal of the config means the id is out, one of a file that it is gone; a
      rewrite leaves the file there; everything else is an error. */
  lemma UnplugRowsTell(s: Step, files: Files, env: Env)
    requires s.Unplug? && Faithful(env.codec) && Apart(s.rp, env)
    ensures var r := Apply(s, files, env, false);
            forall row :: row in r.rows ==> PluginRowTells(row, s.rp, r.files, env)
  {
    hide Applied, InConfig, Dropped, Present, Deleted, Neutralized, Faithful, Apart, Promises.SaysNothing;
    var rp := s.rp;
    var present := Present(files, env, rp.files);
    PresentIsListed(files, env, rp.files);
    AppliedShapes(files, rp, env);
    DeletedTells(files, present, rp, env);
    NeutralizedTells(files, present, rp, env);
    if rp.entry.Some? && Dropped(files, rp.entry.value, env).Some? {
      DroppedTells(files, rp, env);
      var next := files[env.canon(rp.entry.value.path) := Dropped(files, rp.entry.value, env).value];
      DeletedTells(next, present, rp, env);
    }
  }

  // ---- the rows of an uninstall ------------------------------------------------------------------------

  /** A file of ours: deleted, or not there, or it could not be deleted. */
  lemma DropRowTells(u: Undo, files: Files, env: Env)
    requires u.Drop?
    ensures var key := env.canon(u.path);
            var r := Take(u, files, env);
            && |r.removals| == 1
            && r.removals[0] == Taken(u.tool, u.kind, u.path, r.removals[0].action)
            && (r.removals[0].action == WasDeleted <==> key in files && key !in env.locked)
            && (r.removals[0].action == WasNothing <==> key !in files)
            && (r.removals[0].action == WasError <==> key in files && key in env.locked)
            && r.files == if r.removals[0].action == WasDeleted then files - {key} else files
  {
  }

  /** A heartbeat: stripped, or without a block, or it could not be read or written. */
  lemma UnblockRowTells(u: Undo, files: Files, env: Env)
    requires u.Unblock?
    ensures var key := env.canon(u.path);
            var r := Take(u, files, env);
            && |r.removals| == 1
            && r.removals[0] == Taken(u.tool, MarkerFile, u.path, r.removals[0].action)
            && (r.removals[0].action == WasStripped <==>
                  key in files && key !in env.unreadable && key !in env.locked && Blocks(files[key]) != [])
            && (r.removals[0].action == WasNothing <==>
                  key !in files || (key !in env.unreadable && Blocks(files[key]) == []))
            && r.removals[0].action in {WasStripped, WasNothing, WasError}
            && r.files == if r.removals[0].action == WasStripped then files[key := Kept(files[key], 0)] else files
  {
    hide Blocks, Kept;
  }

  /** What each outcome of a removal means for the config. */
  lemma WithdrawTells(s: Snapshot, c: Codec, at: Place, f: RemovalFaults)
    requires Faithful(c)
    ensures var (after, r) := Withdraw(s, c, at, f);
            && (r == Restored ==> s.bak.Some? && after.live == s.bak)
            && (r == MergedOut ==>
                  && after.live.Some? && c.parse(after.live.value).Some?
                  && Str(at.id) !in Items(c.parse(after.live.value).value, at.allow))
            && (r == NothingToRemove || r == Failed ==> after.live == s.live)
            && (r == Failed ==> after == s)
  {
    hide Touches, Removed, Get, Items, CleanBackup, Faithful;
    if s.live.Some? && c.parse(s.live.value).Some? { RemovalReadsBack(c.parse(s.live.value).value, c, at); }
  }

  /** A plugin's config: restored is the sidecar byte for byte; after a merge the id is out; nothing to do
      leaves the config alone, and so does an error. */
  lemma DistrustRowTells(u: Undo, files: Files, env: Env)
    requires u.Distrust? && Faithful(env.codec) && env.canon(BackupPath(u.entry.path)) != env.canon(u.entry.path)
    ensures var key, bak := env.canon(u.entry.path), env.canon(BackupPath(u.entry.path));
            var r := Take(u, files, env);
            && |r.removals| == 1
            && r.removals[0] == Taken(u.id, PluginAllowList, u.entry.path, r.removals[0].action)
            && (var a := r.removals[0].action;
                && a in {WasRestored, WasMerged, WasNothing, WasError}
                && (a == WasRestored ==> bak in files && key in r.files && r.files[key] == files[bak])
                && (a == WasMerged ==>
                      && key in r.files && env.codec.parse(r.files[key]).Some?
                      && Str(u.entry.at.id) !in Items(env.codec.parse(r.files[key]).value, u.entry.at.allow))
                && (a == WasNothing || a == WasError ==> AgreeOn(files, r.files, {key}))
                && (a == WasError ==> r.files == files))
  {
    hide Withdraw, Items, BackupPath, Faithful;
    WithdrawTells(Pair(files, u.entry, env), env.codec, u.entry.at, RemovalTroubles(files, u.entry, env));
  }

  lemma RemovalReadsBack(o: Fields, c: Codec, at: Place)
    requires Faithful(c)
    ensures var r := Removed(o, at.allow, at.entries, at.id);
            c.parse(c.print_(r)) == Some(r) && Str(at.id) !in Items(r, at.allow)
  {
    RemovalDistrusts(o, at.allow, at.entries, at.id);
    hide Removed, Items, HasEntry, Enables;
  }

  /** A gated row: no row while it is inactive, and a deletion exactly when the copy goes. */
  lemma UngateRowTells(u: Undo, files: Files, env: Env)
    requires u.Ungate?
    ensures var r := Take(u, files, env);
            && |r.removals| <= 1
            && (r.files != files <==> r.removals != [] && r.removals[0].action == WasDeleted)
            && (r.removals != [] ==> r.removals[0].tool == u.gt.name && r.removals[0].kind == SkillFile)
  {
    hide MarkerPath, ReadMarker, ResolveTarget, Attests, LinkOnWay, RelUp, Clean, ValidName;
    if ResolveTarget(u.gt, u.entrypoint, env.home).Some? {
      var key := env.canon(ResolveTarget(u.gt, u.entrypoint, env.home).value.path);
      assert key in files ==> files - {key} != files;
    }
  }

  /** A retired surface is reported with its own name, kind and path; an error as an error, a stub as a stub,
      and anything else as taken back in the way of its kind. */
  lemma RetiredRowTells(row: Row)
    ensures var t := TakenOf(row);
            && t.tool == row.tool && t.kind == row.kind && t.path == row.path
            && (t.action == WasError <==> row.action == Error)
            && (t.action == WasNeutralized <==> row.action == Rewrite)
            && (row.action != Error && row.action != Rewrite ==>
                  && (row.kind == MarkerFile <==> t.action == WasStripped)
                  && (row.kind == PluginAllowList <==> t.action == WasMerged)
                  && (row.kind !in {MarkerFile, PluginAllowList} <==> t.action == WasDeleted))
  {
  }

  // ---- gated rows that are out of order -----------------------------------------------------------------

  /** The marker lies strictly inside ~/.pilot. */
  predicate MarkerInOrder(gt: GatedTool, env: Env) {
    Expand(gt.requireMarker, env.home).Some? && env.home + [PILOT] < Expand(gt.requireMarker, env.home).value
  }

  /** Something is in the marker's place. */
  predicate MarkerThere(files: Files, gt: GatedTool, env: Env)
    requires MarkerInOrder(gt, env)
  {
    var p := Expand(gt.requireMarker, env.home).value;
    p in env.links || p in env.dirs || env.canon(p) in files
  }

  /** A row whose marker path is out of order is an error wherever it runs; one whose marker is absent says
      nothing; one whose marker is there but whose target is out of order is an error. The error names what
      the manifest says. Real or dry. */
  lemma BrokenGateRowTells(s: Step, files: Files, env: Env, dry: bool)
    requires s.Gate?
    ensures var rows := Apply(s, files, env, dry).rows;
            && (!MarkerInOrder(s.gt, env) ==>
                  rows == [Row(s.gt.name, SkillFile, [], Absent, Error, s.gt.requireMarker)])
            && (MarkerInOrder(s.gt, env) && !MarkerThere(files, s.gt, env) ==> rows == [])
            && (MarkerInOrder(s.gt, env) && MarkerThere(files, s.gt, env) &&
                CopyPath(s.gt, s.entrypoint, env.home).None? ==>
                  rows == [Row(s.gt.name, SkillFile, [], Absent, Error, s.gt.skillsDir)])
  {
    hide ResolveTarget, Attests, LinkOnWay, CopyStep, RelUp, Expand, CopyPath, MarkerPath, Declared, Stands, WayClear;
    hide Clean, ValidName;
    MarkerPathIs(s.gt, env.home);
    TargetStands(s.gt, s.entrypoint, env);
  }

  lemma BrokenUngateRowTells(u: Undo, files: Files, env: Env)
    requires u.Ungate?
    ensures var rows := Take(u, files, env).removals;
            && (!MarkerInOrder(u.gt, env) ==> rows == [Taken(u.gt.name, SkillFile, [], WasError, u.gt.requireMarker)])
            && (MarkerInOrder(u.gt, env) && !MarkerThere(files, u.gt, env) ==> rows == [])
            && (MarkerInOrder(u.gt, env) && MarkerThere(files, u.gt, env) &&
                CopyPath(u.gt, u.entrypoint, env.home).None? ==>
                  rows == [Taken(u.gt.name, SkillFile, [], WasError, u.gt.skillsDir)])
  {
    hide ResolveTarget, Attests, LinkOnWay, RelUp, Expand, CopyPath, MarkerPath, Declared, Stands, WayClear;
    hide Clean, ValidName;
    MarkerPathIs(u.gt, env.home);
    TargetStands(u.gt, u.entrypoint, env);
  }
}
