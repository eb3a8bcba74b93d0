/**
 The program itself: a tick that goes over the manifest and changes the files one by one. Each
 method is proved to do what the steps of the manifest say, in their order.
 */
module Host {
  import opened Text
  import opened BlockScan
  import opened Splice
  import opened Heartbeat
  import opened Paths
  import opened Outcomes
  import opened ConfigFile
  import opened World
  import opened Retired
  import opened Gated
  import opened GatedRun
  import opened RetiredList
  import opened Steps
  import opened Manifest
  import opened Uninstall
  import Muse
  import MuseShell
  import Json

  // ---- going on from a point in the list -----------------------------------------------------

  /** The outcome so far, and then the rest of the steps. */
  ghost function Onward(r: Result, rest: seq<Step>, env: Env, dry: bool): Result {
    var y := RunSteps(rest, r.files, env, dry);
    Result(y.files, r.rows + y.rows)
  }

  lemma OnwardStart(steps: seq<Step>, files: Files, env: Env, dry: bool)
    ensures Onward(Result(files, []), steps, env, dry) == RunSteps(steps, files, env, dry)
  {
    assert [] + RunSteps(steps, files, env, dry).rows == RunSteps(steps, files, env, dry).rows;
  }

  lemma OnwardDone(r: Result, env: Env, dry: bool)
    ensures Onward(r, [], env, dry) == r
  {
    assert r.rows + [] == r.rows;
  }

  /** A part of the list that was run in between. */
  lemma OnwardPast(r: Result, a: seq<Step>, b: seq<Step>, mid: Result, env: Env, dry: bool)
    requires mid == RunSteps(a, r.files, env, dry)
    ensures Onward(r, a + b, env, dry) == Onward(Result(mid.files, r.rows + mid.rows), b, env, dry)
  {
    RunSplit(a, b, r.files, env, dry);
    hide RunSteps;
    var y := RunSteps(b, mid.files, env, dry);
    assert r.rows + (mid.rows + y.rows) == (r.rows + mid.rows) + y.rows;
  }

  lemma OnwardOne(r: Result, s: Step, b: seq<Step>, mid: Result, env: Env, dry: bool)
    requires mid == Apply(s, r.files, env, dry)
    ensures Onward(r, [s] + b, env, dry) == Onward(Result(mid.files, r.rows + mid.rows), b, env, dry)
  {
    hide *;
    RunOne(s, r.files, env, dry);
    OnwardPast(r, [s], b, mid, env, dry);
  }

  lemma OwnApplies(s: Step, files: Files, env: Env, dry: bool)
    ensures s.Own? ==> Apply(s, files, env, dry) == OwnStep(files, s.tool, s.kind, s.path, s.body, env, dry)
    ensures s.Say? ==> Apply(s, files, env, dry) == Result(files, [s.row])
    ensures s.Beat? ==> Apply(s, files, env, dry) == BeatStep(files, s.tool, s.path, s.d, env, dry)
    ensures s.Trust? ==> Apply(s, files, env, dry) == TrustStep(files, s.id, s.entry, env, dry)
    ensures s.Gate? ==>
              Apply(s, files, env, dry) == GateReconciled(files, s.gt, s.entrypoint, s.want, s.taken, env, dry)
    ensures s.Unmark? ==> Apply(s, files, env, dry) == UnmarkStep(files, s.tool, s.path, env, dry)
    ensures s.Unplug? ==> Apply(s, files, env, dry) == Applied(files, s.rp, env, dry)
    ensures s.Unown? ==> Apply(s, files, env, dry) == UnownStep(files, s.tool, s.path, env, dry)
  {
    hide OwnStep, BeatStep, TrustStep, UnmarkStep, UnownStep, Applied, GateReconciled;
  }

  // ---- lists, one entry at a time --------------------------------------------------------------

  lemma HelperNext(hs: seq<Helper>, i: nat, f: Fetched, env: Env)
    requires i < |hs|
    ensures HelperSteps(hs[i..], f, env) == [HelperStep(hs[i], f, env)] + HelperSteps(hs[i + 1..], f, env)
  {
    assert hs[i..][1..] == hs[i + 1..];
  }

  lemma PluginFileNext(id: string, dir: AbsPath, files: seq<SourceFile>, i: nat, f: Fetched)
    requires i < |files|
    ensures PluginFileSteps(id, dir, files[i..], f) ==
              [PluginFileStep(id, dir, files[i], f)] + PluginFileSteps(id, dir, files[i + 1..], f)
  {
    hide PluginFileStep;
    assert files[i..][1..] == files[i + 1..];
  }

  lemma ToolNext(ts: seq<Tool>, i: nat, m: Manifest, f: Fetched, env: Env, owned: set<AbsPath>)
    requires i < |ts|
    ensures AllToolSteps(ts[i..], m, f, env, owned) ==
            ToolSteps(ts[i], m, f, env, owned) +
              AllToolSteps(ts[i + 1..], m, f, env, OwnedAfter(ts[i], m, f, env, owned))
  {
    hide ToolSteps, OwnedAfter;
    assert ts[i..][1..] == ts[i + 1..];
  }

  lemma GateNext(gts: seq<GatedTool>, i: nat, m: Manifest, f: Fetched, taken: set<AbsPath>)
    requires i < |gts|
    ensures GateSteps(gts[i..], m, f, taken) ==
            [Gate(gts[i], m.entrypoint, FormatSkill(f.skill, gts[i].skillFormat, m.entrypoint), taken)] +
              GateSteps(gts[i + 1..], m, f, taken)
  {
    hide FormatSkill;
    assert gts[i..][1..] == gts[i + 1..];
  }

  lemma UnmarkNext(ms: seq<RetiredMarker>, i: nat)
    requires i < |ms|
    ensures UnmarkSteps(ms[i..]) == [Unmark(ms[i].tool, ms[i].path)] + UnmarkSteps(ms[i + 1..])
  {
    assert ms[i..][1..] == ms[i + 1..];
  }

  lemma UnplugNext(ps: seq<RetiredPlugin>, i: nat)
    requires i < |ps|
    ensures UnplugSteps(ps[i..]) == [Unplug(ps[i])] + UnplugSteps(ps[i + 1..])
  {
    assert ps[i..][1..] == ps[i + 1..];
  }

  lemma UnownNext(hs: seq<RetiredHelper>, i: nat)
    requires i < |hs|
    ensures UnownSteps(hs[i..]) == [Unown(hs[i].name, hs[i].path)] + UnownSteps(hs[i + 1..])
  {
    assert hs[i..][1..] == hs[i + 1..];
  }

  lemma SkillKeysNext(ts: seq<Tool>, i: nat, m: Manifest, env: Env)
    requires i < |ts|
    ensures SkillKeys(ts[..i + 1], m, env) ==
            SkillKeys(ts[..i], m, env) + (if Installed(ts[i], env) then {env.canon(SkillPathOf(ts[i], m, env))} else {})
  {
    hide Installed, SkillPathOf;
    assert ts[..i + 1] == ts[..i] + [ts[i]];
  }

  // ---- deletions and stubs, one file at a time -----------------------------------------------------

  function Both(a: Result, rows: seq<Row>): Result {
    Result(a.files, rows + a.rows)
  }

  lemma BothNext(a: Result, rows: seq<Row>, row: Row)
    ensures Both(Result(a.files, [row] + a.rows), rows) == Both(a, rows + [row])
  {
    assert rows + ([row] + a.rows) == (rows + [row]) + a.rows;
  }

  lemma PresentNext(files: Files, env: Env, listed: seq<AbsPath>, i: nat)
    requires i < |listed|
    ensures Present(files, env, listed[i..]) ==
            (if env.canon(listed[i]) in files then [listed[i]] else []) + Present(files, env, listed[i + 1..])
  {
    assert listed[i..][1..] == listed[i + 1..];
  }

  lemma DeletedNext(files: Files, present: seq<AbsPath>, i: nat, id: string, env: Env, dry: bool)
    requires i < |present|
    ensures var key := env.canon(present[i]);
            var fails := !dry && key in env.locked && key in files;
            var rest := Deleted(if dry || fails then files else files - {key}, present[i + 1..], id, env, dry);
            Deleted(files, present[i..], id, env, dry) ==
              var row := Row(id, PluginFile, present[i], State.Retired, if fails then Error else Remove);
              Result(rest.files, [row] + rest.rows)
  {
    assert present[i..][1..] == present[i + 1..];
  }

  lemma NeutralizedNext(files: Files, present: seq<AbsPath>, i: nat, rp: RetiredPlugin, env: Env, dry: bool)
    requires i < |present|
    ensures var key := env.canon(present[i]);
            var stub := StubFor(rp, present[i]);
            var fails := !dry && key in env.locked;
            Neutralized(files, present[i..], rp, env, dry) ==
              if stub.None? || Read(files, env, key) == stub then Neutralized(files, present[i + 1..], rp, env, dry)
              else
                var row := Row(rp.id, PluginFile, present[i], State.Retired, if fails then Error else Rewrite);
                var next := if dry || fails then files else files[key := stub.value];
                var rest := Neutralized(next, present[i + 1..], rp, env, dry);
                Result(rest.files, [row] + rest.rows)
  {
    hide StubFor;
    assert present[i..][1..] == present[i + 1..];
  }

  class Machine {
    var files: Files
    const env: Env

    constructor (files: Files, env: Env)
      ensures this.files == files && this.env == env
    {
      this.files, this.env := files, env;
    }

    /** The files now, and some rows. */
    ghost function Now(rows: seq<Row>): Result
      reads this
    {
      Result(files, rows)
    }

    // ---- single surfaces -----------------------------------------------------------------------

    /** Skill copies, plugin files and helpers. */
    method ReconcileOwned(tool: string, kind: FileKind, path: AbsPath, body: string, dry: bool) returns (row: Row)
      modifies this
      ensures Now([row]) == OwnStep(old(files), tool, kind, path, body, env, dry)
    {
      var key := env.canon(path);
      var state := StateOf(Read(files, env, key), body, env);
      row := Row(tool, kind, path, state, ActionFor(state));
      if kind == HelperFile && Refused(files, env, key) {
        row := row.(action := Error);
      } else if row.action != Noop && !dry {
        if key in env.locked {
          row := row.(action := Error);
        } else {
          files := files[key := body];
        }
      }
    }

    /** `reconcileMarker`, once the block is rendered. */
    method ReconcileMarker(tool: string, path: AbsPath, d: Directive, dry: bool) returns (row: Row)
      modifies this
      ensures Now([row]) == BeatStep(old(files), tool, path, d, env, dry)
    {
      hide ClassifyMarker, Written;
      var key := env.canon(path);
      var file := new UserFile(Read(files, env, key));
      var state := file.Classify(d.hash, d.r);
      row := Row(tool, MarkerFile, path, state, ActionFor(state));
      if row.action == Noop || dry { return; }
      if Refused(files, env, key) || key in env.locked {
        row := row.(action := Error);
        return;
      }
      file.WriteMarker(d);
      files := files[key := file.content.value];
    }

    /** `reconcilePluginAllowList`. */
    method ReconcilePluginAllowList(id: string, e: ConfigEntry, dry: bool) returns (row: Row)
      modifies this
      ensures Now([row]) == TrustStep(old(files), id, e, env, dry)
    {
      hide ClassifyConfig, Mergeable, NeedsBackup, Next, BackupPath, Original, InReach, GoodBytes, Passes, Faithful;
      var key, bak := env.canon(e.path), env.canon(BackupPath(e.path));
      var live := Read(files, env, key);
      var state := ClassifyConfig(live, env.codec, e.at);
      row := Row(id, PluginAllowList, e.path, state, ActionFor(state));
      if row.action == Noop || dry { return; }
      NextIsThere(live, env.codec, e.at);
      var config := new ConfigFiles(live, None);
      var faults := Faults(Refused(files, env, key), false, bak in env.locked, key in env.locked, None, false, false);
      var err := config.MergePluginAllowList(env.codec, e.at, faults);
      if config.bak.Some? { files := files[bak := config.bak.value]; }
      if err.None? {
        files := files[key := config.live.value];
      } else {
        row := row.(action := Error);
      }
    }

    // ---- gated tools -------------------------------------------------------------------------------

    method ReadGatedMarker(marker: AbsPath) returns (d: Option<Declaration>)
      ensures d == ReadMarker(files, env, marker)
    {
      var key := env.canon(marker);
      if marker in env.links || marker in env.dirs { return Some(Malformed); }
      if key !in files { return None; }
      if key in env.unreadable || |files[key]| > MARKER_MAX { return Some(Malformed); }
      var m := ParseGatedMarker(files[key]);
      d := Some(m);
    }

    method MakeSkill(body: string, format: string, entrypoint: string) returns (want: Option<string>)
      ensures want == FormatSkill(body, format, entrypoint)
    {
      if format == "" { return Some(body); }
      if format == "muse" {
        var s := Muse.MuseSkillMD(body, MuseShell.ReplaceAll(entrypoint, "-", "_"));
        return Some(s);
      }
      return None;
    }

    /** `reconcileGatedTool`: no row while the tool is inactive. */
    method ReconcileGatedTool(gt: GatedTool, entrypoint: string, body: string, taken: set<AbsPath>, dry: bool)
        returns (rows: seq<Row>)
      modifies this
      ensures Now(rows) == GateReconciled(old(files), gt, entrypoint,
                  FormatSkill(body, gt.skillFormat, entrypoint), taken, env, dry)
    {
      hide MarkerPath, ReadMarker, ResolveTarget, FormatSkill, Attests, LinkOnWay, StateOf;
      var marker := MarkerPath(gt, env.home);
      if marker.None? { return [Row(gt.name, SkillFile, [], Absent, Error, gt.requireMarker)]; }
      var declared := ReadGatedMarker(marker.value);
      if declared.None? { return []; }
      var target := ResolveTarget(gt, entrypoint, env.home);
      if target.None? { return [Row(gt.name, SkillFile, [], Absent, Error, gt.skillsDir)]; }
      var path := target.value.path;
      var want := MakeSkill(body, gt.skillFormat, entrypoint);
      if want.None? { return [Row(gt.name, SkillFile, path, Absent, Error)]; }
      if target.value.root !in env.dirs { return []; }
      var key := env.canon(path);
      if key in taken { return [Row(gt.name, SkillFile, path, Absent, Error)]; }
      if !Attests(declared.value, gt, env) { return []; }
      TargetStrictlyInside(gt, entrypoint, env.home);
      if LinkOnWay(env, target.value.root, path) || path in env.dirs || Refused(files, env, key) {
        return [Row(gt.name, SkillFile, path, Absent, Error)];
      }
      var state := StateOf(Read(files, env, key), want.value, env);
      var row := Row(gt.name, SkillFile, path, state, ActionFor(state));
      if row.action != Noop && !dry {
        if key in env.locked {
          row := row.(action := Error);
        } else {
          files := files[key := want.value];
        }
      }
      rows := [row];
    }

    // ---- retired surfaces --------------------------------------------------------------------------

    /** The listed files that are on disk. */
    method PresentFiles(listed: seq<AbsPath>) returns (present: seq<AbsPath>)
      ensures present == Present(files, env, listed)
    {
      hide Present;
      present := [];
      var i := 0;
      assert listed[0..] == listed;
      while i < |listed|
        invariant 0 <= i <= |listed|
        invariant present + Present(files, env, listed[i..]) == Present(files, env, listed)
      {
        PresentNext(files, env, listed, i);
        ghost var rest := Present(files, env, listed[i + 1..]);
        assert (present + [listed[i]]) + rest == present + ([listed[i]] + rest);
        assert present + ([] + rest) == present + rest;
        if env.canon(listed[i]) in files { present := present + [listed[i]]; }
        i := i + 1;
      }
      NoFilesLeft(files, listed[i..], env);
    }

    method DeleteFiles(present: seq<AbsPath>, id: string, dry: bool) returns (rows: seq<Row>)
      modifies this
      ensures Now(rows) == Deleted(old(files), present, id, env, dry)
    {
      hide Deleted;
      rows := [];
      var i := 0;
      assert present[0..] == present;
      while i < |present|
        invariant 0 <= i <= |present|
        invariant Both(Deleted(files, present[i..], id, env, dry), rows) == Deleted(old(files), present, id, env, dry)
      {
        DeletedNext(files, present, i, id, env, dry);
        var key := env.canon(present[i]);
        var row := Row(id, PluginFile, present[i], State.Retired, Remove);
        if !dry {
          if key in env.locked && key in files { row := row.(action := Error); } else { files := files - {key}; }
        }
        BothNext(Deleted(files, present[i + 1..], id, env, dry), rows, row);
        rows := rows + [row];
        i := i + 1;
      }
      NoneDeleted(files, present[i..], id, env, dry);
      assert rows + [] == rows;
    }

    /** `neutralizeRetiredPlugin`. */
    method NeutralizeRetiredPlugin(present: seq<AbsPath>, rp: RetiredPlugin, dry: bool) returns (rows: seq<Row>)
      modifies this
      ensures Now(rows) == Neutralized(old(files), present, rp, env, dry)
    {
      hide Neutralized, StubFor;
      rows := [];
      var i := 0;
      assert present[0..] == present;
      while i < |present|
        invariant 0 <= i <= |present|
        invariant Both(Neutralized(files, present[i..], rp, env, dry), rows) ==
                    Neutralized(old(files), present, rp, env, dry)
      {
        NeutralizedNext(files, present, i, rp, env, dry);
        var key, stub := env.canon(present[i]), StubFor(rp, present[i]);
        if stub.Some? && Read(files, env, key) != stub {
          var row := Row(rp.id, PluginFile, present[i], State.Retired, Rewrite);
          if !dry {
            if key in env.locked { row := row.(action := Error); } else { files := files[key := stub.value]; }
          }
          BothNext(Neutralized(files, present[i + 1..], rp, env, dry), rows, row);
          rows := rows + [row];
        }
        i := i + 1;
      }
      NoneNeutralized(files, present[i..], rp, env, dry);
      assert rows + [] == rows;
    }

    method DropFromConfig(e: ConfigEntry) returns (failed: bool)
      requires Faithful(env.codec) && InConfig(files, e, env) == IsListed
      modifies this
      ensures failed <==> Dropped(old(files), e, env).None?
      ensures files == if failed then old(files) else old(files)[env.canon(e.path) := Dropped(old(files), e, env).value]
    {
      hide Listed, Json.Removed;
      var key := env.canon(e.path);
      var config := new ConfigFiles(Some(files[key]), None);
      failed := config.DropPlugin(env.codec, e.at, key in env.locked);
      if !failed { files := files[key := config.live.value]; }
    }

    /** `applyRetiredPlugin`: the allow-list entry first, then the files. */
    method ApplyRetiredPlugin(rp: RetiredPlugin, dry: bool) returns (rows: seq<Row>)
      requires Faithful(env.codec)
      modifies this
      ensures Now(rows) == Applied(old(files), rp, env, dry)
    {
      hide Present, Deleted, Neutralized, InConfig, Dropped, Faithful;
      var present := PresentFiles(rp.files);
      rows := [];
      if rp.entry.Some? {
        var e := rp.entry.value;
        var config := Row(rp.id, PluginAllowList, e.path, State.Retired, Remove);
        match InConfig(files, e, env) {
          case Unknown =>
            if present == [] { return; }
            if rp.stubs != map[] {
              rows := NeutralizeRetiredPlugin(present, rp, dry);
            } else {
              rows := [config.(action := Error)];
            }
            return;
          case IsListed =>
            if !dry {
              var failed := DropFromConfig(e);
              if failed {
                rows := [config.(action := Error)];
                return;
              }
            }
            rows := [config];
          case Clear =>
        }
      }
      var deletions := DeleteFiles(present, rp.id, dry);
      assert [] + deletions == deletions;
      rows := rows + deletions;
    }

    method StripRetiredMarker(tool: string, path: AbsPath, dry: bool) returns (rows: seq<Row>)
      modifies this
      ensures Now(rows) == UnmarkStep(old(files), tool, path, env, dry)
    {
      hide Blocks, Kept;
      var key := env.canon(path);
      var content := Read(files, env, key);
      if content.None? { return []; }
      var blocks := FindMarkers(content.value);
      if |blocks| == 0 { return []; }
      var row := Row(tool, MarkerFile, path, State.Retired, Remove);
      if !dry {
        if key in env.locked {
          row := row.(action := Error);
        } else {
          var file := new UserFile(content);
          var stripped := file.StripMarkerFile();
          files := files[key := file.content.value];
        }
      }
      rows := [row];
    }

    method DeleteRetiredHelper(tool: string, path: AbsPath, dry: bool) returns (rows: seq<Row>)
      modifies this
      ensures Now(rows) == UnownStep(old(files), tool, path, env, dry)
    {
      var key := env.canon(path);
      if key !in files { return []; }
      var row := Row(tool, HelperFile, path, State.Retired, Remove);
      if !dry {
        if key in env.locked { row := row.(action := Error); } else { files := files - {key}; }
      }
      rows := [row];
    }

    // ---- the lists -----------------------------------------------------------------------------------

    method ReconcileHelpers(hs: seq<Helper>, f: Fetched, dry: bool) returns (rows: seq<Row>)
      modifies this
      ensures Now(rows) == RunSteps(HelperSteps(hs, f, env), old(files), env, dry)
    {
      hide *;
      ghost var goal := RunSteps(HelperSteps(hs, f, env), files, env, dry);
      rows := [];
      var i := 0;
      assert hs[0..] == hs;
      OnwardStart(HelperSteps(hs, f, env), files, env, dry);
      while i < |hs|
        invariant 0 <= i <= |hs|
        invariant Onward(Result(files, rows), HelperSteps(hs[i..], f, env), env, dry) == goal
      {
        ghost var before := Result(files, rows);
        HelperNext(hs, i, f, env);
        var row := ReconcileHelper(hs[i], f, dry);
        OnwardOne(before, HelperStep(hs[i], f, env), HelperSteps(hs[i + 1..], f, env), Result(files, [row]), env, dry);
        rows := rows + [row];
        i := i + 1;
      }
      assert hs[i..] == [];
      NothingLeft(f, env, "", env.home);
      OnwardDone(Result(files, rows), env, dry);
      NowIs(rows);
    }

    lemma NowIs(rows: seq<Row>)
      ensures Now(rows) == Result(files, rows)
    {
    }

    method ReconcileHelper(h: Helper, f: Fetched, dry: bool) returns (row: Row)
      modifies this
      ensures Result(files, [row]) == Apply(HelperStep(h, f, env), old(files), env, dry)
    {
      hide OwnStep, PlaceOf, Apply;
      OwnApplies(HelperStep(h, f, env), files, env, dry);
      var dst := PlaceOf(h.dst, env);
      var body := f.body(h.src);
      if body.None? { return Row(h.name, HelperFile, dst, Absent, Error); }
      row := ReconcileOwned(h.name, HelperFile, dst, body.value, dry);
    }

    method ReconcilePluginFile(id: string, dir: AbsPath, pf: SourceFile, f: Fetched, dry: bool) returns (row: Row)
      modifies this
      ensures Result(files, [row]) == Apply(PluginFileStep(id, dir, pf, f), old(files), env, dry)
    {
      hide OwnStep, Apply, PathWithin, Join;
      OwnApplies(PluginFileStep(id, dir, pf, f), files, env, dry);
      var dst := Join(dir, pf.name);
      if !PathWithin(dir, dst) { return Row(id, PluginFile, dst, Absent, Error); }
      var body := f.body(pf.src);
      if body.None? { return Row(id, PluginFile, dst, Absent, Error); }
      row := ReconcileOwned(id, PluginFile, dst, body.value, dry);
    }

    /** `reconcilePluginFiles`. */
    method ReconcilePluginFiles(id: string, dir: AbsPath, pfs: seq<SourceFile>, f: Fetched, dry: bool)
        returns (rows: seq<Row>)
      modifies this
      ensures Result(files, rows) == RunSteps(PluginFileSteps(id, dir, pfs, f), old(files), env, dry)
    {
      hide *;
      ghost var goal := RunSteps(PluginFileSteps(id, dir, pfs, f), files, env, dry);
      rows := [];
      var i := 0;
      assert pfs[0..] == pfs;
      OnwardStart(PluginFileSteps(id, dir, pfs, f), files, env, dry);
      while i < |pfs|
        invariant 0 <= i <= |pfs|
        invariant Onward(Result(files, rows), PluginFileSteps(id, dir, pfs[i..], f), env, dry) == goal
      {
        ghost var before := Result(files, rows);
        PluginFileNext(id, dir, pfs, i, f);
        var row := ReconcilePluginFile(id, dir, pfs[i], f, dry);
        OnwardOne(before, PluginFileStep(id, dir, pfs[i], f), PluginFileSteps(id, dir, pfs[i + 1..], f),
            Result(files, [row]), env, dry);
        rows := rows + [row];
        i := i + 1;
      }
      assert pfs[i..] == [];
      NothingLeft(f, env, id, dir);
      OnwardDone(Result(files, rows), env, dry);
    }

    /** The files of a plugin, and then its place in the config. */
    method ReconcilePlugin(plugin: Option<Plugin>, f: Fetched, dry: bool) returns (rows: seq<Row>)
      modifies this
      ensures Result(files, rows) == RunSteps(PluginSteps(plugin, f, env), old(files), env, dry)
    {
      hide RunSteps, PluginFileSteps, TrustStep, Apply, PlaceOf, EntryFor;
      if plugin.None? {
        NothingToRun(files, env, dry);
        return [];
      }
      var p := plugin.value;
      ghost var fileSteps := PluginFileSteps(p.id, PlaceOf(p.installPath, env), p.files, f);
      ghost var start := files;
      rows := ReconcilePluginFiles(p.id, PlaceOf(p.installPath, env), p.files, f, dry);
      if p.allowList.Some? {
        ghost var trust := Trust(p.id, EntryFor(p, env));
        RunSplit(fileSteps, [trust], start, env, dry);
        RunOne(trust, files, env, dry);
        OwnApplies(trust, files, env, dry);
        var row := ReconcilePluginAllowList(p.id, EntryFor(p, env), dry);
        rows := rows + [row];
      } else {
        assert fileSteps + [] == fileSteps;
      }
    }

    /** One tool: the skill copy, the heartbeat unless another tool owns it, the plugin. */
    method ReconcileTool(t: Tool, m: Manifest, f: Fetched, owners: map<AbsPath, string>, dry: bool)
      returns (rows: seq<Row>, owners': map<AbsPath, string>)
      modifies this
      ensures Result(files, rows) == RunSteps(ToolSteps(t, m, f, env, owners.Keys), old(files), env, dry)
      ensures owners'.Keys == OwnedAfter(t, m, f, env, owners.Keys)
    {
      hide RunSteps, PluginSteps, OwnStep, BeatStep, Apply, PlaceOf;
      hide SkillPathOf, DirectiveOf, Installed, HasHeartbeat, HeartbeatKey;
      rows, owners' := [], owners;
      NothingToRun(files, env, dry);
      if !Installed(t, env) { return; }
      ghost var start := files;
      ghost var own := Own(t.name, SkillFile, SkillPathOf(t, m, env), f.skill);
      OwnApplies(own, start, env, dry);
      RunOne(own, start, env, dry);
      var skill := ReconcileOwned(t.name, SkillFile, SkillPathOf(t, m, env), f.skill, dry);
      rows := [skill];
      assert [own] + [] == [own];
      if !HasHeartbeat(t) { return; }
      var path, key := PlaceOf(t.heartbeatPath, env), HeartbeatKey(t, env);
      ghost var beat := HeartbeatStep(t, m, f, env, owners.Keys);
      ghost var rest := if GoesOn(t, m, f, env, owners.Keys) then PluginSteps(t.plugin, f, env) else [];
      OwnApplies(beat, files, env, dry);
      RunOne(beat, files, env, dry);
      RunSplit([own], [beat] + rest, start, env, dry);
      RunSplit([beat], rest, files, env, dry);
      var row;
      if key in owners {
        row := Row(t.name, MarkerFile, path, Identical, Noop);
      } else {
        var d := DirectiveOf(t, m, f, env);
        if d.None? {
          rows := rows + [Row(t.name, MarkerFile, path, Absent, Error)];
          NothingToRun(files, env, dry);
          return;
        }
        row := ReconcileMarker(t.name, path, d.value, dry);
      }
      owners' := owners[key := if key in owners then owners[key] else t.name];
      var plugin := ReconcilePlugin(t.plugin, f, dry);
      assert [skill] + ([row] + plugin) == [skill, row] + plugin;
      rows := [skill, row] + plugin;
    }

    /** The tools in manifest order, with the owners of heartbeat files and of skill copies. */
    method ReconcileTools(m: Manifest, f: Fetched, dry: bool)
        returns (rows: seq<Row>, skillOwners: map<AbsPath, string>)
      modifies this
      ensures Result(files, rows) == RunSteps(AllToolSteps(m.tools, m, f, env, {}), old(files), env, dry)
      ensures skillOwners.Keys == SkillKeys(m.tools, m, env)
    {
      hide *;
      var ts := m.tools;
      ghost var goal := RunSteps(AllToolSteps(ts, m, f, env, {}), files, env, dry);
      var hbOwners: map<AbsPath, string> := map[];
      rows, skillOwners := [], map[];
      var i := 0;
      assert ts[0..] == ts && ts[..0] == [];
      assert hbOwners.Keys == {};
      NoToolsLeft(m, f, env, {}, {});
      OnwardStart(AllToolSteps(ts, m, f, env, {}), files, env, dry);
      while i < |ts|
        invariant 0 <= i <= |ts|
        invariant skillOwners.Keys == SkillKeys(ts[..i], m, env)
        invariant Onward(Result(files, rows), AllToolSteps(ts[i..], m, f, env, hbOwners.Keys), env, dry) == goal
      {
        ghost var before := Result(files, rows);
        ghost var owned := hbOwners.Keys;
        ToolNext(ts, i, m, f, env, owned);
        SkillKeysNext(ts, i, m, env);
        var t := ts[i];
        var more;
        more, hbOwners := ReconcileTool(t, m, f, hbOwners, dry);
        OnwardPast(before, ToolSteps(t, m, f, env, owned), AllToolSteps(ts[i + 1..], m, f, env, hbOwners.Keys),
            Result(files, more), env, dry);
        if Installed(t, env) { skillOwners := skillOwners[env.canon(SkillPathOf(t, m, env)) := t.name]; }
        rows := rows + more;
        i := i + 1;
      }
      assert ts[i..] == [] && ts[..i] == ts;
      NoToolsLeft(m, f, env, hbOwners.Keys, {});
      OnwardDone(Result(files, rows), env, dry);
    }

    method ReconcileGatedTools(m: Manifest, f: Fetched, taken: set<AbsPath>, dry: bool) returns (rows: seq<Row>)
      modifies this
      ensures Result(files, rows) == RunSteps(GateSteps(m.gated, m, f, taken), old(files), env, dry)
    {
      hide *;
      var gts := m.gated;
      ghost var goal := RunSteps(GateSteps(gts, m, f, taken), files, env, dry);
      rows := [];
      var i := 0;
      assert gts[0..] == gts;
      OnwardStart(GateSteps(gts, m, f, taken), files, env, dry);
      while i < |gts|
        invariant 0 <= i <= |gts|
        invariant Onward(Result(files, rows), GateSteps(gts[i..], m, f, taken), env, dry) == goal
      {
        ghost var before := Result(files, rows);
        ghost var gate := Gate(gts[i], m.entrypoint, FormatSkill(f.skill, gts[i].skillFormat, m.entrypoint), taken);
        GateNext(gts, i, m, f, taken);
        OwnApplies(gate, files, env, dry);
        var more := ReconcileGatedTool(gts[i], m.entrypoint, f.skill, taken, dry);
        NowIs(more);
        OnwardOne(before, gate, GateSteps(gts[i + 1..], m, f, taken), Result(files, more), env, dry);
        rows := rows + more;
        i := i + 1;
      }
      assert gts[i..] == [];
      NoToolsLeft(m, f, env, {}, taken);
      OnwardDone(Result(files, rows), env, dry);
    }

    method StripRetiredMarkers(ms: seq<RetiredMarker>, dry: bool) returns (rows: seq<Row>)
      modifies this
      ensures Result(files, rows) == RunSteps(UnmarkSteps(ms), old(files), env, dry)
    {
      hide *;
      ghost var goal := RunSteps(UnmarkSteps(ms), files, env, dry);
      rows := [];
      var i := 0;
      assert ms[0..] == ms;
      OnwardStart(UnmarkSteps(ms), files, env, dry);
      while i < |ms|
        invariant 0 <= i <= |ms|
        invariant Onward(Result(files, rows), UnmarkSteps(ms[i..]), env, dry) == goal
      {
        ghost var before := Result(files, rows);
        ghost var step := Unmark(ms[i].tool, ms[i].path);
        UnmarkNext(ms, i);
        OwnApplies(step, files, env, dry);
        var more := StripRetiredMarker(ms[i].tool, ms[i].path, dry);
        NowIs(more);
        OnwardOne(before, step, UnmarkSteps(ms[i + 1..]), Result(files, more), env, dry);
        rows := rows + more;
        i := i + 1;
      }
      assert ms[i..] == [];
      NoStepsLeft();
      OnwardDone(Result(files, rows), env, dry);
    }

    method RemoveRetiredPlugins(ps: seq<RetiredPlugin>, dry: bool) returns (rows: seq<Row>)
      requires Faithful(env.codec)
      modifies this
      ensures Result(files, rows) == RunSteps(UnplugSteps(ps), old(files), env, dry)
    {
      hide *;
      ghost var goal := RunSteps(UnplugSteps(ps), files, env, dry);
      rows := [];
      var i := 0;
      assert ps[0..] == ps;
      OnwardStart(UnplugSteps(ps), files, env, dry);
      while i < |ps|
        invariant 0 <= i <= |ps|
        invariant Onward(Result(files, rows), UnplugSteps(ps[i..]), env, dry) == goal
      {
        ghost var before := Result(files, rows);
        ghost var step := Unplug(ps[i]);
        UnplugNext(ps, i);
        OwnApplies(step, files, env, dry);
        var more := ApplyRetiredPlugin(ps[i], dry);
        NowIs(more);
        OnwardOne(before, step, UnplugSteps(ps[i + 1..]), Result(files, more), env, dry);
        rows := rows + more;
        i := i + 1;
      }
      assert ps[i..] == [];
      NoStepsLeft();
      OnwardDone(Result(files, rows), env, dry);
    }

    method DeleteRetiredHelpers(hs: seq<RetiredHelper>, dry: bool) returns (rows: seq<Row>)
      modifies this
      ensures Result(files, rows) == RunSteps(UnownSteps(hs), old(files), env, dry)
    {
      hide *;
      ghost var goal := RunSteps(UnownSteps(hs), files, env, dry);
      rows := [];
      var i := 0;
      assert hs[0..] == hs;
      OnwardStart(UnownSteps(hs), files, env, dry);
      while i < |hs|
        invariant 0 <= i <= |hs|
        invariant Onward(Result(files, rows), UnownSteps(hs[i..]), env, dry) == goal
      {
        ghost var before := Result(files, rows);
        ghost var step := Unown(hs[i].name, hs[i].path);
        UnownNext(hs, i);
        OwnApplies(step, files, env, dry);
        var more := DeleteRetiredHelper(hs[i].name, hs[i].path, dry);
        NowIs(more);
        OnwardOne(before, step, UnownSteps(hs[i + 1..]), Result(files, more), env, dry);
        rows := rows + more;
        i := i + 1;
      }
      assert hs[i..] == [];
      NoStepsLeft();
      OnwardDone(Result(files, rows), env, dry);
    }

    /** `applyRetired`. */
    method ApplyRetired(items: RetiredItems, dry: bool) returns (rows: seq<Row>)
      requires Faithful(env.codec)
      modifies this
      ensures Result(files, rows) == RunSteps(RetiredSteps(items), old(files), env, dry)
    {
      hide RunSteps, UnmarkSteps, UnplugSteps, UnownSteps, Faithful;
      ghost var start := files;
      ghost var a, b, d := UnmarkSteps(items.markers), UnplugSteps(items.plugins), UnownSteps(items.helpers);
      var markers := StripRetiredMarkers(items.markers, dry);
      RunSplit(a, b, start, env, dry);
      var plugins := RemoveRetiredPlugins(items.plugins, dry);
      RunSplit(a + b, d, start, env, dry);
      var helpers := DeleteRetiredHelpers(items.helpers, dry);
      rows := markers + plugins + helpers;
    }

    /** What the manifest still manages, as `collectRetired` gathers it. */
    method ActiveSurfaces(m: Manifest) returns (active: ActiveSet)
      ensures active == ActiveOf(m, env)
    {
      hide *;
      var markers: set<AbsPath>, helpers: set<AbsPath>, ids: set<string>, dirs: set<AbsPath> := {}, {}, {}, {};
      var i := 0;
      NothingActive(env);
      assert m.tools[..0] == [] && m.helpers[..0] == [];
      while i < |m.tools|
        invariant 0 <= i <= |m.tools|
        invariant markers == ActiveMarkers(m.tools[..i], env)
        invariant ids == ActiveIds(m.tools[..i])
        invariant dirs == ActiveDirs(m.tools[..i], env)
      {
        ActiveNext(m.tools, i, env);
        var t := m.tools[i];
        var p := Resolvable(t.heartbeatPath, env);
        if p.Some? { markers := markers + {env.canon(p.value)}; }
        if t.plugin.Some? {
          ids := ids + {t.plugin.value.id};
          var d := Resolvable(t.plugin.value.installPath, env);
          if d.Some? { dirs := dirs + {env.canon(d.value)}; }
        }
        i := i + 1;
      }
      assert m.tools[..i] == m.tools;
      i := 0;
      while i < |m.helpers|
        invariant 0 <= i <= |m.helpers|
        invariant helpers == ActiveHelpers(m.helpers[..i], env)
      {
        ActiveHelperNext(m.helpers, i, env);
        var p := Resolvable(m.helpers[i].dst, env);
        if p.Some? { helpers := helpers + {p.value}; }
        i := i + 1;
      }
      assert m.helpers[..i] == m.helpers;
      ActiveOfIs(m, env);
      active := ActiveSet(markers, helpers, ids, dirs);
    }

    /** `collectRetiredWhileDisabled` and the prune. */
    method PruneWhileDisabled(cached: Source, stubs: Stubs, dry: bool) returns (rows: seq<Row>)
      requires Faithful(env.codec)
      modifies this
      ensures Result(files, rows) == RunSteps(DisabledSteps(cached, stubs, env), old(files), env, dry)
    {
      hide RunSteps, RetiredSteps, Collected, Faithful;
      var items := CollectRetired([BUILTIN, cached], Context(env.home, env.canon, NOTHING_ACTIVE, stubs));
      rows := ApplyRetired(items, dry);
    }

    /** `tick`, with everything fetched. */
    method Tick(m: Manifest, f: Fetched, disabled: bool, cached: Source, dry: bool) returns (rows: seq<Row>)
      requires Faithful(env.codec)
      modifies this
      ensures Result(files, rows) ==
              var steps := if disabled && !dry then DisabledSteps(cached, m.stubs, env) else StepsOf(m, f, env);
              RunSteps(steps, old(files), env, dry)
    {
      hide RunSteps, HelperSteps, AllToolSteps, GateSteps, RetiredSteps, SkillKeys;
      hide ActiveOf, Collected, DisabledSteps, Faithful;
      if !dry && disabled {
        rows := PruneWhileDisabled(cached, m.stubs, dry);
        return;
      }
      ghost var start := files;
      ghost var a, b := HelperSteps(m.helpers, f, env), AllToolSteps(m.tools, m, f, env, {});
      ghost var c, d := GateSteps(m.gated, m, f, SkillKeys(m.tools, m, env)), RetiredSteps(RetiredOf(m, env));
      var helpers := ReconcileHelpers(m.helpers, f, dry);
      RunSplit(a, b, start, env, dry);
      var tools, skillOwners := ReconcileTools(m, f, dry);
      RunSplit(a + b, c, start, env, dry);
      var gated := ReconcileGatedTools(m, f, skillOwners.Keys, dry);
      RunSplit(a + b + c, d, start, env, dry);
      var active := ActiveSurfaces(m);
      var items := CollectRetired([BUILTIN, m.retired], Context(env.home, env.canon, active, m.stubs));
      var retired := ApplyRetired(items, dry);
      rows := helpers + tools + gated + retired;
    }

    // ---- uninstall ------------------------------------------------------------------------------------

    /** `removeOwnedFile`. */
    method RemoveOwnedFile(tool: string, kind: FileKind, path: AbsPath) returns (r: Taken)
      modifies this
      ensures Outcome(files, [r]) == DropFile(old(files), tool, kind, path, env)
    {
      var key := env.canon(path);
      if key !in files { return Taken(tool, kind, path, WasNothing); }
      if key in env.locked { return Taken(tool, kind, path, WasError); }
      files := files - {key};
      r := Taken(tool, kind, path, WasDeleted);
    }

    /** `stripMarkerFile`. */
    method StripMarkerFile(tool: string, path: AbsPath) returns (r: Taken)
      modifies this
      ensures Outcome(files, [r]) == StripFile(old(files), tool, path, env)
    {
      hide Blocks, Kept;
      var key := env.canon(path);
      r := Taken(tool, MarkerFile, path, WasNothing);
      if Refused(files, env, key) { return r.(action := WasError); }
      var content := Read(files, env, key);
      if content.None? { return; }
      var blocks := FindMarkers(content.value);
      if |blocks| == 0 { return; }
      if key in env.locked { return r.(action := WasError); }
      var file := new UserFile(content);
      var stripped := file.StripMarkerFile();
      files := files[key := file.content.value];
      r := r.(action := WasStripped);
    }

    /** `removePluginAllowListEntry`. */
    method RemovePluginEntry(id: string, e: ConfigEntry) returns (r: Taken)
      requires Faithful(env.codec)
      modifies this
      ensures Outcome(files, [r]) == DistrustPlugin(old(files), id, e, env)
    {
      hide Withdraw, CleanBackup, ConfigFile.Distrusted, Json.Removed, Faithful, BackupPath;
      var before := Pair(files, e, env);
      var config := new ConfigFiles(before.live, before.bak);
      var removal := config.RemovePluginEntry(env.codec, e.at, RemovalTroubles(files, e, env));
      files := Uninstall.Store(files, env.canon(BackupPath(e.path)), config.bak);
      files := Uninstall.Store(files, env.canon(e.path), config.live);
      r := Taken(id, PluginAllowList, e.path, KindOf(removal));
    }

    /** `removeGatedTool`. */
    method RemoveGatedTool(gt: GatedTool, entrypoint: string) returns (rs: seq<Taken>)
      modifies this
      ensures Outcome(files, rs) == UngateTool(old(files), gt, entrypoint, env)
    {
      hide MarkerPath, ReadMarker, ResolveTarget, Attests, LinkOnWay;
      var r := Taken(gt.name, SkillFile, [], WasError);
      var marker := MarkerPath(gt, env.home);
      if marker.None? { return [r.(named := gt.requireMarker)]; }
      var declared := ReadGatedMarker(marker.value);
      if declared.None? { return []; }
      var target := ResolveTarget(gt, entrypoint, env.home);
      if target.None? { return [r.(named := gt.skillsDir)]; }
      if !Attests(declared.value, gt, env) { return []; }
      TargetStrictlyInside(gt, entrypoint, env.home);
      var t := target.value;
      r := r.(path := t.path);
      var key := env.canon(t.path);
      if t.root !in env.dirs { return [r.(action := WasNothing)]; }
      if LinkOnWay(env, t.root, t.path) || t.path in env.dirs { return [r]; }
      if key !in files { return [r.(action := WasNothing)]; }
      if key in env.locked { return [r]; }
      files := files - {key};
      rs := [r.(action := WasDeleted)];
    }

    method UninstallHelpers(hs: seq<Helper>) returns (rs: seq<Taken>)
      modifies this
      ensures Outcome(files, rs) == TakeAll(HelperUndos(hs, env), old(files), env)
    {
      hide *;
      ghost var goal := TakeAll(HelperUndos(hs, env), files, env);
      rs := [];
      var i := 0;
      assert hs[0..] == hs;
      AwayStart(HelperUndos(hs, env), files, env);
      while i < |hs|
        invariant 0 <= i <= |hs|
        invariant Away(Outcome(files, rs), HelperUndos(hs[i..], env), env) == goal
      {
        ghost var before := Outcome(files, rs);
        ghost var undo := Drop(hs[i].name, HelperFile, PlaceOf(hs[i].dst, env));
        HelperUndoNext(hs, i, env);
        Takes(undo, files, env);
        var r := RemoveOwnedFile(hs[i].name, HelperFile, PlaceOf(hs[i].dst, env));
        AwayOne(before, undo, HelperUndos(hs[i + 1..], env), Outcome(files, [r]), env);
        rs := rs + [r];
        i := i + 1;
      }
      assert hs[i..] == [];
      NoFileUndos(env, "", env.home);
      AwayDone(Outcome(files, rs), env);
    }

    method UninstallPluginFile(id: string, dir: AbsPath, pf: SourceFile) returns (r: Taken)
      modifies this
      ensures Outcome(files, [r]) == Take(PluginFileUndo(id, dir, pf), old(files), env)
    {
      hide PathWithin, Join;
      var dst := Join(dir, pf.name);
      if !PathWithin(dir, dst) { return Taken(id, PluginFile, dst, WasError); }
      r := RemoveOwnedFile(id, PluginFile, dst);
    }

    method UninstallPluginFiles(id: string, dir: AbsPath, pfs: seq<SourceFile>) returns (rs: seq<Taken>)
      modifies this
      ensures Outcome(files, rs) == TakeAll(PluginFileUndos(id, dir, pfs), old(files), env)
    {
      hide *;
      ghost var goal := TakeAll(PluginFileUndos(id, dir, pfs), files, env);
      rs := [];
      var i := 0;
      assert pfs[0..] == pfs;
      AwayStart(PluginFileUndos(id, dir, pfs), files, env);
      while i < |pfs|
        invariant 0 <= i <= |pfs|
        invariant Away(Outcome(files, rs), PluginFileUndos(id, dir, pfs[i..]), env) == goal
      {
        ghost var before := Outcome(files, rs);
        PluginFileUndoNext(id, dir, pfs, i);
        var r := UninstallPluginFile(id, dir, pfs[i]);
        AwayOne(before, PluginFileUndo(id, dir, pfs[i]), PluginFileUndos(id, dir, pfs[i + 1..]), Outcome(files, [r]),
            env);
        rs := rs + [r];
        i := i + 1;
      }
      assert pfs[i..] == [];
      NoFileUndos(env, id, dir);
      AwayDone(Outcome(files, rs), env);
    }

    method UninstallPlugin(plugin: Option<Plugin>) returns (rs: seq<Taken>)
      requires Faithful(env.codec)
      modifies this
      ensures Outcome(files, rs) == TakeAll(PluginUndos(plugin, env), old(files), env)
    {
      hide TakeAll, PluginFileUndos, Take, PlaceOf, EntryFor, Faithful, DistrustPlugin;
      if plugin.None? {
        NothingToTake(files, env);
        return [];
      }
      var p := plugin.value;
      ghost var fileUndos := PluginFileUndos(p.id, PlaceOf(p.installPath, env), p.files);
      ghost var start := files;
      rs := UninstallPluginFiles(p.id, PlaceOf(p.installPath, env), p.files);
      if p.allowList.Some? {
        ghost var undo := Distrust(p.id, EntryFor(p, env));
        TakeSplit(fileUndos, [undo], start, env);
        TakeOne(undo, files, env);
        Takes(undo, files, env);
        var r := RemovePluginEntry(p.id, EntryFor(p, env));
        rs := rs + [r];
      } else {
        assert fileUndos + [] == fileUndos;
      }
    }

    method UninstallTool(t: Tool, m: Manifest) returns (rs: seq<Taken>)
      requires Faithful(env.codec)
      modifies this
      ensures Outcome(files, rs) == TakeAll(ToolUndos(t, m, env), old(files), env)
    {
      hide TakeAll, PluginUndos, Take, PlaceOf, SkillPathOf, Faithful, DropFile, StripFile;
      ghost var start := files;
      ghost var drop := Drop(t.name, SkillFile, SkillPathOf(t, m, env));
      ghost var strip := if t.heartbeatPath == "" then [] else [Unblock(t.name, PlaceOf(t.heartbeatPath, env))];
      ghost var rest := PluginUndos(t.plugin, env);
      Takes(drop, start, env);
      TakeOne(drop, start, env);
      TakeSplit([drop], strip + rest, start, env);
      var skill := RemoveOwnedFile(t.name, SkillFile, SkillPathOf(t, m, env));
      TakeSplit(strip, rest, files, env);
      rs := [skill];
      if t.heartbeatPath != "" {
        Takes(strip[0], files, env);
        TakeOne(strip[0], files, env);
        var r := StripMarkerFile(t.name, PlaceOf(t.heartbeatPath, env));
        rs := [skill, r];
      } else {
        NothingToTake(files, env);
      }
      var plugin := UninstallPlugin(t.plugin);
      rs := rs + plugin;
    }

    method UninstallTools(ts: seq<Tool>, m: Manifest) returns (rs: seq<Taken>)
      requires Faithful(env.codec)
      modifies this
      ensures Outcome(files, rs) == TakeAll(AllToolUndos(ts, m, env), old(files), env)
    {
      hide *;
      ghost var goal := TakeAll(AllToolUndos(ts, m, env), files, env);
      rs := [];
      var i := 0;
      assert ts[0..] == ts;
      AwayStart(AllToolUndos(ts, m, env), files, env);
      while i < |ts|
        invariant 0 <= i <= |ts|
        invariant Away(Outcome(files, rs), AllToolUndos(ts[i..], m, env), env) == goal
      {
        ghost var before := Outcome(files, rs);
        ToolUndoNext(ts, i, m, env);
        var more := UninstallTool(ts[i], m);
        AwayPast(before, ToolUndos(ts[i], m, env), AllToolUndos(ts[i + 1..], m, env), Outcome(files, more), env);
        rs := rs + more;
        i := i + 1;
      }
      assert ts[i..] == [];
      NoToolUndosLeft(m, env);
      AwayDone(Outcome(files, rs), env);
    }

    method UninstallGatedTools(m: Manifest) returns (rs: seq<Taken>)
      modifies this
      ensures Outcome(files, rs) == TakeAll(GateUndos(m.gated, m), old(files), env)
    {
      hide *;
      var gts := m.gated;
      ghost var goal := TakeAll(GateUndos(gts, m), files, env);
      rs := [];
      var i := 0;
      assert gts[0..] == gts;
      AwayStart(GateUndos(gts, m), files, env);
      while i < |gts|
        invariant 0 <= i <= |gts|
        invariant Away(Outcome(files, rs), GateUndos(gts[i..], m), env) == goal
      {
        ghost var before := Outcome(files, rs);
        GateUndoNext(gts, i, m);
        Takes(Ungate(gts[i], m.entrypoint), files, env);
        var more := RemoveGatedTool(gts[i], m.entrypoint);
        AwayOne(before, Ungate(gts[i], m.entrypoint), GateUndos(gts[i + 1..], m), Outcome(files, more), env);
        rs := rs + more;
        i := i + 1;
      }
      assert gts[i..] == [];
      NoToolUndosLeft(m, env);
      AwayDone(Outcome(files, rs), env);
    }

    method ReportRetired(rows: seq<Row>) returns (rs: seq<Taken>)
      ensures rs == Reported(rows)
    {
      rs := [];
      var i := 0;
      assert rows[0..] == rows;
      while i < |rows|
        invariant 0 <= i <= |rows|
        invariant rs + Reported(rows[i..]) == Reported(rows)
      {
        assert rows[i..][1..] == rows[i + 1..];
        rs := rs + [TakenOf(rows[i])];
        i := i + 1;
      }
    }

    /** `Uninstall`, with the manifest loaded. */
    method UninstallAll(m: Manifest) returns (rs: seq<Taken>)
      requires Faithful(env.codec)
      modifies this
      ensures files == AfterUninstall(m, old(files), env)
      ensures var taken := TakeAll(UndosOf(m, env), old(files), env);
              rs == taken.removals + Reported(RunSteps(RetiredSteps(RetiredOf(m, env)), taken.files, env, false).rows)
    {
      hide RunSteps, TakeAll, HelperUndos, AllToolUndos, GateUndos, RetiredSteps;
      hide ActiveOf, Collected, Faithful, Reported;
      ghost var start := files;
      ghost var a, b, c := HelperUndos(m.helpers, env), AllToolUndos(m.tools, m, env), GateUndos(m.gated, m);
      var helpers := UninstallHelpers(m.helpers);
      TakeSplit(a, b, start, env);
      var tools := UninstallTools(m.tools, m);
      TakeSplit(a + b, c, start, env);
      var gated := UninstallGatedTools(m);
      var active := ActiveSurfaces(m);
      var items := CollectRetired([BUILTIN, m.retired], Context(env.home, env.canon, active, m.stubs));
      var rows := ApplyRetired(items, false);
      var retired := ReportRetired(rows);
      rs := helpers + tools + gated + retired;
    }
  }

  lemma NothingLeft(f: Fetched, env: Env, id: string, dir: AbsPath)
    ensures HelperSteps([], f, env) == [] && PluginFileSteps(id, dir, [], f) == []
  {
  }

  lemma NoStepsLeft()
    ensures UnmarkSteps([]) == [] && UnplugSteps([]) == [] && UnownSteps([]) == []
  {
  }

  lemma NoToolsLeft(m: Manifest, f: Fetched, env: Env, owned: set<AbsPath>, taken: set<AbsPath>)
    ensures AllToolSteps([], m, f, env, owned) == [] && SkillKeys([], m, env) == {} && GateSteps([], m, f, taken) == []
  {
  }

  lemma NoFileUndos(env: Env, id: string, dir: AbsPath)
    ensures HelperUndos([], env) == [] && PluginFileUndos(id, dir, []) == []
  {
  }

  lemma NoToolUndosLeft(m: Manifest, env: Env)
    ensures AllToolUndos([], m, env) == [] && GateUndos([], m) == []
  {
  }

  lemma NoFilesLeft(files: Files, listed: seq<AbsPath>, env: Env)
    requires listed == []
    ensures Present(files, env, listed) == []
  {
  }

  lemma NoneDeleted(files: Files, present: seq<AbsPath>, id: string, env: Env, dry: bool)
    requires present == []
    ensures Deleted(files, present, id, env, dry) == Result(files, [])
  {
  }

  lemma NoneNeutralized(files: Files, present: seq<AbsPath>, rp: RetiredPlugin, env: Env, dry: bool)
    requires present == []
    ensures Neutralized(files, present, rp, env, dry) == Result(files, [])
  {
  }

  lemma NothingToRun(files: Files, env: Env, dry: bool)
    ensures RunSteps([], files, env, dry) == Result(files, [])
  {
  }

  lemma NextIsThere(live: Option<string>, c: Codec, at: Place)
    ensures Mergeable(live, c, at) ==> Next(live, c, at).Some? && Passes(Next(live, c, at).value, live, c, at)
    ensures NeedsBackup(live, c, at) ==> live.Some?
  {
    hide Passes;
  }

  // ---- going on with an uninstall ---------------------------------------------------------------

  ghost function Away(r: Outcome, rest: seq<Undo>, env: Env): Outcome {
    var y := TakeAll(rest, r.files, env);
    Outcome(y.files, r.removals + y.removals)
  }

  lemma AwayStart(us: seq<Undo>, files: Files, env: Env)
    ensures Away(Outcome(files, []), us, env) == TakeAll(us, files, env)
  {
    assert [] + TakeAll(us, files, env).removals == TakeAll(us, files, env).removals;
  }

  lemma AwayDone(r: Outcome, env: Env)
    ensures Away(r, [], env) == r
  {
    assert r.removals + [] == r.removals;
  }

  lemma AwayPast(r: Outcome, a: seq<Undo>, b: seq<Undo>, mid: Outcome, env: Env)
    requires mid == TakeAll(a, r.files, env)
    ensures Away(r, a + b, env) == Away(Outcome(mid.files, r.removals + mid.removals), b, env)
  {
    TakeSplit(a, b, r.files, env);
    hide TakeAll;
    var y := TakeAll(b, mid.files, env);
    assert r.removals + (mid.removals + y.removals) == (r.removals + mid.removals) + y.removals;
  }

  lemma AwayOne(r: Outcome, u: Undo, b: seq<Undo>, mid: Outcome, env: Env)
    requires mid == Take(u, r.files, env)
    ensures Away(r, [u] + b, env) == Away(Outcome(mid.files, r.removals + mid.removals), b, env)
  {
    hide *;
    TakeOne(u, r.files, env);
    AwayPast(r, [u], b, mid, env);
  }

  lemma Takes(u: Undo, files: Files, env: Env)
    ensures u.Drop? ==> Take(u, files, env) == DropFile(files, u.tool, u.kind, u.path, env)
    ensures u.Unblock? ==> Take(u, files, env) == StripFile(files, u.tool, u.path, env)
    ensures u.Distrust? ==> Take(u, files, env) == DistrustPlugin(files, u.id, u.entry, env)
    ensures u.Ungate? ==> Take(u, files, env) == UngateTool(files, u.gt, u.entrypoint, env)
  {
    hide DropFile, StripFile, DistrustPlugin, UngateTool;
  }

  lemma NothingToTake(files: Files, env: Env)
    ensures TakeAll([], files, env) == Outcome(files, [])
  {
  }

  lemma HelperUndoNext(hs: seq<Helper>, i: nat, env: Env)
    requires i < |hs|
    ensures HelperUndos(hs[i..], env) ==
              [Drop(hs[i].name, HelperFile, PlaceOf(hs[i].dst, env))] + HelperUndos(hs[i + 1..], env)
  {
    hide PlaceOf;
    assert hs[i..][1..] == hs[i + 1..];
  }

  lemma PluginFileUndoNext(id: string, dir: AbsPath, pfs: seq<SourceFile>, i: nat)
    requires i < |pfs|
    ensures PluginFileUndos(id, dir, pfs[i..]) ==
              [PluginFileUndo(id, dir, pfs[i])] + PluginFileUndos(id, dir, pfs[i + 1..])
  {
    hide PluginFileUndo;
    assert pfs[i..][1..] == pfs[i + 1..];
  }

  lemma ToolUndoNext(ts: seq<Tool>, i: nat, m: Manifest, env: Env)
    requires i < |ts|
    ensures AllToolUndos(ts[i..], m, env) == ToolUndos(ts[i], m, env) + AllToolUndos(ts[i + 1..], m, env)
  {
    hide ToolUndos;
    assert ts[i..][1..] == ts[i + 1..];
  }

  lemma GateUndoNext(gts: seq<GatedTool>, i: nat, m: Manifest)
    requires i < |gts|
    ensures GateUndos(gts[i..], m) == [Ungate(gts[i], m.entrypoint)] + GateUndos(gts[i + 1..], m)
  {
    assert gts[i..][1..] == gts[i + 1..];
  }

  // ---- what is active, one entry at a time ----------------------------------------------------------

  lemma NothingActive(env: Env)
    ensures ActiveMarkers([], env) == {} && ActiveIds([]) == {} && ActiveDirs([], env) == {} &&
              ActiveHelpers([], env) == {}
  {
  }

  lemma ActiveNext(ts: seq<Tool>, i: nat, env: Env)
    requires i < |ts|
    ensures var p := Resolvable(ts[i].heartbeatPath, env);
            ActiveMarkers(ts[..i + 1], env) ==
              ActiveMarkers(ts[..i], env) + (if p.Some? then {env.canon(p.value)} else {})
    ensures ActiveIds(ts[..i + 1]) == ActiveIds(ts[..i]) + (if ts[i].plugin.Some? then {ts[i].plugin.value.id} else {})
    ensures ActiveDirs(ts[..i + 1], env) ==
            ActiveDirs(ts[..i], env) +
            (if ts[i].plugin.Some? && Resolvable(ts[i].plugin.value.installPath, env).Some?
             then {env.canon(Resolvable(ts[i].plugin.value.installPath, env).value)} else {})
  {
    hide Resolvable;
    assert ts[..i + 1] == ts[..i] + [ts[i]];
  }

  lemma ActiveHelperNext(hs: seq<Helper>, i: nat, env: Env)
    requires i < |hs|
    ensures var p := Resolvable(hs[i].dst, env);
            ActiveHelpers(hs[..i + 1], env) == ActiveHelpers(hs[..i], env) + (if p.Some? then {p.value} else {})
  {
    hide Resolvable;
    assert hs[..i + 1] == hs[..i] + [hs[i]];
  }

  lemma ActiveOfIs(m: Manifest, env: Env)
    ensures ActiveOf(m, env) ==
            ActiveSet(ActiveMarkers(m.tools, env), ActiveHelpers(m.helpers, env), ActiveIds(m.tools),
                ActiveDirs(m.tools, env))
  {
    hide ActiveMarkers, ActiveHelpers, ActiveIds, ActiveDirs;
  }
}
