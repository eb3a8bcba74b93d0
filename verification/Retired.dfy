/**
 Retired plugins: the id leaves the tool's config before any file is deleted, a config that
 cannot be edited is never written, and the plugin is then replaced by a no-op, once
 (`applyRetiredPlugin`, `neutralizeRetiredPlugin`).
 */
module Retired {
  import opened Text
  import opened Json
  import opened AllowList
  import opened Paths
  import opened Outcomes
  import opened ConfigFile
  import opened World

  /** A config file and a plugin's place in it. */
  datatype ConfigEntry = ConfigEntry(path: AbsPath, at: Place)

  /** A resolved retired plugin; `stubs` maps base names to no-op contents. */
  datatype RetiredPlugin = RetiredPlugin(id: string, files: seq<AbsPath>, entry: Option<ConfigEntry>,
                                         stubs: map<string, string>)

  function LastName(p: AbsPath): string {
    if p == [] then "/" else p[|p| - 1]
  }

  function StubFor(rp: RetiredPlugin, f: AbsPath): Option<string> {
    if LastName(f) in rp.stubs then Some(rp.stubs[LastName(f)]) else None
  }

  /** The listed files that are on disk. */
  function Present(files: Files, env: Env, listed: seq<AbsPath>): seq<AbsPath> {
    if listed == [] then []
    else (if env.canon(listed[0]) in files then [listed[0]] else []) + Present(files, env, listed[1..])
  }

  /** Deletes the files one by one; a locked one is an error row and stays. */
  function Deleted(files: Files, present: seq<AbsPath>, id: string, env: Env, dry: bool): Result
    decreases |present|
  {
    if present == [] then Result(files, [])
    else
      var key := env.canon(present[0]);
      var fails := !dry && key in env.locked && key in files;
      var rest := Deleted(if dry || fails then files else files - {key}, present[1..], id, env, dry);
      Result(rest.files, [Row(id, PluginFile, present[0], State.Retired, if fails then Error else Remove)] + rest.rows)
  }

  /** Overwrites each file that has a stub and does not hold it yet. */
  function Neutralized(files: Files, present: seq<AbsPath>, rp: RetiredPlugin, env: Env, dry: bool): Result
    decreases |present|
  {
    if present == [] then Result(files, [])
    else
      var f := present[0];
      var key := env.canon(f);
      var stub := StubFor(rp, f);
      if stub.None? || Read(files, env, key) == stub then Neutralized(files, present[1..], rp, env, dry)
      else
        var fails := !dry && key in env.locked;
        var rest := Neutralized(if dry || fails then files else files[key := stub.value], present[1..], rp, env, dry);
        Result(rest.files, [Row(rp.id, PluginFile, f, State.Retired, if fails then Error else Rewrite)] + rest.rows)
  }

  datatype Listing = Unknown | Clear | IsListed

  /** `pluginInConfig`. */
  function InConfig(files: Files, e: ConfigEntry, env: Env): Listing {
    var key := env.canon(e.path);
    if key !in files then Clear
    else if key in env.unreadable then Unknown
    else match env.codec.parse(files[key])
      case None => Unknown
      case Some(o) => if Listed(o, e.at) then IsListed else Clear
  }

  /** The config without the plugin. */
  function Dropped(files: Files, e: ConfigEntry, env: Env): Option<string> {
    var key := env.canon(e.path);
    if key !in files || key in env.unreadable || key in env.locked then None
    else match env.codec.parse(files[key])
      case None => None
      case Some(o) => Some(env.codec.print_(Removed(o, e.at.allow, e.at.entries, e.at.id)))
  }

  /** `applyRetiredPlugin`. */
  function Applied(files: Files, rp: RetiredPlugin, env: Env, dry: bool): Result {
    var present := Present(files, env, rp.files);
    match rp.entry
    case None => Deleted(files, present, rp.id, env, dry)
    case Some(e) =>
      var config := Row(rp.id, PluginAllowList, e.path, State.Retired, Remove);
      match InConfig(files, e, env)
      case Unknown =>
        if present == [] then Result(files, [])
        else if rp.stubs != map[] then Neutralized(files, present, rp, env, dry)
        else Result(files, [config.(action := Error)])
      case Clear => Deleted(files, present, rp.id, env, dry)
      case IsListed =>
        if dry then
          var r := Deleted(files, present, rp.id, env, dry);
          Result(r.files, [config] + r.rows)
        else
          var next := Dropped(files, e, env);
          if next.None? then Result(files, [config.(action := Error)])
          else
            var r := Deleted(files[env.canon(e.path) := next.value], present, rp.id, env, dry);
            Result(r.files, [config] + r.rows)
  }

  // ---- frames ------------------------------------------------------------------------------

  ghost function Keys(listed: seq<AbsPath>, env: Env): set<AbsPath> {
    set f | f in listed :: env.canon(f)
  }

  lemma {:induction false} PresentIsListed(files: Files, env: Env, listed: seq<AbsPath>)
    ensures forall f :: f in Present(files, env, listed) <==> f in listed && env.canon(f) in files
  {
    if listed != [] { PresentIsListed(files, env, listed[1..]); }
  }

  lemma {:induction false} DeletedFrame(files: Files, present: seq<AbsPath>, id: string, env: Env, dry: bool)
    ensures var r := Deleted(files, present, id, env, dry);
            && (forall k :: k in r.files <==> k in files && (dry || k in env.locked || k !in Keys(present, env)))
            && (forall k :: k in r.files ==> r.files[k] == files[k])
    decreases |present|
  {
    if present != [] {
      var key := env.canon(present[0]);
      var fails := !dry && key in env.locked && key in files;
      var next := if dry || fails then files else files - {key};
      DeletedFrame(next, present[1..], id, env, dry);
      assert forall k :: k in Keys(present, env) <==> k == key || k in Keys(present[1..], env);
    }
  }

  lemma {:induction false} NeutralizedFrame(files: Files, present: seq<AbsPath>, rp: RetiredPlugin, env: Env, dry: bool)
    ensures var r := Neutralized(files, present, rp, env, dry);
            && files.Keys <= r.files.Keys
            && AgreeOff(files, r.files, Keys(present, env))
    decreases |present|
  {
    if present != [] {
      var key := env.canon(present[0]);
      var stub := StubFor(rp, present[0]);
      assert forall k :: k in Keys(present, env) <==> k == key || k in Keys(present[1..], env);
      NeutralizedFrame(files, present[1..], rp, env, dry);
      if stub.Some? { NeutralizedFrame(files[key := stub.value], present[1..], rp, env, dry); }
    }
  }

  // ---- safety of one step --------------------------------------------------------------------

  /** The config is none of the plugin's own files. */
  ghost predicate Apart(rp: RetiredPlugin, env: Env) {
    rp.entry.Some? ==> env.canon(rp.entry.value.path) !in Keys(rp.files, env)
  }

  /** After a drop the id is listed nowhere. */
  lemma DroppedIsClear(files: Files, e: ConfigEntry, env: Env)
    requires Faithful(env.codec) && Dropped(files, e, env).Some?
    ensures InConfig(files[env.canon(e.path) := Dropped(files, e, env).value], e, env) == Clear
  {
    var o := env.codec.parse(files[env.canon(e.path)]).value;
    RemovalDistrusts(o, e.at.allow, e.at.entries, e.at.id);
    hide Removed, Allows, HasEntry, Enables;
    assert env.codec.parse(env.codec.print_(Removed(o, e.at.allow, e.at.entries, e.at.id))).Some?;
  }

  lemma PresentKeys(files: Files, rp: RetiredPlugin, env: Env)
    ensures Keys(Present(files, env, rp.files), env) <= Keys(rp.files, env)
  {
    PresentIsListed(files, env, rp.files);
  }

  /** What the config says depends on the config file alone. */
  lemma InConfigLocal(a: Files, b: Files, e: ConfigEntry, env: Env)
    requires AgreeOn(a, b, {env.canon(e.path)})
    ensures InConfig(a, e, env) == InConfig(b, e, env)
  {
  }

  /** The config survives deletions and stubs: it is none of the plugin's files. */
  lemma ConfigIsSpared(files: Files, rp: RetiredPlugin, env: Env, dry: bool)
    requires Apart(rp, env) && rp.entry.Some?
    ensures var key := env.canon(rp.entry.value.path);
            var present := Present(files, env, rp.files);
            && (forall start: Files :: AgreeOn(start, Deleted(start, present, rp.id, env, dry).files, {key}))
            && AgreeOn(files, Neutralized(files, present, rp, env, dry).files, {key})
            && files.Keys <= Neutralized(files, present, rp, env, dry).files.Keys
  {
    var present := Present(files, env, rp.files);
    PresentKeys(files, rp, env);
    NeutralizedFrame(files, present, rp, env, dry);
    forall start: Files
      ensures AgreeOn(start, Deleted(start, present, rp.id, env, dry).files, {env.canon(rp.entry.value.path)})
    {
      DeletedFrame(start, present, rp.id, env, dry);
    }
    hide Present, Keys, Deleted, Neutralized;
  }

  lemma ListedOutcome(files: Files, rp: RetiredPlugin, env: Env, dry: bool)
    requires Faithful(env.codec) && Apart(rp, env) && rp.entry.Some? && InConfig(files, rp.entry.value, env) == IsListed
    ensures var after := Applied(files, rp, env, dry).files;
            files.Keys <= after.Keys || InConfig(after, rp.entry.value, env) == Clear
  {
    var e := rp.entry.value;
    var present := Present(files, env, rp.files);
    ConfigIsSpared(files, rp, env, dry);
    if dry {
      DeletedFrame(files, present, rp.id, env, dry);
    } else if Dropped(files, e, env).Some? {
      var next := files[env.canon(e.path) := Dropped(files, e, env).value];
      DroppedIsClear(files, e, env);
      InConfigLocal(next, Deleted(next, present, rp.id, env, dry).files, e, env);
    }
    hide InConfig, Dropped, Present, Keys, Deleted;
  }

  /** Main result on one step: if a file of a plugin with an allow-list is gone afterwards, the
      config does not list its id then; and a config that cannot be parsed is never written. */
  lemma FilesGoOnlyWhenClear(files: Files, rp: RetiredPlugin, env: Env, dry: bool)
    requires Faithful(env.codec) && Apart(rp, env) && rp.entry.Some?
    ensures var e := rp.entry.value;
            var after := Applied(files, rp, env, dry).files;
            && ((exists k :: k in files && k !in after) ==> InConfig(after, e, env) == Clear)
            && (InConfig(files, e, env) == Unknown ==> AgreeOn(files, after, {env.canon(e.path)}))
  {
    var e := rp.entry.value;
    ConfigIsSpared(files, rp, env, dry);
    if InConfig(files, e, env) == IsListed {
      ListedOutcome(files, rp, env, dry);
    } else if InConfig(files, e, env) == Clear {
      InConfigLocal(files, Applied(files, rp, env, dry).files, e, env);
    }
    hide InConfig, Dropped, Present, Deleted, Neutralized;
  }

  // ---- once the config parses ----------------------------------------------------------------

  /** Main result on finishing: with a config that can be read, one failure-free step removes the
      id and every file, and the next step has nothing left to report. */
  lemma OneStepFinishes(files: Files, rp: RetiredPlugin, env: Env)
    requires Faithful(env.codec) && Apart(rp, env) && NoFailures(env)
    requires rp.entry.Some? ==> InConfig(files, rp.entry.value, env) != Unknown
    ensures var after := Applied(files, rp, env, false).files;
            && (rp.entry.Some? ==> InConfig(after, rp.entry.value, env) == Clear)
            && (forall k :: k in Keys(rp.files, env) ==> k !in after)
            && Applied(after, rp, env, false) == Result(after, [])
  {
    var present := Present(files, env, rp.files);
    var start := Cleared(files, rp, env);
    var after := Deleted(start, present, rp.id, env, false).files;
    PresentIsListed(files, env, rp.files);
    PresentKeys(files, rp, env);
    ClearedFirst(files, rp, env);
    DeletedFrame(start, present, rp.id, env, false);
    hide Cleared, Applied, InConfig, Deleted, Present;
    forall f | f in rp.files ensures env.canon(f) !in after {
      if env.canon(f) in files { assert f in present; }
    }
    if rp.entry.Some? { InConfigLocal(start, after, rp.entry.value, env); }
    NothingPresent(after, env, rp.files);
    NothingToApply(after, rp, env);
  }

  /** The files once the id is out of the config. */
  function Cleared(files: Files, rp: RetiredPlugin, env: Env): Files {
    if rp.entry.Some? && Dropped(files, rp.entry.value, env).Some? && InConfig(files, rp.entry.value, env) == IsListed
    then files[env.canon(rp.entry.value.path) := Dropped(files, rp.entry.value, env).value]
    else files
  }

  lemma ClearedFirst(files: Files, rp: RetiredPlugin, env: Env)
    requires Faithful(env.codec) && NoFailures(env)
    requires rp.entry.Some? ==> InConfig(files, rp.entry.value, env) != Unknown
    ensures var start := Cleared(files, rp, env);
            && (rp.entry.Some? ==> InConfig(start, rp.entry.value, env) == Clear)
            && Applied(files, rp, env, false).files ==
                 Deleted(start, Present(files, env, rp.files), rp.id, env, false).files
            && AgreeOff(files, start, if rp.entry.Some? then {env.canon(rp.entry.value.path)} else {})
  {
    if rp.entry.Some? {
      var e := rp.entry.value;
      if InConfig(files, e, env) == IsListed {
        ListedCanBeDropped(files, e, env);
        DroppedIsClear(files, e, env);
      }
    }
    hide InConfig, Dropped, Deleted, Present;
  }

  lemma ListedCanBeDropped(files: Files, e: ConfigEntry, env: Env)
    requires NoFailures(env) && InConfig(files, e, env) == IsListed
    ensures Dropped(files, e, env).Some?
  {
    hide Listed, Removed;
  }

  lemma NothingToApply(files: Files, rp: RetiredPlugin, env: Env)
    requires Present(files, env, rp.files) == [] && (rp.entry.Some? ==> InConfig(files, rp.entry.value, env) == Clear)
    ensures Applied(files, rp, env, false) == Result(files, [])
  {
    hide InConfig, Present;
  }

  lemma {:induction false} NothingPresent(files: Files, env: Env, listed: seq<AbsPath>)
    requires forall f :: f in listed ==> env.canon(f) !in files
    ensures Present(files, env, listed) == []
  {
    if listed != [] { NothingPresent(files, env, listed[1..]); }
  }

  // ---- neutralising is reported once ------------------------------------------------------------

  function Rewrites(rows: seq<Row>, f: AbsPath): nat {
    if rows == [] then 0 else (if rows[0].path == f && rows[0].action == Rewrite then 1 else 0) + Rewrites(rows[1..], f)
  }

  /** Paths to one file have the same stub, and the plugin's files can be read. */
  ghost predicate Steady(rp: RetiredPlugin, env: Env) {
    && (forall f, g :: f in rp.files && g in rp.files && env.canon(f) == env.canon(g) ==>
           StubFor(rp, f) == StubFor(rp, g))
    && Keys(rp.files, env) !! env.unreadable
  }

  ghost predicate HoldsStub(files: Files, rp: RetiredPlugin, f: AbsPath, env: Env) {
    StubFor(rp, f).Some? && env.canon(f) in files && files[env.canon(f)] == StubFor(rp, f).value
  }

  /** A file that holds its stub is left alone and not reported; another is reported at most once,
      and holds its stub from then on. */
  lemma {:induction false} NeutralizedOnce(files: Files, present: seq<AbsPath>, rp: RetiredPlugin, env: Env, f: AbsPath)
    requires Steady(rp, env) && f in rp.files && forall g :: g in present ==> g in rp.files
    ensures var r := Neutralized(files, present, rp, env, false);
            && Rewrites(r.rows, f) <= 1
            && (HoldsStub(files, rp, f, env) ==> Rewrites(r.rows, f) == 0)
            && (HoldsStub(files, rp, f, env) || Rewrites(r.rows, f) == 1 ==> HoldsStub(r.files, rp, f, env))
    decreases |present|
  {
    if present != [] {
      var g := present[0];
      var key := env.canon(g);
      var stub := StubFor(rp, g);
      assert g in present && key in Keys(rp.files, env);
      forall h | h in present[1..] ensures h in rp.files { assert h in present; }
      if stub.None? || Read(files, env, key) == stub || key in env.locked {
        NeutralizedOnce(files, present[1..], rp, env, f);
      } else {
        NeutralizedOnce(files[key := stub.value], present[1..], rp, env, f);
      }
    }
  }

  /** One tick of a run: the user leaves this text in the config, and these files fail. */
  datatype Turn = Turn(config: string, unreadable: set<AbsPath>, locked: set<AbsPath>)

  function TurnEnv(env: Env, t: Turn): Env {
    env.(unreadable := t.unreadable, locked := t.locked)
  }

  function Edited(files: Files, rp: RetiredPlugin, env: Env, t: Turn): Files
    requires rp.entry.Some?
  {
    files[env.canon(rp.entry.value.path) := t.config]
  }

  /** At every turn the config cannot be edited, and the plugin's files can be read. */
  ghost predicate Stuck(files: Files, rp: RetiredPlugin, env: Env, turns: seq<Turn>)
    requires rp.entry.Some?
  {
    forall k :: 0 <= k < |turns| ==>
      Steady(rp, TurnEnv(env, turns[k])) &&
      (env.canon(rp.entry.value.path) in turns[k].unreadable || env.codec.parse(turns[k].config).None?)
  }

  function RunRewrites(files: Files, rp: RetiredPlugin, env: Env, turns: seq<Turn>, f: AbsPath): nat
    requires rp.entry.Some?
    decreases |turns|
  {
    if turns == [] then 0
    else
      var r := Applied(Edited(files, rp, env, turns[0]), rp, TurnEnv(env, turns[0]), false);
      Rewrites(r.rows, f) + RunRewrites(r.files, rp, env, turns[1..], f)
  }

  lemma StuckStep(files: Files, rp: RetiredPlugin, env: Env, f: AbsPath)
    requires Steady(rp, env) && f in rp.files && rp.entry.Some? && InConfig(files, rp.entry.value, env) == Unknown
    ensures var r := Applied(files, rp, env, false);
            && Rewrites(r.rows, f) <= 1
            && (HoldsStub(files, rp, f, env) ==> Rewrites(r.rows, f) == 0)
            && (HoldsStub(files, rp, f, env) || Rewrites(r.rows, f) == 1 ==> HoldsStub(r.files, rp, f, env))
  {
    PresentIsListed(files, env, rp.files);
    NeutralizedOnce(files, Present(files, env, rp.files), rp, env, f);
    hide Neutralized, Present, InConfig, Steady, HoldsStub;
    assert Rewrites([], f) == 0;
    assert forall row: Row :: [row][1..] == [];
  }

  /** Main result on neutralising: over a whole run during which the config cannot be edited, each
      file of the plugin is reported as neutralised at most once. */
  lemma {:induction false} NeutralizedAtMostOnce(files: Files, rp: RetiredPlugin, env: Env, turns: seq<Turn>,
                                                 f: AbsPath)
    requires rp.entry.Some? && Apart(rp, env) && f in rp.files && Stuck(files, rp, env, turns)
    ensures RunRewrites(files, rp, env, turns, f) <= if HoldsStub(files, rp, f, env) then 0 else 1
    decreases |turns|
  {
    if turns != [] {
      var t := turns[0];
      var e := TurnEnv(env, t);
      var start := Edited(files, rp, env, t);
      assert InConfig(start, rp.entry.value, e) == Unknown;
      assert env.canon(f) in Keys(rp.files, env);
      assert HoldsStub(files, rp, f, env) ==> HoldsStub(start, rp, f, e);
      assert HoldsStub(start, rp, f, e) ==> HoldsStub(files, rp, f, env);
      StuckStep(start, rp, e, f);
      var r := Applied(start, rp, e, false);
      assert HoldsStub(r.files, rp, f, e) ==> HoldsStub(r.files, rp, f, env);
      hide Applied, Edited, Steady, HoldsStub, Keys;
      NeutralizedAtMostOnce(r.files, rp, env, turns[1..], f);
    }
  }
}
