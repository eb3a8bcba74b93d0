/**
 When no two steps of a tick fight over a heartbeat file: the first tool owns a shared one, and a
 retired one is an active one only through a relative path. What is left to ask of a manifest is
 that its other surfaces are apart.
 */
module Ownership {
  import opened Text
  import opened Render
  import opened Heartbeat
  import opened Paths
  import opened Outcomes
  import opened World
  import opened Retired
  import opened Gated
  import opened GatedRun
  import opened RetiredList
  import opened Steps
  import opened Frames
  import opened Preview
  import opened Settle
  import opened Ticks
  import opened Manifest
  import BlockScan

  predicate IsHeartbeat(s: Step) {
    s.Beat? || s.Unmark?
  }

  /** The heartbeat files of a list of steps, in order. */
  function HeartKeys(steps: seq<Step>, env: Env): seq<AbsPath> {
    if steps == [] then []
    else (if IsHeartbeat(steps[0]) then [env.canon(steps[0].path)] else []) + HeartKeys(steps[1..], env)
  }

  ghost predicate NoRepeat(s: seq<AbsPath>) {
    forall i, j :: 0 <= i < j < |s| ==> s[i] != s[j]
  }

  lemma {:induction false} HeartKeysConcat(a: seq<Step>, b: seq<Step>, env: Env)
    ensures HeartKeys(a + b, env) == HeartKeys(a, env) + HeartKeys(b, env)
  {
    if a == [] {
      assert a + b == b;
    } else {
      assert (a + b)[0] == a[0] && (a + b)[1..] == a[1..] + b;
      HeartKeysConcat(a[1..], b, env);
    }
  }

  lemma {:induction false} NoHearts(steps: seq<Step>, env: Env)
    requires forall s :: s in steps ==> !IsHeartbeat(s)
    ensures HeartKeys(steps, env) == []
  {
    if steps != [] {
      assert steps[0] in steps;
      NoHearts(steps[1..], env);
    }
  }

  lemma {:induction false} HeartKeyIn(steps: seq<Step>, k: nat, env: Env)
    requires k < |steps| && IsHeartbeat(steps[k])
    ensures env.canon(steps[k].path) in HeartKeys(steps, env)
  {
    if k > 0 { HeartKeyIn(steps[1..], k - 1, env); }
  }

  lemma NoRepeatConcat(a: seq<AbsPath>, b: seq<AbsPath>)
    requires NoRepeat(a) && NoRepeat(b) && forall x :: x in a ==> x !in b
    ensures NoRepeat(a + b)
  {
    forall i, j | 0 <= i < j < |a + b| ensures (a + b)[i] != (a + b)[j] {
      if i < |a| <= j { assert a[i] in a && b[j - |a|] in b; }
    }
  }

  lemma NoRepeatTail(a: AbsPath, b: seq<AbsPath>)
    requires NoRepeat([a] + b)
    ensures NoRepeat(b) && a !in b
  {
    forall i | 0 <= i < |b| ensures b[i] != a { assert ([a] + b)[0] == a && ([a] + b)[i + 1] == b[i]; }
    forall i, j | 0 <= i < j < |b| ensures b[i] != b[j] { assert ([a] + b)[i + 1] == b[i] && ([a] + b)[j + 1] == b[j]; }
  }

  /** Different heartbeat steps have different files, if no file repeats. */
  lemma {:induction false} HeartsApart(steps: seq<Step>, i: nat, j: nat, env: Env)
    requires NoRepeat(HeartKeys(steps, env)) && i < j < |steps| && IsHeartbeat(steps[i]) && IsHeartbeat(steps[j])
    ensures env.canon(steps[i].path) != env.canon(steps[j].path)
  {
    var rest := HeartKeys(steps[1..], env);
    assert [] + rest == rest;
    if i == 0 {
      HeartKeyIn(steps[1..], j - 1, env);
      NoRepeatTail(env.canon(steps[0].path), rest);
    } else {
      if IsHeartbeat(steps[0]) { NoRepeatTail(env.canon(steps[0].path), rest); }
      HeartsApart(steps[1..], i - 1, j - 1, env);
    }
  }

  // ---- the tools --------------------------------------------------------------------------------

  lemma {:induction false} HelperKinds(hs: seq<Helper>, f: Fetched, env: Env)
    ensures forall s :: s in HelperSteps(hs, f, env) ==> s.Say? || s.Own?
  {
    if hs != [] {
      hide PlaceOf;
      HelperKinds(hs[1..], f, env);
    }
  }

  lemma {:induction false} PluginFileKinds(id: string, dir: AbsPath, files: seq<SourceFile>, f: Fetched)
    ensures forall s :: s in PluginFileSteps(id, dir, files, f) ==> s.Say? || s.Own?
  {
    if files != [] {
      hide PathWithin, Join;
      PluginFileKinds(id, dir, files[1..], f);
    }
  }

  lemma PluginKinds(p: Option<Plugin>, f: Fetched, env: Env)
    ensures forall s :: s in PluginSteps(p, f, env) ==> s.Say? || s.Own? || s.Trust?
  {
    hide PlaceOf, EntryFor;
    if p.Some? { PluginFileKinds(p.value.id, PlaceOf(p.value.installPath, env), p.value.files, f); }
  }

  /** The file a tool gets to write its block into. */
  function Claims(t: Tool, m: Manifest, f: Fetched, env: Env, owned: set<AbsPath>): seq<AbsPath> {
    if Installed(t, env) && HasHeartbeat(t) && HeartbeatKey(t, env) !in owned && DirectiveOf(t, m, f, env).Some?
    then [HeartbeatKey(t, env)] else []
  }

  lemma ToolHearts(t: Tool, m: Manifest, f: Fetched, env: Env, owned: set<AbsPath>)
    ensures HeartKeys(ToolSteps(t, m, f, env, owned), env) == Claims(t, m, f, env, owned)
  {
    hide DirectiveOf, PlaceOf, SkillPathOf, PluginSteps;
    if Installed(t, env) {
      var own := [Own(t.name, SkillFile, SkillPathOf(t, m, env), f.skill)];
      NoHearts(own, env);
      if HasHeartbeat(t) {
        var beat := HeartbeatStep(t, m, f, env, owned);
        var rest := if GoesOn(t, m, f, env, owned) then PluginSteps(t.plugin, f, env) else [];
        PluginKinds(t.plugin, f, env);
        NoHearts(rest, env);
        HeartKeysConcat([beat], rest, env);
        HeartKeysConcat(own, [beat] + rest, env);
        assert [beat][1..] == [];
      } else {
        assert own + [] == own;
      }
    }
  }

  /** An installed tool with a heartbeat that can be rendered. */
  predicate Beats(t: Tool, m: Manifest, f: Fetched, env: Env) {
    Installed(t, env) && HasHeartbeat(t) && DirectiveOf(t, m, f, env).Some?
  }

  lemma ClaimIsOwned(t: Tool, m: Manifest, f: Fetched, env: Env, owned: set<AbsPath>)
    ensures forall k :: k in Claims(t, m, f, env, owned) <==>
              k !in owned && Beats(t, m, f, env) && k == HeartbeatKey(t, env)
    ensures forall k :: k in OwnedAfter(t, m, f, env, owned) <==> k in owned || k in Claims(t, m, f, env, owned)
    ensures NoRepeat(Claims(t, m, f, env, owned))
  {
    hide DirectiveOf, HeartbeatKey, Installed;
  }

  /** The tools write each heartbeat file once: one step for every file that some tool can beat in. */
  lemma {:induction false} ToolsHearts(ts: seq<Tool>, m: Manifest, f: Fetched, env: Env, owned: set<AbsPath>)
    ensures var keys := HeartKeys(AllToolSteps(ts, m, f, env, owned), env);
            && NoRepeat(keys)
            && forall k :: k in keys <==>
                 k !in owned && exists t :: t in ts && Beats(t, m, f, env) && k == HeartbeatKey(t, env)
    decreases |ts|
  {
    hide ToolSteps, OwnedAfter, Claims, HeartbeatKey, Beats;
    if ts != [] {
      var t := ts[0];
      var later := OwnedAfter(t, m, f, env, owned);
      var first := ToolSteps(t, m, f, env, owned);
      var rest := AllToolSteps(ts[1..], m, f, env, later);
      ToolHearts(t, m, f, env, owned);
      ClaimIsOwned(t, m, f, env, owned);
      ToolsHearts(ts[1..], m, f, env, later);
      HeartKeysConcat(first, rest, env);
      NoRepeatConcat(HeartKeys(first, env), HeartKeys(rest, env));
      assert ts == [t] + ts[1..];
    }
  }

  // ---- gated and retired ---------------------------------------------------------------------------

  lemma {:induction false} GateKinds(gts: seq<GatedTool>, m: Manifest, f: Fetched, taken: set<AbsPath>)
    ensures forall s :: s in GateSteps(gts, m, f, taken) ==> s.Gate?
  {
    hide FormatSkill;
    if gts != [] { GateKinds(gts[1..], m, f, taken); }
  }

  lemma {:induction false} UnplugKinds(ps: seq<RetiredPlugin>)
    ensures forall s :: s in UnplugSteps(ps) ==> s.Unplug?
  {
    if ps != [] { UnplugKinds(ps[1..]); }
  }

  lemma {:induction false} UnownKinds(hs: seq<RetiredHelper>)
    ensures forall s :: s in UnownSteps(hs) ==> s.Unown?
  {
    if hs != [] { UnownKinds(hs[1..]); }
  }

  lemma {:induction false} UnmarkHearts(ms: seq<RetiredMarker>, env: Env)
    ensures |HeartKeys(UnmarkSteps(ms), env)| == |ms|
    ensures forall k :: 0 <= k < |ms| ==> HeartKeys(UnmarkSteps(ms), env)[k] == env.canon(ms[k].path)
  {
    if ms != [] {
      UnmarkHearts(ms[1..], env);
      var s := Unmark(ms[0].tool, ms[0].path);
      assert ([s] + UnmarkSteps(ms[1..]))[1..] == UnmarkSteps(ms[1..]);
    }
  }

  lemma RetiredHearts(m: Manifest, env: Env)
    ensures var items := RetiredOf(m, env);
            var keys := HeartKeys(RetiredSteps(items), env);
            && keys == HeartKeys(UnmarkSteps(items.markers), env)
            && NoRepeat(keys)
            && forall k :: k in keys ==> k !in ActiveMarkers(m.tools, env)
  {
    var sources := [BUILTIN, m.retired];
    var c := ContextOf(m, env);
    var items := RetiredOf(m, env);
    hide *;
    RetiredStepsParts(items, env);
    UnmarkHearts(items.markers, env);
    RetiredOfIs(m, env);
    var keys := HeartKeys(UnmarkSteps(items.markers), env);
    forall i, j | 0 <= i < j < |keys| ensures keys[i] != keys[j] { MarkersAreRetired(sources, c, i, j); }
    forall k | 0 <= k < |keys| ensures keys[k] !in ActiveMarkers(m.tools, env) { MarkersAreRetired(sources, c, k, k); }
    NoRepeatIs(keys);
  }

  lemma NoRepeatIs(keys: seq<AbsPath>)
    ensures (forall i, j :: 0 <= i < j < |keys| ==> keys[i] != keys[j]) <==> NoRepeat(keys)
  {
  }

  lemma RetiredOfIs(m: Manifest, env: Env)
    ensures RetiredOf(m, env) == Collected([BUILTIN, m.retired], ContextOf(m, env))
    ensures ContextOf(m, env).active.markers == ActiveMarkers(m.tools, env)
    ensures ContextOf(m, env).active.ids == ActiveIds(m.tools)
    ensures ContextOf(m, env).canon == env.canon
  {
    hide Collected;
  }

  lemma RetiredStepsParts(items: RetiredItems, env: Env)
    ensures HeartKeys(RetiredSteps(items), env) == HeartKeys(UnmarkSteps(items.markers), env)
  {
    UnplugKinds(items.plugins);
    UnownKinds(items.helpers);
    NoHearts(UnplugSteps(items.plugins), env);
    NoHearts(UnownSteps(items.helpers), env);
    HeartKeysConcat(UnmarkSteps(items.markers), UnplugSteps(items.plugins), env);
    HeartKeysConcat(UnmarkSteps(items.markers) + UnplugSteps(items.plugins), UnownSteps(items.helpers), env);
  }

  // ---- the whole list -------------------------------------------------------------------------------

  /** A tool writes its heartbeat through a relative path, and a retired entry names that file. The
      collector of active heartbeats skips relative paths, so the file counts as retired. */
  predicate WritesRetired(t: Tool, e: MarkerEntry, m: Manifest, f: Fetched, env: Env) {
    && Beats(t, m, f, env) && Expand(t.heartbeatPath, env.home).None?
    && MarkerOf(e, ContextOf(m, env)).Some?
    && env.canon(MarkerOf(e, ContextOf(m, env)).value.path) == HeartbeatKey(t, env)
  }

  function RetiredEntries(m: Manifest): seq<MarkerEntry> {
    AllMarkers([BUILTIN, m.retired])
  }

  /** No heartbeat a tool writes through a relative path is a retired one. */
  ghost predicate NoneRetired(m: Manifest, f: Fetched, env: Env) {
    forall t, e :: t in m.tools && e in RetiredEntries(m) ==> !WritesRetired(t, e, m, f, env)
  }

  /** A tool that beats in a retired file does so through a relative path. */
  lemma RetiredBeatIsRelative(m: Manifest, t: Tool, f: Fetched, env: Env)
    requires t in m.tools && Beats(t, m, f, env) && HeartbeatKey(t, env) !in ActiveMarkers(m.tools, env)
    ensures Expand(t.heartbeatPath, env.home).None?
  {
    hide Expand, DirectiveOf;
  }

  /** The retired heartbeat files are those the entries name. */
  lemma RetiredKeys(m: Manifest, env: Env, key: AbsPath)
    ensures key in HeartKeys(RetiredSteps(RetiredOf(m, env)), env) <==>
              exists e :: e in RetiredEntries(m) && MarkerOf(e, ContextOf(m, env)).Some? &&
                env.canon(MarkerOf(e, ContextOf(m, env)).value.path) == key
  {
    var c := ContextOf(m, env);
    var items, es := RetiredOf(m, env), RetiredEntries(m);
    CollectedParts([BUILTIN, m.retired], c);
    RetiredOfIs(m, env);
    RetiredEntriesAre(m);
    hide *;
    RetiredStepsParts(items, env);
    UnmarkHearts(items.markers, env);
    var keys := HeartKeys(UnmarkSteps(items.markers), env);
    if key in keys {
      var k :| 0 <= k < |keys| && keys[k] == key;
      var i := PickedFrom(es, ToMarker(c), MarkerKey(c), {}, k);
      AsMarker(es[i], items.markers[k], c);
      assert es[i] in es;
    }
    if e :| e in es && MarkerOf(e, c).Some? && env.canon(MarkerOf(e, c).value.path) == key {
      var i :| 0 <= i < |es| && es[i] == e;
      AsMarker(e, MarkerOf(e, c).value, c);
      var k := EntryIsPicked(es, ToMarker(c), MarkerKey(c), {}, i);
      AsMarker(e, items.markers[k], c);
      assert keys[k] == key;
    }
  }

  lemma RetiredEntriesAre(m: Manifest)
    ensures RetiredEntries(m) == AllMarkers([BUILTIN, m.retired])
  {
    hide AllMarkers;
  }

  lemma StepsOfParts(m: Manifest, f: Fetched, env: Env)
    ensures HeartKeys(StepsOf(m, f, env), env) ==
            HeartKeys(AllToolSteps(m.tools, m, f, env, {}), env) + HeartKeys(RetiredSteps(RetiredOf(m, env)), env)
  {
    hide HelperSteps, AllToolSteps, GateSteps, RetiredSteps, RetiredOf, SkillKeys;
    var hs, ts := HelperSteps(m.helpers, f, env), AllToolSteps(m.tools, m, f, env, {});
    var gs, rs := GateSteps(m.gated, m, f, SkillKeys(m.tools, m, env)), RetiredSteps(RetiredOf(m, env));
    HelperKinds(m.helpers, f, env);
    GateKinds(m.gated, m, f, SkillKeys(m.tools, m, env));
    NoHearts(hs, env);
    NoHearts(gs, env);
    HeartKeysConcat(hs, ts, env);
    HeartKeysConcat(hs + ts, gs, env);
    HeartKeysConcat(hs + ts + gs, rs, env);
  }

  lemma NoRepeatSplit(a: seq<AbsPath>, b: seq<AbsPath>)
    requires NoRepeat(a) && NoRepeat(b)
    ensures NoRepeat(a + b) <==> forall x :: x in a ==> x !in b
  {
    if forall x :: x in a ==> x !in b { NoRepeatConcat(a, b); }
    if x :| x in a && x in b {
      var i :| 0 <= i < |a| && a[i] == x;
      var j :| 0 <= j < |b| && b[j] == x;
      assert (a + b)[i] == (a + b)[|a| + j];
    }
  }

  lemma NoneRetiredIs(m: Manifest, f: Fetched, env: Env)
    ensures NoneRetired(m, f, env) <==>
              forall t, e :: t in m.tools && e in RetiredEntries(m) ==> !WritesRetired(t, e, m, f, env)
  {
    hide WritesRetired, RetiredEntries;
  }

  lemma WritesRetiredIs(t: Tool, e: MarkerEntry, m: Manifest, f: Fetched, env: Env)
    ensures var gone := MarkerOf(e, ContextOf(m, env));
            WritesRetired(t, e, m, f, env) <==>
              Beats(t, m, f, env) && Expand(t.heartbeatPath, env.home).None? && gone.Some? &&
              env.canon(gone.value.path) == HeartbeatKey(t, env)
  {
    hide Beats, Expand, MarkerOf, ContextOf, HeartbeatKey;
  }

  /** Main result on ownership: however many tools share a heartbeat file, and whatever is retired,
      a tick touches each heartbeat file in one step only, if and only if no tool writes a retired
      heartbeat through a relative path. */
  lemma HeartbeatsAreOwned(m: Manifest, f: Fetched, env: Env)
    ensures NoRepeat(HeartKeys(StepsOf(m, f, env), env)) <==> NoneRetired(m, f, env)
  {
    hide *;
    StepsOfParts(m, f, env);
    RetiredHearts(m, env);
    ToolsHearts(m.tools, m, f, env, {});
    NoneRetiredIs(m, f, env);
    var keys := HeartKeys(AllToolSteps(m.tools, m, f, env, {}), env);
    var gone := HeartKeys(RetiredSteps(RetiredOf(m, env)), env);
    NoRepeatSplit(keys, gone);
    if k :| k in keys && k in gone {
      RetiredKeys(m, env, k);
      var t :| t in m.tools && Beats(t, m, f, env) && k == HeartbeatKey(t, env);
      var e :| e in RetiredEntries(m) && MarkerOf(e, ContextOf(m, env)).Some? &&
        env.canon(MarkerOf(e, ContextOf(m, env)).value.path) == k;
      RetiredBeatIsRelative(m, t, f, env);
      WritesRetiredIs(t, e, m, f, env);
    }
    if !NoneRetired(m, f, env) {
      var t, e :| t in m.tools && e in RetiredEntries(m) && WritesRetired(t, e, m, f, env);
      WritesRetiredIs(t, e, m, f, env);
      RetiredKeys(m, env, HeartbeatKey(t, env));
    }
  }

  // ---- a manifest that retires a heartbeat it still writes ----------------------------------------------

  /** A host where everything resolves to itself, with `/` as its only directory; started in `/w`. */
  function SmallHost(sha: string -> string, codec: ConfigFile.Codec): Env {
    Env([], ["w"], {[]}, {}, (p: AbsPath) => p, sha, codec, {}, {})
  }

  /** Every template renders to one letter, and there are no other files. */
  const SMALL_FETCH := Fetched("", (s: string) => None, (t: string, p: AbsPath) => Some("x"))

  const STRAY_TOOL := Tool("t", "/", "/s", false, "h", "t", None)

  const STRAY_ENTRY := MarkerEntry("t", "/w/h")

  /** One tool, whose heartbeat is the relative path `h`; `/w/h` is retired. */
  const STRAY_MANIFEST := Manifest("e", [], [STRAY_TOOL], [], Source([STRAY_ENTRY], [], []), map[])

  lemma SmallParts()
    ensures Parts("h") == ["h"] && Parts("/") == ["", ""] && Parts("/w/h") == ["", "w", "h"]
  {
    assert Parts("") == [""];
    hide Parts;
    LetterPart('h', "");
    SlashPart("");
    SlashPart("h");
    LetterPart('w', "/h");
    SlashPart("w/h");
    assert "h" == ['h'] + "" && "/" == "/" + "" && "/h" == "/" + "h" && "w/h" == ['w'] + "/h" && "/w/h" == "/" + "w/h";
    assert Parts("/h") == ["", "h"];
    assert ["", "h"][1..] == ["h"] && ['w'] + "" == "w";
    assert Parts("w/h") == ["w", "h"];
  }

  lemma SmallPaths()
    ensures Expand("/", []) == Some([]) && Expand("h", []) == None && Expand("/w/h", []) == Some(["w", "h"])
    ensures Resolved(["w"], Parts("h")) == ["w", "h"]
  {
    SmallParts();
    assert ["", "w", "h"][1..] == ["w", "h"] && ["w", "h"][1..] == ["h"] && ["h"][1..] == [] && ["", ""][1..] == [""];
    hide Parts;
    assert Resolved([], []) == [] && Resolved(["w", "h"], []) == ["w", "h"];
    assert Resolved(["w"], ["h"]) == ["w", "h"];
    assert Resolved([], ["w", "h"]) == ["w", "h"];
    if At("/w/h", 0, "~/") { AtChar("/w/h", 0, "~/", 0); }
  }

  lemma StrayBeats(sha: string -> string, codec: ConfigFile.Codec)
    ensures var env := SmallHost(sha, codec);
            Beats(STRAY_TOOL, STRAY_MANIFEST, SMALL_FETCH, env) && HeartbeatKey(STRAY_TOOL, env) == ["w", "h"]
  {
    SmallPaths();
    ShortIsValid("x");
    hide Expand, Resolved, Parts, ValidRef, SkillPathOf, MarkerHash;
  }

  lemma ShortIsValid(ref: string)
    requires |ref| == 1
    ensures ValidRef(ref)
  {
    assert |BlockScan.BEGIN| > 1 && |BlockScan.END| > 1;
    assert forall k :: 0 <= k <= 1 ==> !At(ref, k, BlockScan.BEGIN) && !At(ref, k, BlockScan.END);
  }

  lemma StrayIsRetired(sha: string -> string, codec: ConfigFile.Codec)
    ensures var c := ContextOf(STRAY_MANIFEST, SmallHost(sha, codec));
            MarkerOf(STRAY_ENTRY, c) == Some(RetiredMarker("t", ["w", "h"]))
    ensures STRAY_ENTRY in RetiredEntries(STRAY_MANIFEST)
  {
    SmallPaths();
    hide Expand;
    var env := SmallHost(sha, codec);
    assert ActiveMarkers(STRAY_MANIFEST.tools, env) == {};
    var more := AllMarkers([STRAY_MANIFEST.retired]);
    assert [STRAY_MANIFEST.retired][1..] == [];
    assert more == [STRAY_ENTRY] + AllMarkers([]) by { assert AllMarkers([STRAY_MANIFEST.retired][1..]) == []; }
    assert [BUILTIN, STRAY_MANIFEST.retired][1..] == [STRAY_MANIFEST.retired];
    assert RetiredEntries(STRAY_MANIFEST) == BUILTIN.markers + more;
  }

  /** Its heartbeat is written and stripped again in one tick. */
  lemma RelativeHeartbeatIsStripped(sha: string -> string, codec: ConfigFile.Codec)
    ensures !NoRepeat(HeartKeys(StepsOf(STRAY_MANIFEST, SMALL_FETCH, SmallHost(sha, codec)), SmallHost(sha, codec)))
  {
    SmallPaths();
    hide *;
    var env := SmallHost(sha, codec);
    HeartbeatsAreOwned(STRAY_MANIFEST, SMALL_FETCH, env);
    StrayBeats(sha, codec);
    StrayIsRetired(sha, codec);
    NoneRetiredIs(STRAY_MANIFEST, SMALL_FETCH, env);
    WritesRetiredIs(STRAY_TOOL, STRAY_ENTRY, STRAY_MANIFEST, SMALL_FETCH, env);
    SmallHostIs(sha, codec);
  }

  lemma SmallHostIs(sha: string -> string, codec: ConfigFile.Codec)
    ensures STRAY_TOOL in STRAY_MANIFEST.tools && STRAY_TOOL.heartbeatPath == "h"
    ensures SmallHost(sha, codec).home == [] && SmallHost(sha, codec).canon(["w", "h"]) == ["w", "h"]
  {
  }

  // ---- what a tick writes into a heartbeat is well formed ----------------------------------------------

  lemma ShortIsHex(sha: string -> string, s: string)
    requires HexHash(sha)
    ensures ValidHash(Short(sha(s)))
  {
  }

  lemma DirectiveIsValid(t: Tool, m: Manifest, f: Fetched, env: Env)
    requires HexHash(env.sha)
    ensures DirectiveOf(t, m, f, env).Some? ==> Valid(DirectiveOf(t, m, f, env).value)
  {
    var ref := f.render(t.template, SkillPathOf(t, m, env));
    ShortIsHex(env.sha, f.skill);
    if ref.Some? { ShortIsHex(env.sha, env.sha(f.skill) + "\n" + RenderMarker(ref.value, "", "")); }
    hide ValidRef, ValidHash, Short, HexHash, SkillPathOf, RenderMarker;
  }

  lemma ToolBeatsValid(t: Tool, m: Manifest, f: Fetched, env: Env, owned: set<AbsPath>)
    requires HexHash(env.sha)
    ensures forall s :: s in ToolSteps(t, m, f, env, owned) && s.Beat? ==> Valid(s.d)
  {
    hide DirectiveOf, PlaceOf, SkillPathOf, PluginSteps, Valid, HexHash, Installed, HeartbeatKey, HasHeartbeat, GoesOn;
    DirectiveIsValid(t, m, f, env);
    PluginKinds(t.plugin, f, env);
  }

  lemma {:induction false} BeatsValid(ts: seq<Tool>, m: Manifest, f: Fetched, env: Env, owned: set<AbsPath>)
    requires HexHash(env.sha)
    ensures forall s :: s in AllToolSteps(ts, m, f, env, owned) && s.Beat? ==> Valid(s.d)
    decreases |ts|
  {
    hide ToolSteps, OwnedAfter, Valid, HexHash;
    if ts != [] {
      ToolBeatsValid(ts[0], m, f, env, owned);
      BeatsValid(ts[1..], m, f, env, OwnedAfter(ts[0], m, f, env, owned));
    }
  }

  lemma {:induction false} UnmarkKinds(ms: seq<RetiredMarker>)
    ensures forall s :: s in UnmarkSteps(ms) ==> s.Unmark?
  {
    if ms != [] { UnmarkKinds(ms[1..]); }
  }

  lemma StepBeatsValid(m: Manifest, f: Fetched, env: Env)
    requires HexHash(env.sha)
    ensures forall s :: s in StepsOf(m, f, env) && s.Beat? ==> Valid(s.d)
  {
    hide HelperSteps, AllToolSteps, GateSteps, RetiredSteps, RetiredOf, SkillKeys, Valid, HexHash;
    HelperKinds(m.helpers, f, env);
    GateKinds(m.gated, m, f, SkillKeys(m.tools, m, env));
    BeatsValid(m.tools, m, f, env, {});
    RetiredKinds(RetiredOf(m, env));
  }

  lemma RetiredKinds(items: RetiredItems)
    ensures forall s :: s in RetiredSteps(items) ==> s.Unmark? || s.Unplug? || s.Unown?
  {
    UnmarkKinds(items.markers);
    UnplugKinds(items.plugins);
    UnownKinds(items.helpers);
  }

  // ---- what is asked of a manifest -----------------------------------------------------------------------

  /** The surfaces that are no heartbeats are apart from one another and from the heartbeats, or
      siblings in one config, or copies of the same bytes in one file; no gated marker is the skill copy it turns on. */
  ghost predicate Orderly(steps: seq<Step>, env: Env) {
    && (forall i, j :: 0 <= i < |steps| && 0 <= j < |steps| && i != j ==>
          || (IsHeartbeat(steps[i]) && IsHeartbeat(steps[j]))
          || Undisturbed(steps[i], steps[j], env)
          || Twin(steps[i], steps[j], env))
    && (forall k :: 0 <= k < |steps| ==> Plain(steps[k], env) && MarkerApart(steps[k], env))
  }

  ghost predicate MarkerApart(step: Step, env: Env) {
    step.Gate? && MarkerPath(step.gt, env.home).Some? ==>
      env.canon(MarkerPath(step.gt, env.home).value) !in Writes(step, env)
  }

  lemma HeartsUndisturbed(x: Step, y: Step, env: Env)
    requires IsHeartbeat(x) && IsHeartbeat(y) && env.canon(x.path) != env.canon(y.path)
    ensures Undisturbed(x, y, env)
  {
  }

  lemma HeartsDisturb(x: Step, y: Step, env: Env)
    requires IsHeartbeat(x) && IsHeartbeat(y) && env.canon(x.path) == env.canon(y.path)
    ensures !Undisturbed(x, y, env) && !Twin(x, y, env)
  {
    assert env.canon(x.path) in Writes(x, env) && env.canon(x.path) in Looks(y, env);
  }

  /** A heartbeat file that repeats belongs to two different steps. */
  lemma {:induction false} RepeatedHeart(steps: seq<Step>, env: Env) returns (i: nat, j: nat)
    requires !NoRepeat(HeartKeys(steps, env))
    ensures i < j < |steps| && IsHeartbeat(steps[i]) && IsHeartbeat(steps[j])
    ensures env.canon(steps[i].path) == env.canon(steps[j].path)
  {
    var rest := HeartKeys(steps[1..], env);
    if NoRepeat(rest) {
      assert IsHeartbeat(steps[0]) by { assert [] + rest == rest; }
      var key := env.canon(steps[0].path);
      NoRepeatSplit([key], rest);
      j := HeartAt(steps[1..], env, key);
      i, j := 0, j + 1;
    } else {
      i, j := RepeatedHeart(steps[1..], env);
      i, j := i + 1, j + 1;
    }
  }

  lemma {:induction false} HeartAt(steps: seq<Step>, env: Env, key: AbsPath) returns (k: nat)
    requires key in HeartKeys(steps, env)
    ensures k < |steps| && IsHeartbeat(steps[k]) && env.canon(steps[k].path) == key
  {
    if IsHeartbeat(steps[0]) && env.canon(steps[0].path) == key {
      k := 0;
    } else {
      k := HeartAt(steps[1..], env, key);
      k := k + 1;
    }
  }

  ghost predicate InHarmony(m: Manifest, f: Fetched, env: Env) {
    HexHash(env.sha) && NoneRetired(m, f, env) && Orderly(StepsOf(m, f, env), env)
  }

  lemma OrderlyIsPeaceful(steps: seq<Step>, env: Env)
    requires forall s :: s in steps && s.Beat? ==> Valid(s.d)
    ensures Orderly(steps, env) ==> (Peaceful(steps, env) <==> NoRepeat(HeartKeys(steps, env)))
  {
    hide Undisturbed, Twin, Plain, HeartKeys, NoRepeat, Valid, MarkerPath, Writes;
    if Orderly(steps, env) && NoRepeat(HeartKeys(steps, env)) {
      forall i, j | 0 <= i < |steps| && 0 <= j < |steps| && i != j
        ensures Undisturbed(steps[i], steps[j], env) || Twin(steps[i], steps[j], env)
      {
        if IsHeartbeat(steps[i]) && IsHeartbeat(steps[j]) {
          if i < j { HeartsApart(steps, i, j, env); } else { HeartsApart(steps, j, i, env); }
          HeartsUndisturbed(steps[i], steps[j], env);
        }
      }
      forall k | 0 <= k < |steps| ensures Sturdy(steps[k], env) {
        assert steps[k] in steps;
      }
    }
    if !NoRepeat(HeartKeys(steps, env)) {
      var i, j := RepeatedHeart(steps, env);
      HeartsDisturb(steps[i], steps[j], env);
    }
  }

  /** Main result on manifests: the tick of an orderly one is peaceful, shared heartbeats and all, if
      and only if no tool writes a retired heartbeat. */
  lemma ManifestIsPeaceful(m: Manifest, f: Fetched, env: Env)
    ensures HexHash(env.sha) && Orderly(StepsOf(m, f, env), env) ==>
              (Peaceful(StepsOf(m, f, env), env) <==> NoneRetired(m, f, env))
  {
    hide StepsOf, Peaceful, Orderly, NoneRetired, HexHash, NoRepeat, HeartKeys, Valid;
    if HexHash(env.sha) {
      HeartbeatsAreOwned(m, f, env);
      StepBeatsValid(m, f, env);
      OrderlyIsPeaceful(StepsOf(m, f, env), env);
    }
  }

  /** So a manifest's ticks settle, and its dry run tells the truth. */
  lemma ManifestSettles(m: Manifest, f: Fetched, files: Files, env: Env, n: nat)
    requires n > 0 && Outlasts(n, files)
    ensures Calm(env) && InHarmony(m, f, env) ==>
              var steps := StepsOf(m, f, env);
              && Tick(steps, TickRun(steps, files, env, n), env) == TickRun(steps, files, env, n)
              && (AllCutClean(steps, files, env) <==>
                     Tick(steps, Tick(steps, files, env), env) == Tick(steps, files, env))
              && (RunSteps(steps, files, env, true).rows == RunSteps(steps, files, env, false).rows <==>
                  AllFit(steps, files, env) && TwinsHold([], steps, files, env))
  {
    hide *;
    ManifestIsPeaceful(m, f, env);
    InHarmonyIs(m, f, env);
    if Calm(env) && InHarmony(m, f, env) {
      var steps := StepsOf(m, f, env);
      TicksSettle(steps, files, env, n);
      OneTickSettles(steps, files, env);
      PeacefulIsInOrder(steps, env);
      CalmParts(env);
      PlanAgrees(steps, files, env);
    }
  }

  lemma InHarmonyIs(m: Manifest, f: Fetched, env: Env)
    ensures InHarmony(m, f, env) <==> HexHash(env.sha) && NoneRetired(m, f, env) && Orderly(StepsOf(m, f, env), env)
  {
    hide HexHash, NoneRetired, Orderly, StepsOf;
  }

  lemma PeacefulIsInOrder(steps: seq<Step>, env: Env)
    ensures Peaceful(steps, env) ==> InOrder(steps, env) && AllPlain(steps, env)
  {
    hide Undisturbed, Plain, Twin;
  }
}
