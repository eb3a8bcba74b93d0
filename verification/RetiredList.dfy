/**
 The retired list of one manifest (`collectRetired`): the built-in entries and the manifest's
 own, resolved, without duplicates and without anything the manifest still manages.
 */
module RetiredList {
  import opened Text
  import opened Paths
  import opened Retired
  import Json
  import ConfigFile

  datatype MarkerEntry = MarkerEntry(tool: string, path: string)
  datatype PluginEntry = PluginEntry(id: string, installPath: string, files: seq<string>,
                                     allowList: Option<AllowListEntry>)
  datatype AllowListEntry = AllowListEntry(configPath: string, allow: Json.Path, entries: Json.Path)
  datatype HelperEntry = HelperEntry(name: string, dst: string)

  /** One source of retired surfaces. */
  datatype Source = Source(markers: seq<MarkerEntry>, plugins: seq<PluginEntry>, helpers: seq<HelperEntry>)

  /** What the manifest still manages, by resolved path. */
  datatype ActiveSet = ActiveSet(markers: set<AbsPath>, helpers: set<AbsPath>, ids: set<string>, dirs: set<AbsPath>)

  datatype RetiredMarker = RetiredMarker(tool: string, path: AbsPath)
  datatype RetiredHelper = RetiredHelper(name: string, path: AbsPath)
  datatype RetiredItems = RetiredItems(markers: seq<RetiredMarker>, plugins: seq<RetiredPlugin>,
                                       helpers: seq<RetiredHelper>)

  /** The stubs built in for a plugin id. */
  type Stubs = map<string, map<string, string>>

  /** Everything the list is resolved against. */
  datatype Context = Context(home: AbsPath, canon: AbsPath -> AbsPath, active: ActiveSet, stubs: Stubs)

  /** `resolve`: the empty path and relative paths name nothing. */
  function Resolve(p: string, c: Context): Option<AbsPath> {
    if p == "" then None else Expand(p, c.home)
  }

  // ---- one entry at a time ---------------------------------------------------------------------

  function MarkerOf(e: MarkerEntry, c: Context): Option<RetiredMarker> {
    var p := Resolve(e.path, c);
    if p.None? || c.canon(p.value) in c.active.markers then None else Some(RetiredMarker(e.tool, p.value))
  }

  /** The listed names that stay strictly inside the install directory. */
  function FilesIn(dir: AbsPath, names: seq<string>): seq<AbsPath> {
    if names == [] then []
    else
      var dst := Join(dir, names[0]);
      (if names[0] == "" || dst == dir || !PathWithin(dir, dst) then [] else [dst]) + FilesIn(dir, names[1..])
  }

  function PluginOf(e: PluginEntry, c: Context): Option<RetiredPlugin> {
    var dir := Resolve(e.installPath, c);
    if dir.None? || e.id == "" || LastName(dir.value) != e.id then None
    else if e.id in c.active.ids || c.canon(dir.value) in c.active.dirs then None
    else
      var cfg := if e.allowList.None? then None else Resolve(e.allowList.value.configPath, c);
      Some(RetiredPlugin(e.id, FilesIn(dir.value, e.files),
                         if cfg.None? then None
                         else Some(ConfigEntry(cfg.value,
                                  ConfigFile.Place(e.allowList.value.allow, e.allowList.value.entries, e.id))),
                         if e.id in c.stubs then c.stubs[e.id] else map[]))
  }

  function HelperOf(e: HelperEntry, c: Context): Option<RetiredHelper> {
    var p := Resolve(e.dst, c);
    var pilotDir := Join(c.home, PILOT);
    if p.None? || p.value == pilotDir || !PathWithin(pilotDir, p.value) || p.value in c.active.helpers then None
    else Some(RetiredHelper(e.name, p.value))
  }

  // ---- the lists ---------------------------------------------------------------------------------

  /** The entries that resolve, in order, each key once: the loop with its `seen` map. */
  function Pick<E, X, K(==)>(es: seq<E>, resolve: E -> Option<X>, key: X -> K, seen: set<K>): seq<X> {
    if es == [] then []
    else
      var x := resolve(es[0]);
      if x.None? || key(x.value) in seen then Pick(es[1..], resolve, key, seen)
      else [x.value] + Pick(es[1..], resolve, key, seen + {key(x.value)})
  }

  function ToMarker(c: Context): MarkerEntry -> Option<RetiredMarker> {
    (e: MarkerEntry) => MarkerOf(e, c)
  }

  function MarkerKey(c: Context): RetiredMarker -> AbsPath {
    (m: RetiredMarker) => c.canon(m.path)
  }

  function ToPlugin(c: Context): PluginEntry -> Option<RetiredPlugin> {
    (e: PluginEntry) => PluginOf(e, c)
  }

  function PluginKey(): RetiredPlugin -> string {
    (p: RetiredPlugin) => p.id
  }

  function ToHelper(c: Context): HelperEntry -> Option<RetiredHelper> {
    (e: HelperEntry) => HelperOf(e, c)
  }

  function HelperKey(): RetiredHelper -> AbsPath {
    (h: RetiredHelper) => h.path
  }

  function AllMarkers(ss: seq<Source>): seq<MarkerEntry> {
    if ss == [] then [] else ss[0].markers + AllMarkers(ss[1..])
  }

  function AllPlugins(ss: seq<Source>): seq<PluginEntry> {
    if ss == [] then [] else ss[0].plugins + AllPlugins(ss[1..])
  }

  function AllHelpers(ss: seq<Source>): seq<HelperEntry> {
    if ss == [] then [] else ss[0].helpers + AllHelpers(ss[1..])
  }

  function Collected(ss: seq<Source>, c: Context): RetiredItems {
    RetiredItems(Pick(AllMarkers(ss), ToMarker(c), MarkerKey(c), {}),
                 Pick(AllPlugins(ss), ToPlugin(c), PluginKey(), {}),
                 Pick(AllHelpers(ss), ToHelper(c), HelperKey(), {}))
  }

  /** One list of one source, on top of what was seen before. */
  method AddEntries<E, X, K(==)>(es: seq<E>, resolve: E -> Option<X>, key: X -> K, start: set<K>, ghost more: seq<E>)
    returns (out: seq<X>, seen: set<K>)
    ensures Pick(es + more, resolve, key, start) == out + Pick(more, resolve, key, seen)
  {
    hide Pick;
    out, seen := [], start;
    var i := 0;
    assert es[0..] == es;
    while i < |es|
      invariant 0 <= i <= |es|
      invariant Pick(es + more, resolve, key, start) == out + Pick(es[i..] + more, resolve, key, seen)
    {
      NextEntry(es, i, more, resolve, key, seen);
      var x := resolve(es[i]);
      i := i + 1;
      if x.None? || key(x.value) in seen { continue; }
      seen := seen + {key(x.value)};
      out := out + [x.value];
    }
    assert es[i..] + more == more;
  }

  lemma NextEntry<E, X, K>(es: seq<E>, i: nat, more: seq<E>, resolve: E -> Option<X>, key: X -> K, seen: set<K>)
    requires i < |es|
    ensures var x := resolve(es[i]);
            Pick(es[i..] + more, resolve, key, seen) ==
              if x.None? || key(x.value) in seen then Pick(es[i + 1..] + more, resolve, key, seen)
              else [x.value] + Pick(es[i + 1..] + more, resolve, key, seen + {key(x.value)})
  {
    assert (es[i..] + more)[0] == es[i] && (es[i..] + more)[1..] == es[i + 1..] + more;
  }

  /** `collectRetired`, after the active surfaces are known. */
  method CollectRetired(sources: seq<Source>, c: Context) returns (out: RetiredItems)
    ensures out == Collected(sources, c)
  {
    CollectedParts(sources, c);
    hide *;
    var markers: seq<RetiredMarker>, plugins: seq<RetiredPlugin>, helpers: seq<RetiredHelper> := [], [], [];
    var seenMarkers: set<AbsPath>, seenPlugins: set<string>, seenHelpers: set<AbsPath> := {}, {}, {};
    var n := 0;
    assert sources[0..] == sources;
    while n < |sources|
      invariant 0 <= n <= |sources|
      invariant markers + Pick(AllMarkers(sources[n..]), ToMarker(c), MarkerKey(c), seenMarkers) ==
                  Collected(sources, c).markers
      invariant plugins + Pick(AllPlugins(sources[n..]), ToPlugin(c), PluginKey(), seenPlugins) ==
                  Collected(sources, c).plugins
      invariant helpers + Pick(AllHelpers(sources[n..]), ToHelper(c), HelperKey(), seenHelpers) ==
                  Collected(sources, c).helpers
    {
      var src := sources[n];
      SourceStep(sources, n);
      ghost var later := sources[n + 1..];
      var ms, ps, hs;
      ms, seenMarkers := AddEntries(src.markers, ToMarker(c), MarkerKey(c), seenMarkers, AllMarkers(later));
      ps, seenPlugins := AddEntries(src.plugins, ToPlugin(c), PluginKey(), seenPlugins, AllPlugins(later));
      hs, seenHelpers := AddEntries(src.helpers, ToHelper(c), HelperKey(), seenHelpers, AllHelpers(later));
      Assoc(markers, ms, Pick(AllMarkers(later), ToMarker(c), MarkerKey(c), seenMarkers));
      Assoc(plugins, ps, Pick(AllPlugins(later), ToPlugin(c), PluginKey(), seenPlugins));
      Assoc(helpers, hs, Pick(AllHelpers(later), ToHelper(c), HelperKey(), seenHelpers));
      markers, plugins, helpers := markers + ms, plugins + ps, helpers + hs;
      n := n + 1;
    }
    NoSources(sources[n..], c, seenMarkers, seenPlugins, seenHelpers);
    out := RetiredItems(markers, plugins, helpers);
  }

  lemma CollectedParts(ss: seq<Source>, c: Context)
    ensures Collected(ss, c).markers == Pick(AllMarkers(ss), ToMarker(c), MarkerKey(c), {})
    ensures Collected(ss, c).plugins == Pick(AllPlugins(ss), ToPlugin(c), PluginKey(), {})
    ensures Collected(ss, c).helpers == Pick(AllHelpers(ss), ToHelper(c), HelperKey(), {})
  {
  }

  lemma Assoc<T>(a: seq<T>, b: seq<T>, c: seq<T>)
    ensures (a + b) + c == a + (b + c)
  {
  }

  lemma SourceStep(ss: seq<Source>, n: nat)
    requires n < |ss|
    ensures AllMarkers(ss[n..]) == ss[n].markers + AllMarkers(ss[n + 1..])
    ensures AllPlugins(ss[n..]) == ss[n].plugins + AllPlugins(ss[n + 1..])
    ensures AllHelpers(ss[n..]) == ss[n].helpers + AllHelpers(ss[n + 1..])
  {
    assert ss[n..][1..] == ss[n + 1..];
  }

  lemma NoSources(ss: seq<Source>, c: Context, a: set<AbsPath>, b: set<string>, d: set<AbsPath>)
    requires ss == []
    ensures Pick(AllMarkers(ss), ToMarker(c), MarkerKey(c), a) == [] &&
              Pick(AllPlugins(ss), ToPlugin(c), PluginKey(), b) == []
    ensures Pick(AllHelpers(ss), ToHelper(c), HelperKey(), d) == []
  {
  }

  // ---- what a list holds -----------------------------------------------------------------------------

  /** Picked item k comes from an entry and was not picked before. */
  lemma {:induction false} PickedFrom<E, X, K>(es: seq<E>, resolve: E -> Option<X>, key: X -> K, seen: set<K>, k: nat)
      returns (i: nat)
    requires k < |Pick(es, resolve, key, seen)|
    ensures i < |es| && resolve(es[i]) == Some(Pick(es, resolve, key, seen)[k])
    ensures key(Pick(es, resolve, key, seen)[k]) !in seen
    decreases |es|
  {
    var x := resolve(es[0]);
    if x.None? || key(x.value) in seen {
      i := PickedFrom(es[1..], resolve, key, seen, k);
      i := i + 1;
    } else if k > 0 {
      i := PickedFrom(es[1..], resolve, key, seen + {key(x.value)}, k - 1);
      i := i + 1;
    } else {
      i := 0;
    }
  }

  /** No key is picked twice. */
  lemma {:induction false} PickedOnce<E, X, K>(es: seq<E>, resolve: E -> Option<X>, key: X -> K, seen: set<K>, j: nat,
                                               k: nat)
    requires j < k < |Pick(es, resolve, key, seen)|
    ensures key(Pick(es, resolve, key, seen)[j]) != key(Pick(es, resolve, key, seen)[k])
    decreases |es|
  {
    var x := resolve(es[0]);
    if x.None? || key(x.value) in seen {
      PickedOnce(es[1..], resolve, key, seen, j, k);
    } else if j > 0 {
      PickedOnce(es[1..], resolve, key, seen + {key(x.value)}, j - 1, k - 1);
    } else {
      var i := PickedFrom(es[1..], resolve, key, seen + {key(x.value)}, k - 1);
    }
  }

  /** An entry that resolves is picked, if not itself then a twin with its key. */
  lemma {:induction false} EntryIsPicked<E, X, K>(es: seq<E>, resolve: E -> Option<X>, key: X -> K, seen: set<K>,
                                                  i: nat)
      returns (k: nat)
    requires i < |es| && resolve(es[i]).Some? && key(resolve(es[i]).value) !in seen
    ensures k < |Pick(es, resolve, key, seen)|
    ensures key(Pick(es, resolve, key, seen)[k]) == key(resolve(es[i]).value)
    decreases |es|
  {
    var x := resolve(es[0]);
    if x.None? || key(x.value) in seen {
      k := EntryIsPicked(es[1..], resolve, key, seen, i - 1);
    } else if key(x.value) == key(resolve(es[i]).value) {
      k := 0;
    } else {
      k := EntryIsPicked(es[1..], resolve, key, seen + {key(x.value)}, i - 1);
      k := k + 1;
    }
  }

  /** What is picked, exactly: the first entry of each key that resolves. */
  lemma {:induction false} PickedIs<E, X, K>(es: seq<E>, resolve: E -> Option<X>, key: X -> K, seen: set<K>, x: X)
    ensures x in Pick(es, resolve, key, seen) <==>
              key(x) !in seen && exists i :: 0 <= i < |es| && FirstOfKey(es, resolve, key, x, i)
    decreases |es|
  {
    if es != [] {
      var y := resolve(es[0]);
      if y.None? || key(y.value) in seen {
        PickedIs(es[1..], resolve, key, seen, x);
      } else {
        PickedIs(es[1..], resolve, key, seen + {key(y.value)}, x);
      }
      if key(x) !in seen { FirstOfTail(es, resolve, key, x); }
    }
  }

  ghost predicate FirstOfKey<E, X, K>(es: seq<E>, resolve: E -> Option<X>, key: X -> K, x: X, i: nat)
    requires i < |es|
  {
    && resolve(es[i]) == Some(x)
    && forall j :: 0 <= j < i && resolve(es[j]).Some? ==> key(resolve(es[j]).value) != key(x)
  }

  lemma FirstOfTail<E, X, K>(es: seq<E>, resolve: E -> Option<X>, key: X -> K, x: X)
    requires es != []
    ensures (exists i :: 0 <= i < |es| && FirstOfKey(es, resolve, key, x, i)) <==>
              || resolve(es[0]) == Some(x)
              || ((resolve(es[0]).Some? ==> key(resolve(es[0]).value) != key(x)) &&
                     exists i :: 0 <= i < |es[1..]| && FirstOfKey(es[1..], resolve, key, x, i))
  {
    if i :| 0 <= i < |es| && FirstOfKey(es, resolve, key, x, i) {
      if i > 0 {
        forall j | 0 <= j < i - 1 && resolve(es[1..][j]).Some? ensures key(resolve(es[1..][j]).value) != key(x) {
          assert es[1..][j] == es[j + 1];
        }
        assert FirstOfKey(es[1..], resolve, key, x, i - 1);
      }
    }
    if resolve(es[0]) == Some(x) {
      assert FirstOfKey(es, resolve, key, x, 0);
    } else if resolve(es[0]).Some? ==> key(resolve(es[0]).value) != key(x) {
      if i :| 0 <= i < |es[1..]| && FirstOfKey(es[1..], resolve, key, x, i) {
        forall j | 0 <= j < i + 1 && resolve(es[j]).Some? ensures key(resolve(es[j]).value) != key(x) {
          if j > 0 { assert es[1..][j - 1] == es[j]; }
        }
        assert FirstOfKey(es, resolve, key, x, i + 1);
      }
    }
  }

  lemma MarkerNotActive(e: MarkerEntry, c: Context)
    ensures MarkerOf(e, c).Some? ==> c.canon(MarkerOf(e, c).value.path) !in c.active.markers
  {
    hide Resolve;
  }

  lemma PluginNotActive(e: PluginEntry, c: Context)
    ensures PluginOf(e, c).Some? ==> PluginOf(e, c).value.id == e.id && e.id !in c.active.ids
  {
    hide Resolve, FilesIn;
  }

  lemma AsMarker(e: MarkerEntry, m: RetiredMarker, c: Context)
    ensures ToMarker(c)(e) == MarkerOf(e, c) && MarkerKey(c)(m) == c.canon(m.path)
  {
    hide MarkerOf;
  }

  lemma AsPlugin(e: PluginEntry, p: RetiredPlugin, c: Context)
    ensures ToPlugin(c)(e) == PluginOf(e, c) && PluginKey()(p) == p.id
  {
    hide PluginOf;
  }

  /** Main result on retired heartbeats: none is an active one, after symlinks are resolved, and
      none is listed twice. */
  lemma MarkersAreRetired(ss: seq<Source>, c: Context, j: nat, k: nat)
    requires j < |Collected(ss, c).markers| && k < |Collected(ss, c).markers|
    ensures c.canon(Collected(ss, c).markers[k].path) !in c.active.markers
    ensures j != k ==> c.canon(Collected(ss, c).markers[j].path) != c.canon(Collected(ss, c).markers[k].path)
  {
    CollectedParts(ss, c);
    hide *;
    var es, ms := AllMarkers(ss), Collected(ss, c).markers;
    var i := PickedFrom(es, ToMarker(c), MarkerKey(c), {}, k);
    AsMarker(es[i], ms[k], c);
    AsMarker(es[i], ms[j], c);
    MarkerNotActive(es[i], c);
    if j < k { PickedOnce(es, ToMarker(c), MarkerKey(c), {}, j, k); }
    if k < j { PickedOnce(es, ToMarker(c), MarkerKey(c), {}, k, j); }
  }

  /** Main result on retired plugins: no id is active, and none is listed twice. */
  lemma PluginsAreRetired(ss: seq<Source>, c: Context, j: nat, k: nat)
    requires j < |Collected(ss, c).plugins| && k < |Collected(ss, c).plugins|
    ensures Collected(ss, c).plugins[k].id !in c.active.ids
    ensures j != k ==> Collected(ss, c).plugins[j].id != Collected(ss, c).plugins[k].id
  {
    CollectedParts(ss, c);
    hide *;
    var es, ps := AllPlugins(ss), Collected(ss, c).plugins;
    var i := PickedFrom(es, ToPlugin(c), PluginKey(), {}, k);
    AsPlugin(es[i], ps[k], c);
    AsPlugin(es[i], ps[j], c);
    PluginNotActive(es[i], c);
    if j < k { PickedOnce(es, ToPlugin(c), PluginKey(), {}, j, k); }
    if k < j { PickedOnce(es, ToPlugin(c), PluginKey(), {}, k, j); }
  }

  lemma {:induction false} FilesInStrictlyInside(dir: AbsPath, names: seq<string>)
    ensures forall f :: f in FilesIn(dir, names) ==> dir == [] || dir < f
  {
    if names != [] {
      FilesInStrictlyInside(dir, names[1..]);
      PathWithinIsComponentPrefix(dir, Join(dir, names[0]));
      hide PathWithin, Join;
    }
  }

  /** A retired plugin's files lie strictly inside a directory named after its id. */
  lemma PluginFilesInside(e: PluginEntry, c: Context)
    requires PluginOf(e, c).Some?
    ensures var dir := Resolve(e.installPath, c);
            && dir.Some? && LastName(dir.value) == e.id && c.canon(dir.value) !in c.active.dirs
            && forall f :: f in PluginOf(e, c).value.files ==> dir.value == [] || dir.value < f
  {
    hide Resolve, FilesIn;
    FilesInStrictlyInside(Resolve(e.installPath, c).value, e.files);
  }

  /** Helpers are deleted only strictly below ~/.pilot. */
  lemma HelperStrictlyInside(e: HelperEntry, c: Context)
    requires HelperOf(e, c).Some?
    ensures c.home + [PILOT] < HelperOf(e, c).value.path && HelperOf(e, c).value.path !in c.active.helpers
  {
    assert ValidName(PILOT);
    hide PathWithin, Join, Resolve;
    JoinName(c.home, PILOT);
    PathWithinIsComponentPrefix(c.home + [PILOT], HelperOf(e, c).value.path);
  }
}
