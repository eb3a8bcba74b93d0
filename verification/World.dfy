/** The host a tick runs on: its files, what surrounds them, and the rows of a report. */
module World {
  import opened Text
  import opened Paths
  import opened Outcomes
  import opened ConfigFile
  import BlockScan

  /** Regular files by the path they resolve to. */
  type Files = map<AbsPath, string>

  /** What a tick does not change: the home and working directories, the directories on disk,
      symlinks, path resolution, the hash, the JSON codec, and the files it may not read or write
      this time. */
  datatype Env = Env(home: AbsPath, cwd: AbsPath, dirs: set<AbsPath>, links: set<AbsPath>, canon: AbsPath -> AbsPath,
                     sha: string -> string, codec: Codec, unreadable: set<AbsPath>, locked: set<AbsPath>)

  /** The hash gives 64 lowercase hex digits; nothing else is known of it. */
  ghost predicate HexHash(sha: string -> string) {
    forall s: string :: |sha(s)| == 64 && BlockScan.AllHex(sha(s))
  }

  /** Path resolution goes component by component: a name that is no symlink stays below its parent. */
  ghost predicate Coherent(env: Env) {
    forall p: AbsPath, c: string :: ValidName(c) && p + [c] !in env.links ==> env.canon(p + [c]) == env.canon(p) + [c]
  }

  /** No file refuses to be read or written. */
  predicate NoFailures(env: Env) {
    env.unreadable == {} && env.locked == {}
  }

  /** `os.ReadFile` on a resolved path. */
  function Read(files: Files, env: Env, key: AbsPath): Option<string> {
    if key in files && key !in env.unreadable then Some(files[key]) else None
  }

  /** One line of a report. Where a path could not be resolved, `named` is how the manifest spells it. */
  datatype Row = Row(tool: string, kind: FileKind, path: AbsPath, state: State, action: Action, named: string := "")

  /** What a step leaves behind: the files and the rows it reports. */
  datatype Result = Result(files: Files, rows: seq<Row>)

  /** Two stores agree on a set of paths. */
  ghost predicate AgreeOn(a: Files, b: Files, keys: set<AbsPath>) {
    forall k :: k in keys ==> (k in a <==> k in b) && (k in a ==> a[k] == b[k])
  }

  /** Two stores agree everywhere but on a set of paths. */
  ghost predicate AgreeOff(a: Files, b: Files, keys: set<AbsPath>) {
    forall k :: k !in keys ==> (k in a <==> k in b) && (k in a ==> a[k] == b[k])
  }
}
