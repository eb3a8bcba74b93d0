/**
 File paths: cleaning, `~/` expansion, and the containment test (`manifest.go`).

 A cleaned absolute path is the list of its components. The program's containment test works
 on strings; it is shown to be the component-prefix relation, except below the root itself.
 */
module Paths {
  import opened Text

  /** A name that can stand between two slashes of a cleaned path. */
  predicate ValidName(c: string) {
    c != "" && c != "." && c != ".." && '/' !in c
  }

  predicate Clean(p: seq<string>) {
    forall k :: 0 <= k < |p| ==> ValidName(p[k])
  }

  /** The components of a cleaned absolute path. */
  type AbsPath = p: seq<string> | Clean(p) witness []

  /** The directory in the home directory that the program calls its own. */
  const PILOT := ".pilot"

  /** The text between slashes, before cleaning. */
  function Parts(s: string): (r: seq<string>)
    ensures r != [] && forall k :: 0 <= k < |r| ==> '/' !in r[k]
  {
    if s == [] then [""]
    else
      var rest := Parts(s[1..]);
      if s[0] == '/' then [""] + rest else [[s[0]] + rest[0]] + rest[1..]
  }

  /** `filepath.Clean` on the way: dots vanish, double dots go up, the root has no parent. */
  function Resolved(base: AbsPath, parts: seq<string>): AbsPath
    requires forall k :: 0 <= k < |parts| ==> '/' !in parts[k]
    decreases |parts|
  {
    if parts == [] then base
    else
      var next: AbsPath :=
        if parts[0] == "" || parts[0] == "." then base
        else if parts[0] == ".." then (if base == [] then base else base[..|base| - 1])
        else base + [parts[0]];
      Resolved(next, parts[1..])
  }

  /** `filepath.Clean(expandHome(p, home))`, if that is absolute. */
  function Expand(p: string, home: AbsPath): Option<AbsPath> {
    if At(p, 0, "~/") then Some(Resolved(home, Parts(p[2..])))
    else if p == "~" then Some(home)
    else if p != "" && p[0] == '/' then Some(Resolved([], Parts(p)))
    else None
  }

  /** `filepath.Join(dir, name)`. */
  function Join(dir: AbsPath, name: string): AbsPath {
    Resolved(dir, Parts(name))
  }

  function Slashed(p: seq<string>): string {
    if p == [] then "" else "/" + p[0] + Slashed(p[1..])
  }

  /** The string of a cleaned absolute path. */
  function PathText(p: AbsPath): string {
    if p == [] then "/" else Slashed(p)
  }

  /** `pathWithin` on cleaned absolute paths: a test on strings. */
  predicate PathWithin(dir: AbsPath, path: AbsPath) {
    PathText(path) == PathText(dir) || At(PathText(path), 0, PathText(dir) + "/")
  }

  // ---- the string test is the component prefix --------------------------------------------

  /** Where the first component of a slashed path ends. */
  lemma {:induction false} FirstComponent(c: string, d: string, s: string, t: string)
    requires '/' !in c && '/' !in d
    requires s == [] || s[0] == '/'
    requires t == [] || t[0] == '/'
    requires c + s == d + t
    ensures c == d && s == t
  {
    if c == [] || d == [] {
      NoSlashStart(c, d, s, t);
    } else {
      assert (c + s)[0] == c[0] && (c + s)[1..] == c[1..] + s;
      assert (d + t)[0] == d[0] && (d + t)[1..] == d[1..] + t;
      FirstComponent(c[1..], d[1..], s, t);
    }
  }

  lemma NoSlashStart(c: string, d: string, s: string, t: string)
    requires '/' !in c && '/' !in d && (c == [] || d == [])
    requires s == [] || s[0] == '/'
    requires t == [] || t[0] == '/'
    requires c + s == d + t
    ensures c == d && s == t
  {
    SlashFirst(c, s);
    SlashFirst(d, t);
    assert c == d;
    assert s == (c + s)[|c|..] && t == (d + t)[|d|..];
  }

  lemma SlashFirst(c: string, s: string)
    requires '/' !in c && (s == [] || s[0] == '/')
    ensures c + s != [] && (c + s)[0] == '/' <==> c == [] && s != []
    ensures c + s == [] <==> c == [] && s == []
  {
  }

  lemma SlashedStart(p: seq<string>)
    ensures Slashed(p) == [] <==> p == []
    ensures p != [] ==> Slashed(p)[0] == '/'
  {
  }

  /** Extending the text of `dir` by "/" and more is extending `dir` by components. */
  lemma {:induction false} SlashedPrefix(dir: AbsPath, path: AbsPath, rest: string)
    requires Slashed(path) == Slashed(dir) + rest
    requires rest == [] || rest[0] == '/'
    ensures dir <= path && (rest == [] ==> dir == path)
    decreases |dir|
  {
    SlashedStart(dir);
    SlashedStart(path);
    if dir == [] {
      assert rest == Slashed(path);
    } else {
      SlashedFirst(dir, path, rest);
      hide Slashed;
      SlashedPrefix(dir[1..], path[1..], rest);
      assert dir == [dir[0]] + dir[1..] && path == [path[0]] + path[1..];
    }
  }

  lemma SlashedUnfolds(p: seq<string>, rest: string)
    requires p != []
    ensures Slashed(p) + rest != [] && (Slashed(p) + rest)[1..] == p[0] + (Slashed(p[1..]) + rest)
    ensures Slashed(p[1..]) == [] || Slashed(p[1..])[0] == '/'
  {
    SlashedStart(p[1..]);
    var s := Slashed(p[1..]);
    assert Slashed(p) == "/" + p[0] + s;
    hide Slashed;
    assert "/" + p[0] + s + rest == "/" + (p[0] + (s + rest));
  }

  /** The first components agree, and what follows them. */
  lemma SlashedFirst(dir: AbsPath, path: AbsPath, rest: string)
    requires Slashed(path) == Slashed(dir) + rest && dir != [] && path != []
    requires rest == [] || rest[0] == '/'
    ensures path[0] == dir[0] && Slashed(path[1..]) == Slashed(dir[1..]) + rest
  {
    hide Slashed;
    SlashedUnfolds(dir, rest);
    SlashedUnfolds(path, []);
    var s, t := Slashed(path[1..]), Slashed(dir[1..]) + rest;
    assert s + [] == s && Slashed(path) + [] == Slashed(path);
    assert t == [] || t[0] == '/' by { assert Slashed(dir[1..]) == [] ==> t == rest; }
    FirstComponent(path[0], dir[0], s, t);
  }

  lemma {:induction false} SlashedAppend(p: seq<string>, q: seq<string>)
    ensures Slashed(p + q) == Slashed(p) + Slashed(q)
  {
    if p == [] {
      assert p + q == q;
    } else {
      assert (p + q)[0] == p[0] && (p + q)[1..] == p[1..] + q;
      SlashedAppend(p[1..], q);
    }
  }

  lemma PathTextInjective(p: AbsPath, q: AbsPath)
    ensures PathText(p) == PathText(q) <==> p == q
  {
    if PathText(p) == PathText(q) {
      LongPathText(p);
      LongPathText(q);
      if p != [] && q != [] {
        assert Slashed(p) == Slashed(q) + [];
        SlashedPrefix(q, p, []);
      }
    }
  }

  lemma LongPathText(p: AbsPath)
    ensures p != [] ==> |PathText(p)| > 1
  {
    if p != [] { assert ValidName(p[0]); }
  }

  /** Main result on containment: the test holds exactly for the directory itself and, unless it
      is the root, for the paths that extend it by components. */
  lemma PathWithinIsComponentPrefix(dir: AbsPath, path: AbsPath)
    ensures PathWithin(dir, path) <==> dir == path || (dir != [] && dir <= path)
  {
    hide *;
    PathTextInjective(path, dir);
    WithinTest(dir, path);
    if path != dir {
      if dir == [] {
        NoDoubleSlash(path);
      } else if dir <= path {
        InsideBySlash(dir, path);
      } else if At(PathText(path), 0, PathText(dir) + "/") {
        SlashMeansInside(dir, path);
      }
    }
  }

  lemma WithinTest(dir: AbsPath, path: AbsPath)
    ensures PathWithin(dir, path) <==> PathText(path) == PathText(dir) || At(PathText(path), 0, PathText(dir) + "/")
    ensures PathText([]) + "/" == "//"
  {
  }

  lemma SlashMeansInside(dir: AbsPath, path: AbsPath)
    requires dir != [] && At(PathText(path), 0, PathText(dir) + "/")
    ensures dir <= path
  {
    LongPathText(dir);
    var rest := AfterSlash(PathText(path), PathText(dir));
    assert path != [];
    hide Slashed, At;
    SlashedPrefix(dir, path, rest);
  }

  lemma AfterSlash(s: string, d: string) returns (rest: string)
    requires At(s, 0, d + "/")
    ensures s == d + rest && rest != [] && rest[0] == '/' && |s| > |d|
  {
    AtChar(s, 0, d + "/", |d|);
    rest := s[|d|..];
    assert s[..|d| + 1] == d + "/";
    assert s[..|d|] == (d + "/")[..|d|] == d;
  }

  lemma InsideBySlash(dir: AbsPath, path: AbsPath)
    requires dir != [] && dir <= path && dir != path
    ensures At(PathText(path), 0, PathText(dir) + "/")
  {
    var q := path[|dir|..];
    assert path == dir + q;
    SlashedAppend(dir, q);
    SlashedStart(q);
    var t := PathText(dir) + "/";
    assert Slashed(q) == "/" + Slashed(q)[1..];
    assert PathText(path) == t + Slashed(q)[1..];
  }

  lemma NoDoubleSlash(path: AbsPath)
    ensures !At(PathText(path), 0, "//")
  {
    if path != [] {
      assert ValidName(path[0]);
      assert PathText(path)[1] == path[0][0] && path[0][0] in path[0];
      if At(PathText(path), 0, "//") { AtChar(PathText(path), 0, "//", 1); }
    }
  }

  /** A plain name extends a directory by exactly one component. */
  lemma JoinName(dir: AbsPath, name: string)
    requires ValidName(name)
    ensures Join(dir, name) == dir + [name]
  {
    PartsOfName(name);
    assert [name][1..] == [];
    assert Resolved(dir, [name]) == Resolved(dir + [name], [name][1..]);
  }

  lemma {:induction false} PartsOfName(s: string)
    requires '/' !in s
    ensures Parts(s) == [s]
  {
    if s != [] {
      assert s[0] in s && s == [s[0]] + s[1..];
      assert forall c :: c in s[1..] ==> c in s;
      PartsOfName(s[1..]);
    }
  }

  // ---- what cleaning does -------------------------------------------------------------------

  lemma {:induction false} ResolvedConcat(base: AbsPath, a: seq<string>, b: seq<string>)
    requires forall k :: 0 <= k < |a| ==> '/' !in a[k]
    requires forall k :: 0 <= k < |b| ==> '/' !in b[k]
    ensures Resolved(base, a + b) == Resolved(Resolved(base, a), b)
    decreases |a|
  {
    if a == [] {
      assert a + b == b;
    } else {
      assert (a + b)[0] == a[0] && (a + b)[1..] == a[1..] + b;
      assert [a[0]][1..] == [];
      assert Resolved(base, a) == Resolved(Resolved(base, [a[0]]), a[1..]);
      ResolvedConcat(Resolved(base, [a[0]]), a[1..], b);
    }
  }

  /** Plain names are appended. */
  lemma {:induction false} ResolvedNames(base: AbsPath, q: AbsPath)
    ensures Resolved(base, q) == base + q
    decreases |q|
  {
    if q != [] {
      assert ValidName(q[0]);
      var next: AbsPath, rest: AbsPath := base + [q[0]], q[1..];
      assert Resolved(base, q) == Resolved(next, rest);
      ResolvedNames(next, rest);
      assert base + [q[0]] + q[1..] == base + q;
    }
  }

  lemma SlashPart(s: string)
    ensures Parts("/" + s) == [""] + Parts(s)
  {
    assert ("/" + s)[1..] == s;
  }

  lemma LetterPart(c: char, s: string)
    requires c != '/'
    ensures Parts([c] + s) == [[c] + Parts(s)[0]] + Parts(s)[1..]
  {
    assert ([c] + s)[1..] == s;
  }

  lemma {:induction false} PartsAfterName(name: string, s: string)
    requires '/' !in name && (s == [] || s[0] == '/')
    ensures Parts(name + s) == [name] + Parts(s)[1..]
    decreases |name|
  {
    hide Parts;
    if name == [] {
      assert name + s == s;
      EmptyFirst(s);
      assert Parts(s) == [Parts(s)[0]] + Parts(s)[1..];
    } else {
      assert name[0] in name && forall c :: c in name[1..] ==> c in name;
      assert name + s == [name[0]] + (name[1..] + s);
      LetterPart(name[0], name[1..] + s);
      PartsAfterName(name[1..], s);
      assert [name[0]] + name[1..] == name;
    }
  }

  lemma EmptyFirst(s: string)
    requires s == [] || s[0] == '/'
    ensures Parts(s)[0] == ""
  {
  }

  lemma {:induction false} PartsOfSlashed(p: AbsPath)
    ensures Parts(Slashed(p)) == [""] + p
  {
    hide Parts;
    if p == [] {
      PartsOfName("");
    } else {
      var rest: AbsPath := p[1..];
      PartsOfSlashed(rest);
      SlashedStart(rest);
      assert Slashed(p) == "/" + (p[0] + Slashed(rest));
      hide Slashed;
      SlashPart(p[0] + Slashed(rest));
      assert ValidName(p[0]);
      PartsAfterName(p[0], Slashed(rest));
      assert ([""] + p[1..])[1..] == p[1..];
      assert [p[0]] + p[1..] == p;
    }
  }

  lemma SkipEmpty(base: AbsPath, parts: seq<string>)
    requires forall k :: 0 <= k < |parts| ==> '/' !in parts[k]
    ensures Resolved(base, [""] + parts) == Resolved(base, parts)
  {
    assert ([""] + parts)[1..] == parts;
  }

  /** A cleaned path written out reads back as itself, whatever the home directory. */
  lemma PathTextReadsBack(p: AbsPath, home: AbsPath)
    ensures Expand(PathText(p), home) == Some(p)
  {
    SlashedStart(p);
    if p == [] {
      SlashPart("");
      PartsOfName("");
      assert "/" + "" == "/";
      SkipEmpty([], [""]);
      SkipEmpty([], []);
      assert [""] + [] == [""];
    } else {
      PartsOfSlashed(p);
      SkipEmpty([], p);
      ResolvedNames([], p);
      assert [] + p == p;
    }
    NoTilde(PathText(p));
    hide Parts, Resolved, PathText;
  }

  lemma NoTilde(s: string)
    requires s != [] && s[0] == '/'
    ensures !At(s, 0, "~/") && s != "~"
  {
    if At(s, 0, "~/") { AtChar(s, 0, "~/", 0); }
  }

  /** `~` is the home directory, and `~/...` lies below it. */
  lemma TildeIsHome(q: AbsPath, home: AbsPath)
    ensures Expand("~" + Slashed(q), home) == Some(home + q)
  {
    SlashedStart(q);
    if q == [] {
      assert "~" + Slashed(q) == "~";
      assert home + q == home;
    } else {
      var s := Slashed(q);
      PartsOfSlashed(q);
      assert s == "/" + s[1..];
      SlashPart(s[1..]);
      assert Parts(s)[1..] == Parts(s[1..]) && ([""] + q)[1..] == q;
      assert ("~" + s)[2..] == s[1..];
      assert At("~" + s, 0, "~/") by { assert ("~" + s)[0] == '~' && ("~" + s)[1] == '/'; }
      ResolvedNames(home, q);
    }
    hide Parts, Resolved, Slashed;
  }

  /** Anything that starts neither with a slash nor with `~/` is relative. */
  lemma RelativeExpandsToNothing(s: string, home: AbsPath)
    ensures Expand(s, home).None? <==> (s == "" || s[0] != '/') && s != "~" && !At(s, 0, "~/")
  {
    hide Parts, Resolved;
  }

  /** `.` and empty parts stay, `..` goes up and stays at the root. */
  lemma DotsGoUp(dir: AbsPath, name: string)
    requires ValidName(name)
    ensures Join(dir, ".") == dir && Join(dir, "") == dir
    ensures Join(dir + [name], "..") == dir && Join([], "..") == []
  {
    PartsOfName(".");
    PartsOfName("");
    PartsOfName("..");
    hide Parts;
    assert ["."][1..] == [] && [""][1..] == [] && [".."][1..] == [];
    assert (dir + [name])[..|dir|] == dir;
  }

  /** Joining a text is joining what stands before its first slash, and then the rest. */
  lemma JoinPart(dir: AbsPath, name: string, s: string)
    requires '/' !in name
    ensures Join(dir, name + "/" + s) == Join(Join(dir, name), s)
  {
    PartsOfName(name);
    assert name + "/" + s == name + ("/" + s);
    PartsAfterName(name, "/" + s);
    SlashPart(s);
    assert ([""] + Parts(s))[1..] == Parts(s);
    ResolvedConcat(dir, [name], Parts(s));
    hide Parts, Resolved;
  }
}
