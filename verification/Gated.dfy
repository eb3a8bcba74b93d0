/**
 Gated tools: the marker file that turns one on, the target it is checked against, and where
 its skill copy goes (`gated.go`).
 */
module Gated {
  import opened Text
  import opened Paths

  // ---- the marker file -----------------------------------------------------------------------

  /** White space of one byte. */
  predicate ByteSpace(c: char) {
    c == ' ' || '\t' <= c <= '\r'
  }

  /** White space of two or three bytes, in UTF-8. */
  predicate WideSpace(s: string) {
    || s == ['\U{C2}', '\U{85}'] || s == ['\U{C2}', '\U{A0}']
    || s == ['\U{E1}', '\U{9A}', '\U{80}']
    || (|s| == 3 && s[..2] == ['\U{E2}', '\U{80}'] &&
        ('\U{80}' <= s[2] <= '\U{8A}' || s[2] == '\U{A8}' || s[2] == '\U{A9}' || s[2] == '\U{AF}'))
    || s == ['\U{E2}', '\U{81}', '\U{9F}']
    || s == ['\U{E3}', '\U{80}', '\U{80}']
  }

  /** How many bytes of white space a text starts with: one character's, or none. */
  function LeadingSpace(s: string): (n: nat)
    ensures n <= |s|
  {
    if s != [] && ByteSpace(s[0]) then 1
    else if |s| >= 2 && WideSpace(s[..2]) then 2
    else if |s| >= 3 && WideSpace(s[..3]) then 3
    else 0
  }

  function TrailingSpace(s: string): (n: nat)
    ensures n <= |s|
  {
    if s != [] && ByteSpace(s[|s| - 1]) then 1
    else if |s| >= 2 && WideSpace(s[|s| - 2..]) then 2
    else if |s| >= 3 && WideSpace(s[|s| - 3..]) then 3
    else 0
  }

  /** `strings.TrimSpace`. */
  function TrimSpace(s: string): string
    decreases |s|
  {
    if LeadingSpace(s) > 0 then TrimSpace(s[LeadingSpace(s)..])
    else if TrailingSpace(s) > 0 then TrimSpace(s[..|s| - TrailingSpace(s)])
    else s
  }

  datatype Entry = Entry(key: string, value: string)

  /** A line that says something: trimmed, not empty, no comment. */
  predicate Says(line: string) {
    TrimSpace(line) != "" && TrimSpace(line)[0] != '#'
  }

  function CutAt(line: string): nat
    ensures CutAt(line) <= |line|
  {
    if line == [] || line[0] == '=' then 0 else 1 + CutAt(line[1..])
  }

  /** `strings.Cut(line, "=")`, both sides trimmed. */
  function EntryOf(line: string): Option<Entry> {
    var l := TrimSpace(line);
    var i := CutAt(l);
    if i == |l| then None else Some(Entry(TrimSpace(l[..i]), TrimSpace(l[i + 1..])))
  }

  /** The entries of the lines that say something; `None` if one of them is no entry. */
  function Entries(lines: seq<string>): Option<seq<Entry>> {
    if lines == [] then Some([])
    else
      var rest := Entries(lines[1..]);
      if !Says(lines[0]) then rest
      else if EntryOf(lines[0]).None? || rest.None? then None
      else Some([EntryOf(lines[0]).value] + rest.value)
  }

  ghost predicate DistinctKeys(es: seq<Entry>) {
    forall i, j :: 0 <= i < j < |es| ==> es[i].key != es[j].key
  }

  function ValueFor(es: seq<Entry>, key: string): string {
    if es == [] then "" else if es[0].key == key then es[0].value else ValueFor(es[1..], key)
  }

  const SKILLS_DIR := "skills_dir"
  const SKILL_FORMAT := "skill_format"
  const CANONICAL := "canonical"
  const MARKER_MAX := 4096

  datatype Declaration = Malformed | Declares(skillsDir: string, skillFormat: string)

  /** What a marker's text declares: every line an entry, no key twice, the two known keys' values. */
  ghost function Declared(raw: string): Declaration {
    var es := Entries(Records(raw));
    if es.None? || !DistinctKeys(es.value) then Malformed
    else Declares(ValueFor(es.value, SKILLS_DIR), ValueFor(es.value, SKILL_FORMAT))
  }

  lemma {:induction false} EntriesSnoc(lines: seq<string>, l: string)
    ensures Entries(lines + [l]) ==
            if Entries(lines).None? || (Says(l) && EntryOf(l).None?) then None
            else if !Says(l) then Entries(lines)
            else Some(Entries(lines).value + [EntryOf(l).value])
  {
    if lines == [] {
      assert lines + [l] == [l] && [l][1..] == [];
      if EntryOf(l).Some? { assert [EntryOf(l).value] + [] == [] + [EntryOf(l).value]; }
    } else {
      assert (lines + [l])[0] == lines[0] && (lines + [l])[1..] == lines[1..] + [l];
      EntriesSnoc(lines[1..], l);
      var tail := Entries(lines[1..]);
      if Says(lines[0]) && EntryOf(lines[0]).Some? && tail.Some? && Says(l) && EntryOf(l).Some? {
        var a, b := EntryOf(lines[0]).value, EntryOf(l).value;
        assert [a] + (tail.value + [b]) == ([a] + tail.value) + [b];
      }
    }
  }

  lemma {:induction false} ValueForSnoc(es: seq<Entry>, e: Entry, key: string)
    requires forall i :: 0 <= i < |es| ==> es[i].key != e.key
    ensures ValueFor(es + [e], key) == if e.key == key then e.value else ValueFor(es, key)
  {
    if es == [] {
      assert es + [e] == [e];
    } else {
      assert (es + [e])[0] == es[0] && (es + [e])[1..] == es[1..] + [e];
      ValueForSnoc(es[1..], e, key);
    }
    if e.key == key { NoValue(es, key); }
  }

  lemma {:induction false} NoValue(es: seq<Entry>, key: string)
    requires forall i :: 0 <= i < |es| ==> es[i].key != key
    ensures ValueFor(es, key) == ""
  {
    if es != [] { NoValue(es[1..], key); }
  }

  lemma {:induction false} PrefixDecides(lines: seq<string>, i: nat)
    requires i <= |lines|
    ensures Entries(lines[..i]).None? ==> Entries(lines).None?
    ensures Entries(lines[..i]).Some? && Entries(lines).Some? ==> Entries(lines[..i]).value <= Entries(lines).value
    decreases |lines| - i
  {
    if i == |lines| {
      assert lines[..i] == lines;
    } else {
      assert lines[..i + 1] == lines[..i] + [lines[i]];
      EntriesSnoc(lines[..i], lines[i]);
      PrefixDecides(lines, i + 1);
    }
  }

  lemma RepeatedKey(es: seq<Entry>, all: seq<Entry>, e: Entry)
    requires es + [e] <= all && exists k :: 0 <= k < |es| && es[k].key == e.key
    ensures !DistinctKeys(all)
  {
    var k :| 0 <= k < |es| && es[k].key == e.key;
    assert all[k] == (es + [e])[k] && all[|es|] == (es + [e])[|es|];
  }

  ghost predicate HasEntryFor(es: seq<Entry>, key: string) {
    exists k :: 0 <= k < |es| && es[k].key == key
  }

  lemma HasEntryForSnoc(es: seq<Entry>, e: Entry)
    ensures forall k :: HasEntryFor(es + [e], k) <==> HasEntryFor(es, k) || k == e.key
  {
    forall k ensures HasEntryFor(es + [e], k) <==> HasEntryFor(es, k) || k == e.key {
      if HasEntryFor(es, k) {
        var i :| 0 <= i < |es| && es[i].key == k;
        assert (es + [e])[i].key == k;
      }
      assert (es + [e])[|es|] == e;
    }
  }

  /** `parseGatedMarker`: one pass over the lines, remembering the keys it has seen. */
  method ParseGatedMarker(raw: string) returns (m: Declaration)
    ensures m == Declared(raw)
  {
    var lines := Records(raw);
    var seen: set<string> := {};
    var skillsDir, skillFormat := "", "";
    ghost var es: seq<Entry> := [];
    var n := 0;
    assert lines[..0] == [];
    assert Entries(lines[..0]) == Some(es);
    hide TrimSpace, CutAt, Records, Entries;
    while n < |lines|
      invariant 0 <= n <= |lines|
      invariant Entries(lines[..n]) == Some(es) && DistinctKeys(es)
      invariant forall k :: k in seen <==> HasEntryFor(es, k)
      invariant skillsDir == ValueFor(es, SKILLS_DIR) && skillFormat == ValueFor(es, SKILL_FORMAT)
    {
      var line := TrimSpace(lines[n]);
      assert lines[..n + 1] == lines[..n] + [lines[n]];
      EntriesSnoc(lines[..n], lines[n]);
      PrefixDecides(lines, n + 1);
      n := n + 1;
      if line == "" || line[0] == '#' { continue; }
      var i := CutAt(line);
      if i == |line| { return Malformed; }
      var key, value := TrimSpace(line[..i]), TrimSpace(line[i + 1..]);
      if key in seen {
        RepeatedKeyIn(lines, n, es, Entry(key, value));
        return Malformed;
      }
      seen := seen + {key};
      HasEntryForSnoc(es, Entry(key, value));
      ValueForSnoc(es, Entry(key, value), SKILLS_DIR);
      ValueForSnoc(es, Entry(key, value), SKILL_FORMAT);
      es := es + [Entry(key, value)];
      if key == SKILLS_DIR {
        skillsDir := value;
      } else if key == SKILL_FORMAT {
        skillFormat := value;
      }
    }
    assert lines[..n] == lines;
    m := Declares(skillsDir, skillFormat);
  }

  lemma RepeatedKeyIn(lines: seq<string>, n: nat, es: seq<Entry>, e: Entry)
    requires n <= |lines| && Entries(lines[..n]) == Some(es + [e])
    requires exists k :: 0 <= k < |es| && es[k].key == e.key
    ensures Entries(lines).Some? ==> !DistinctKeys(Entries(lines).value)
  {
    PrefixDecides(lines, n);
    if Entries(lines).Some? { RepeatedKey(es, Entries(lines).value, e); }
  }

  // ---- what a marker's text says ---------------------------------------------------------------

  lemma RecordsCons(l: string, rest: string)
    requires '\n' !in l
    ensures Records(l + "\n" + rest) == [l] + Records(rest)
  {
    var s := l + "\n" + rest;
    LineEndIs(l, rest);
    assert s[..|l|] == l && s[|l| + 1..] == rest;
  }

  lemma {:induction false} LineEndIs(l: string, rest: string)
    requires '\n' !in l
    ensures LineEnd(l + "\n" + rest) == |l|
  {
    var s := l + "\n" + rest;
    if l == [] {
      assert s[0] == '\n';
    } else {
      assert l[0] in l && forall c :: c in l[1..] ==> c in l;
      assert s[0] == l[0] && s[1..] == l[1..] + "\n" + rest;
      LineEndIs(l[1..], rest);
    }
  }

  lemma {:induction false} TrimShortens(s: string)
    ensures |TrimSpace(s)| <= |s|
    ensures |TrimSpace(s)| == |s| ==> LeadingSpace(s) == 0 && TrailingSpace(s) == 0
    ensures LeadingSpace(s) == 0 && TrailingSpace(s) == 0 ==> TrimSpace(s) == s
    decreases |s|
  {
    hide LeadingSpace, TrailingSpace;
    if LeadingSpace(s) > 0 {
      TrimShortens(s[LeadingSpace(s)..]);
    } else if TrailingSpace(s) > 0 {
      TrimShortens(s[..|s| - TrailingSpace(s)]);
    }
  }

  /** A letter or a sign is no part of any white space. */
  predicate Solid(c: char) {
    '!' <= c <= '~'
  }

  lemma WideIsNotSolid(s: string)
    requires WideSpace(s)
    ensures 2 <= |s| <= 3 && forall k :: 0 <= k < |s| ==> !Solid(s[k])
  {
    if |s| == 3 && s[..2] == ['\U{E2}', '\U{80}'] { assert s[0] == s[..2][0] && s[1] == s[..2][1]; }
  }

  lemma SolidStart(s: string)
    requires s != [] && Solid(s[0])
    ensures LeadingSpace(s) == 0
  {
    if |s| >= 2 && WideSpace(s[..2]) { WideIsNotSolid(s[..2]); }
    if |s| >= 3 && WideSpace(s[..3]) { WideIsNotSolid(s[..3]); }
    hide WideSpace;
  }

  lemma WideEnd(s: string, n: nat)
    requires n <= |s| && WideSpace(s[|s| - n..])
    ensures forall k :: |s| - n <= k < |s| ==> !Solid(s[k])
  {
    WideIsNotSolid(s[|s| - n..]);
    hide WideSpace, Solid;
    forall k | |s| - n <= k < |s| ensures !Solid(s[k]) { assert s[k] == s[|s| - n..][k - (|s| - n)]; }
  }

  lemma TrailingIsNotSolid(s: string)
    ensures forall k :: |s| - TrailingSpace(s) <= k < |s| ==> !Solid(s[k])
  {
    hide WideSpace;
    if s != [] && ByteSpace(s[|s| - 1]) {
    } else if |s| >= 2 && WideSpace(s[|s| - 2..]) {
      WideEnd(s, 2);
    } else if |s| >= 3 && WideSpace(s[|s| - 3..]) {
      WideEnd(s, 3);
    }
  }

  /** White space at the end stops short of the last letter or sign. */
  lemma SolidStops(s: string, k: nat)
    requires k < |s| && Solid(s[k])
    ensures TrailingSpace(s) < |s| - k
  {
    hide TrailingSpace, Solid;
    TrailingIsNotSolid(s);
  }

  lemma SolidEnds(k: string, v: string)
    requires k != [] && Solid(k[0]) && TrailingSpace(v) == 0
    ensures LeadingSpace(k + "=" + v) == 0 && TrailingSpace(k + "=" + v) == 0
  {
    var s := k + "=" + v;
    assert s[0] == k[0] && s[|k|] == '=';
    SolidStart(s);
    SolidStops(s, |k|);
    if v != [] { assert s[|s| - 1] == v[|v| - 1]; }
    if |v| >= 2 { assert s[|s| - 2..] == v[|v| - 2..]; }
    if |v| >= 3 { assert s[|s| - 3..] == v[|v| - 3..]; }
    hide WideSpace;
  }

  lemma {:induction false} CutAtIs(k: string, v: string)
    requires '=' !in k
    ensures CutAt(k + "=" + v) == |k|
  {
    if k == [] {
      assert (k + "=" + v)[0] == '=';
    } else {
      assert k[0] in k && forall c :: c in k[1..] ==> c in k;
      assert (k + "=" + v)[0] == k[0] && (k + "=" + v)[1..] == k[1..] + "=" + v;
      CutAtIs(k[1..], v);
    }
  }

  /** A line of the form `key=value` is that entry, if neither side has white space around it. */
  lemma EntryReads(k: string, v: string)
    requires k != [] && Solid(k[0]) && k[0] != '#' && '=' !in k && TrimSpace(k) == k && TrimSpace(v) == v
    ensures Says(k + "=" + v) && EntryOf(k + "=" + v) == Some(Entry(k, v))
  {
    var s := k + "=" + v;
    TrimShortens(v);
    SolidEnds(k, v);
    TrimShortens(s);
    CutAtIs(k, v);
    hide TrimSpace, CutAt;
    assert s[..|k|] == k && s[|k| + 1..] == v && s[0] == k[0];
  }

  lemma KeysAreTrimmed()
    ensures TrimSpace(SKILLS_DIR) == SKILLS_DIR && TrimSpace(SKILL_FORMAT) == SKILL_FORMAT
    ensures '=' !in SKILLS_DIR && '=' !in SKILL_FORMAT && '\n' !in SKILLS_DIR && '\n' !in SKILL_FORMAT
    ensures SKILLS_DIR != "" && Solid(SKILLS_DIR[0]) && SKILLS_DIR[0] != '#'
    ensures SKILL_FORMAT != "" && Solid(SKILL_FORMAT[0]) && SKILL_FORMAT[0] != '#'
  {
    hide LeadingSpace, TrailingSpace, TrimSpace;
    TrimShortens(SKILLS_DIR);
    TrimShortens(SKILL_FORMAT);
    assert SKILLS_DIR[9] == 'r' && SKILL_FORMAT[11] == 't' && |SKILLS_DIR| == 10 && |SKILL_FORMAT| == 12;
    SolidStart(SKILLS_DIR);
    SolidStart(SKILL_FORMAT);
    SolidStops(SKILLS_DIR, 9);
    SolidStops(SKILL_FORMAT, 11);
  }

  lemma EntriesCons(l: string, e: Entry, rest: string)
    requires '\n' !in l && Says(l) && EntryOf(l) == Some(e)
    ensures Entries(Records(l + "\n" + rest)) ==
            if Entries(Records(rest)).None? then None else Some([e] + Entries(Records(rest)).value)
  {
    RecordsCons(l, rest);
    hide Records, Says, EntryOf;
    assert ([l] + Records(rest))[1..] == Records(rest);
  }

  /** A marker as the Muse installer writes it declares its two values. */
  lemma MarkerReads(dir: string, format: string)
    requires '\n' !in dir && '\n' !in format && TrimSpace(dir) == dir && TrimSpace(format) == format
    ensures Declared(SKILLS_DIR + "=" + dir + "\n" + (SKILL_FORMAT + "=" + format + "\n" + "")) ==
            Declares(dir, format)
  {
    KeysAreTrimmed();
    var a, b := SKILLS_DIR + "=" + dir, SKILL_FORMAT + "=" + format;
    hide *;
    EntryReads(SKILLS_DIR, dir);
    EntryReads(SKILL_FORMAT, format);
    EntriesCons(b, Entry(SKILL_FORMAT, format), "");
    EntriesCons(a, Entry(SKILLS_DIR, dir), b + "\n" + "");
    NoRecords();
    TwoEntries(dir, format, a + "\n" + (b + "\n" + ""));
  }

  lemma TwoEntries(dir: string, format: string, raw: string)
    requires Entries(Records(raw)) == Some([Entry(SKILLS_DIR, dir)] + ([Entry(SKILL_FORMAT, format)] + []))
    ensures Declared(raw) == Declares(dir, format)
  {
    hide Entries, Records;
    var es := [Entry(SKILLS_DIR, dir)] + ([Entry(SKILL_FORMAT, format)] + []);
    assert es == [Entry(SKILLS_DIR, dir), Entry(SKILL_FORMAT, format)];
    assert es[1..] == [Entry(SKILL_FORMAT, format)];
    assert |SKILLS_DIR| != |SKILL_FORMAT|;
    assert ValueFor(es[1..], SKILL_FORMAT) == format && ValueFor(es, SKILL_FORMAT) == format;
    assert ValueFor(es, SKILLS_DIR) == dir;
    assert DistinctKeys(es);
  }

  lemma NoRecords()
    ensures Records("") == [] && Entries(Records("")) == Some([])
  {
  }

  /** A key that is set twice spoils the whole marker. */
  lemma TwiceIsMalformed(dir: string, other: string, rest: string)
    requires '\n' !in dir && '\n' !in other && TrimSpace(dir) == dir && TrimSpace(other) == other
    ensures Declared(SKILLS_DIR + "=" + dir + "\n" + (SKILLS_DIR + "=" + other + "\n" + rest)) == Malformed
  {
    KeysAreTrimmed();
    hide TrimSpace, Says, EntryOf, Records, Entries;
    var a, b := SKILLS_DIR + "=" + dir, SKILLS_DIR + "=" + other;
    EntryReads(SKILLS_DIR, dir);
    EntryReads(SKILLS_DIR, other);
    EntriesCons(b, Entry(SKILLS_DIR, other), rest);
    EntriesCons(a, Entry(SKILLS_DIR, dir), b + "\n" + rest);
    if Entries(Records(rest)).Some? {
      var es := [Entry(SKILLS_DIR, dir)] + ([Entry(SKILLS_DIR, other)] + Entries(Records(rest)).value);
      assert es[0].key == es[1].key;
    }
  }

  lemma {:induction false} HashStays(s: string)
    requires s != [] && s[0] == '#'
    ensures TrimSpace(s) != [] && TrimSpace(s)[0] == '#'
    decreases |s|
  {
    hide LeadingSpace, TrailingSpace;
    SolidStart(s);
    SolidStops(s, 0);
    if TrailingSpace(s) > 0 { HashStays(s[..|s| - TrailingSpace(s)]); }
  }

  /** A comment says nothing. */
  lemma CommentIsIgnored(c: string, rest: string)
    requires '\n' !in c
    ensures Declared("#" + c + "\n" + rest) == Declared(rest)
  {
    HashStays("#" + c);
    RecordsCons("#" + c, rest);
    hide TrimSpace, EntryOf, Records;
    assert !Says("#" + c);
    assert (["#" + c] + Records(rest))[1..] == Records(rest);
  }

  /** A line that is neither a comment nor an entry spoils the whole marker. */
  lemma NoEntryIsMalformed(l: string, rest: string)
    requires '\n' !in l && Says(l) && '=' !in l
    ensures Declared(l + "\n" + rest) == Malformed
  {
    TrimKeepsOut(l, '=');
    NothingToCut(TrimSpace(l));
    RecordsCons(l, rest);
    hide TrimSpace, Records, CutAt;
    assert ([l] + Records(rest))[1..] == Records(rest);
  }

  lemma {:induction false} TrimKeepsOut(s: string, c: char)
    requires c !in s
    ensures c !in TrimSpace(s)
    decreases |s|
  {
    if LeadingSpace(s) > 0 {
      TrimKeepsOut(s[LeadingSpace(s)..], c);
    } else if TrailingSpace(s) > 0 {
      TrimKeepsOut(s[..|s| - TrailingSpace(s)], c);
    }
  }

  lemma {:induction false} NothingToCut(s: string)
    requires '=' !in s
    ensures CutAt(s) == |s|
  {
    if s != [] {
      assert s[0] in s && forall c :: c in s[1..] ==> c in s;
      NothingToCut(s[1..]);
    }
  }

  // ---- the target ----------------------------------------------------------------------------

  /** A manifest row for a gated tool. */
  datatype GatedTool = GatedTool(name: string, rootDir: string, skillsDir: string, flat: bool,
                                 requireMarker: string, skillFormat: string)

  predicate IdentifierChar(c: char) {
    'a' <= c <= 'z' || 'A' <= c <= 'Z' || '0' <= c <= '9' || c == '-' || c == '_' || c == '.'
  }

  /** `validIdentifier`. */
  predicate ValidIdentifier(s: string) {
    s != "" && s != "." && s != ".." && forall k :: 0 <= k < |s| ==> IdentifierChar(s[k])
  }

  lemma IdentifierIsName(s: string)
    requires ValidIdentifier(s)
    ensures ValidName(s) && ValidName(s + ".md")
  {
  }

  /** `gatedMarkerPath`. */
  function MarkerPath(gt: GatedTool, home: AbsPath): Option<AbsPath> {
    if gt.requireMarker == "" then None
    else
      var pilotDir := Join(home, PILOT);
      var marker := Expand(gt.requireMarker, home);
      if marker.None? || marker.value == pilotDir || !PathWithin(pilotDir, marker.value) then None else marker
  }

  datatype Target = Target(root: AbsPath, skills: AbsPath, path: AbsPath)

  function SkillPath(skills: AbsPath, entrypoint: string, flat: bool): AbsPath {
    if flat then Join(skills, entrypoint + ".md") else Join(Join(skills, entrypoint), "SKILL.md")
  }

  /** `resolveGatedTarget`, up to its last check. */
  function ResolveTarget(gt: GatedTool, entrypoint: string, home: AbsPath): Option<Target> {
    var root := Expand(gt.rootDir, home);
    var skills := Expand(gt.skillsDir, home);
    if !ValidIdentifier(gt.name) || !ValidIdentifier(entrypoint) then None
    else if gt.rootDir == "" || root.None? || root.value == home || !PathWithin(home, root.value) then None
    else if gt.skillsDir == "" || skills.None? || !PathWithin(root.value, skills.value) then None
    else Some(Target(root.value, skills.value, SkillPath(skills.value, entrypoint, gt.flat)))
  }

  /** `filepath.Rel(root, path)` between cleaned absolute paths, as components to go up and down. */
  function RelUp(root: AbsPath, path: AbsPath): nat {
    if root != [] && path != [] && root[0] == path[0] then RelUp(root[1..], path[1..]) else |root|
  }

  /** Main result on targets: the skill file lies strictly inside the root, which lies strictly
      inside the home directory, so that the last check of the program can never fail. */
  lemma TargetStrictlyInside(gt: GatedTool, entrypoint: string, home: AbsPath)
    requires ResolveTarget(gt, entrypoint, home).Some?
    ensures var t := ResolveTarget(gt, entrypoint, home).value;
            && home < t.root <= t.skills < t.path
            && t.path == t.skills + (if gt.flat then [entrypoint + ".md"] else [entrypoint, "SKILL.md"])
            && RelUp(t.root, t.path) == 0 && t.root != t.path
  {
    var t := ResolveTarget(gt, entrypoint, home).value;
    ResolveTargetChecks(gt, entrypoint, home);
    SkillPathIs(t.skills, entrypoint, gt.flat);
    hide *;
    PathWithinIsComponentPrefix(home, t.root);
    PathWithinIsComponentPrefix(t.root, t.skills);
    InsideNeedsNoUp(t.root, t.path);
  }

  lemma ResolveTargetChecks(gt: GatedTool, entrypoint: string, home: AbsPath)
    requires ResolveTarget(gt, entrypoint, home).Some?
    ensures var t := ResolveTarget(gt, entrypoint, home).value;
            && t.root != home && PathWithin(home, t.root) && PathWithin(t.root, t.skills)
            && ValidIdentifier(entrypoint) && t.path == SkillPath(t.skills, entrypoint, gt.flat)
  {
    hide PathWithin, SkillPath, Expand, ValidIdentifier;
  }

  lemma SkillPathIs(skills: AbsPath, entrypoint: string, flat: bool)
    requires ValidIdentifier(entrypoint)
    ensures SkillPath(skills, entrypoint, flat) ==
              skills + (if flat then [entrypoint + ".md"] else [entrypoint, "SKILL.md"])
  {
    IdentifierIsName(entrypoint);
    hide Join;
    if flat {
      JoinName(skills, entrypoint + ".md");
    } else {
      JoinName(skills, entrypoint);
      JoinName(skills + [entrypoint], "SKILL.md");
    }
  }

  lemma {:induction false} InsideNeedsNoUp(root: AbsPath, path: AbsPath)
    requires root <= path
    ensures RelUp(root, path) == 0
  {
    if root != [] {
      assert root[0] == path[0] && root[1..] <= path[1..];
      InsideNeedsNoUp(root[1..], path[1..]);
    }
  }

  /** The marker lies strictly inside ~/.pilot. */
  lemma MarkerStrictlyInside(gt: GatedTool, home: AbsPath)
    requires MarkerPath(gt, home).Some?
    ensures home + [PILOT] < MarkerPath(gt, home).value
  {
    assert ValidName(PILOT);
    hide PathWithin, Join, Resolved, Expand;
    JoinName(home, PILOT);
    PathWithinIsComponentPrefix(home + [PILOT], MarkerPath(gt, home).value);
  }

  /** When a row has a marker: it names a path strictly inside ~/.pilot. */
  lemma MarkerPathIs(gt: GatedTool, home: AbsPath)
    ensures MarkerPath(gt, home) ==
            (var p := Expand(gt.requireMarker, home);
             if p.Some? && home + [PILOT] < p.value then p else None)
  {
    assert ValidName(PILOT);
    JoinName(home, PILOT);
    RelativeExpandsToNothing(gt.requireMarker, home);
    hide PathWithin, Join, Resolved, Expand;
    if Expand(gt.requireMarker, home).Some? {
      PathWithinIsComponentPrefix(home + [PILOT], Expand(gt.requireMarker, home).value);
    }
  }

  /** When a row has a target: its names are plain, its root lies strictly inside the home directory, and
      its skills directory inside the root. */
  lemma TargetIs(gt: GatedTool, entrypoint: string, home: AbsPath)
    ensures var root, skills := Expand(gt.rootDir, home), Expand(gt.skillsDir, home);
            var file := if gt.flat then [entrypoint + ".md"] else [entrypoint, "SKILL.md"];
            var t := ResolveTarget(gt, entrypoint, home);
            && (t.Some? <==>
                  && ValidIdentifier(gt.name) && ValidIdentifier(entrypoint) && root.Some? && skills.Some?
                  && home != [] && home < root.value && root.value <= skills.value)
            && (t.Some? ==> t.value == Target(root.value, skills.value, t.value.path) &&
                              t.value.path == skills.value + file)
  {
    var root, skills := Expand(gt.rootDir, home), Expand(gt.skillsDir, home);
    RelativeExpandsToNothing(gt.rootDir, home);
    RelativeExpandsToNothing(gt.skillsDir, home);
    if root.Some? { PathWithinIsComponentPrefix(home, root.value); }
    if root.Some? && skills.Some? { PathWithinIsComponentPrefix(root.value, skills.value); }
    if ValidIdentifier(entrypoint) && skills.Some? { SkillPathIs(skills.value, entrypoint, gt.flat); }
    hide PathWithin, SkillPath, Expand, ValidIdentifier;
  }
}
