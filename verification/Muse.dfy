/**
 The Go rewrite of a SKILL.md's frontmatter (`skillformat.go`), loop by loop, proved to give
 the same bytes as the installer's shell pipeline on every input.
 */
module Muse {
  import opened Text
  import opened MuseShell

  // ---- splitRecords -------------------------------------------------------------------------

  /** Start offsets of the records of `s`, when `s` itself starts at `base`. */
  function Offsets(s: string, base: nat): seq<nat>
    decreases |s|
  {
    if s == [] then []
    else if LineEnd(s) == |s| then [base]
    else [base] + Offsets(s[LineEnd(s) + 1..], base + LineEnd(s) + 1)
  }

  method SplitRecords(s: string) returns (lines: seq<string>, offsets: seq<nat>)
    ensures lines == Records(s) && offsets == Offsets(s, 0)
  {
    hide *;
    lines, offsets := [], [];
    var start := 0;
    ghost var rest := s;
    while start < |s|
      invariant 0 <= start <= |s| && rest == s[start..]
      invariant lines + Records(rest) == Records(s)
      invariant offsets + Offsets(rest, start) == Offsets(s, 0)
    {
      RecordStep(rest, start);
      offsets := Append(offsets, start, Offsets(rest, start)[1..]);
      var i := LineEnd(s[start..]);
      if i == |s| - start {
        lines := Append(lines, s[start..], []);
        return;
      }
      lines := Append(lines, s[start..][..i], Records(rest[i + 1..]));
      start := start + i + 1;
      rest := Suffix(s, start - i - 1, i + 1);
    }
    RecordStep(rest, start);
  }

  /** `append`, and what it means for a sequence that is still to be followed by `rest`. */
  function Append<T>(xs: seq<T>, x: T, ghost rest: seq<T>): (r: seq<T>)
    ensures r == xs + [x] && r + rest == xs + ([x] + rest)
  {
    xs + [x]
  }

  ghost function Suffix(s: string, i: nat, n: nat): (r: string)
    requires i + n <= |s|
    ensures r == s[i + n..] == s[i..][n..]
  {
    s[i + n..]
  }

  lemma RecordStep(s: string, base: nat)
    ensures s == [] ==> Records(s) == [] && Offsets(s, base) == []
    ensures s != [] ==> Offsets(s, base) != [] && Offsets(s, base)[0] == base
    ensures s != [] && LineEnd(s) == |s| ==> Records(s) == [s] && Offsets(s, base) == [base]
    ensures s != [] && LineEnd(s) < |s| ==>
              && Records(s) == [s[..LineEnd(s)]] + Records(s[LineEnd(s) + 1..])
              && Offsets(s, base) == [base] + Offsets(s[LineEnd(s) + 1..], base + LineEnd(s) + 1)
  {
    hide LineEnd;
  }

  /** Cutting the file at a record's offset is what `tail` does. */
  lemma {:induction false} OffsetsAreTails(s: string, base: nat, n: nat)
    ensures |Offsets(s, base)| == |Records(s)|
    ensures n < |Offsets(s, base)| ==>
              base <= Offsets(s, base)[n] <= base + |s| && s[Offsets(s, base)[n] - base..] == TailLines(s, n)
    ensures n >= |Offsets(s, base)| ==> TailLines(s, n) == []
    decreases |s|
  {
    hide *;
    RecordStep(s, base);
    TailStep(s, n);
    if s == [] {
      TailOfNothing(n);
    } else if LineEnd(s) < |s| {
      var i := LineEnd(s) + 1;
      var tail := s[i..];
      if n == 0 {
        OffsetsAreTails(tail, base + i, 0);
      } else {
        OffsetsAreTails(tail, base + i, n - 1);
        if n < |Offsets(s, base)| {
          var o := Offsets(tail, base + i)[n - 1];
          assert s[o - base..] == tail[o - base - i..];
        }
      }
    }
  }

  lemma TailStep(s: string, n: nat)
    ensures n == 0 ==> TailLines(s, n) == s
    ensures n > 0 && LineEnd(s) == |s| ==> TailLines(s, n) == []
    ensures n > 0 && LineEnd(s) < |s| ==> TailLines(s, n) == TailLines(s[LineEnd(s) + 1..], n - 1)
  {
  }

  lemma {:induction false} TailOfNothing(n: nat)
    ensures TailLines([], n) == []
  {
  }

  // ---- extractDescription -------------------------------------------------------------------

  datatype Phase = Seeking | Collecting | Done

  method ExtractDescription(lines: seq<string>) returns (value: string)
    ensures value == Description(lines)
  {
    var state := Seeking;
    var block, quoted := false, false;
    value := "";
    var i := 0;
    while i < |lines|
      invariant 0 <= i <= |lines|
      invariant !(block && quoted)
      invariant state == Seeking ==> value == "" && !block && !quoted && Description(lines[i..]) == Description(lines)
      invariant state == Collecting ==> Folded(value, lines[i..], ScalarFor(block, quoted)) == Description(lines)
      invariant state == Done ==> value == Description(lines)
    {
      var l := DropCR(lines[i]);
      assert lines[i..][0] == lines[i] && lines[i..][1..] == lines[i + 1..];
      i := i + 1;
      if state == Collecting {
        if Continues(l) {
          var line := Trim(l);
          if !block && !quoted { line := StripComment(line); }
          if line != "" { value := value + " " + line; }
          continue;
        }
        state := Done;
      }
      if state == Seeking && At(l, 0, KEY) {
        var v := Trim(l[|KEY|..]);
        if BlockIndicator(v) {
          block := true;
          v := "";
        } else if v != [] && (v[0] == '"' || v[0] == '\'') {
          quoted := true;
        } else {
          v := StripComment(v);
        }
        value := v;
        state := Collecting;
      }
    }
    assert lines[i..] == [];
  }

  function ScalarFor(block: bool, quoted: bool): Scalar {
    if block then Block else if quoted then Quoted else Plain
  }

  // ---- normalizeMuseDescription -------------------------------------------------------------

  function TrAll(s: string): string {
    TrSqueeze(TrMap(TrDelete(s)))
  }

  lemma {:induction false} DeleteAppend(a: string, b: string)
    ensures TrDelete(a + b) == TrDelete(a) + TrDelete(b)
  {
    if a == [] {
      assert a + b == b;
    } else {
      assert (a + b)[0] == a[0] && (a + b)[1..] == a[1..] + b;
      DeleteAppend(a[1..], b);
    }
  }

  lemma {:induction false} MapAppend(a: string, b: string)
    ensures TrMap(a + b) == TrMap(a) + TrMap(b)
  {
    if a == [] {
      assert a + b == b;
    } else {
      assert (a + b)[0] == a[0] && (a + b)[1..] == a[1..] + b;
      MapAppend(a[1..], b);
    }
  }

  lemma DeleteMapSnoc(s: string, c: char)
    ensures TrMap(TrDelete(s + [c])) ==
            TrMap(TrDelete(s)) + if Unprintable(c) then [] else [if c == '\t' || c == '\n' then ' ' else c]
  {
    DeleteAppend(s, [c]);
    assert [c][1..] == [];
    MapAppend(TrDelete(s), TrDelete([c]));
  }

  lemma {:induction false} SqueezeSnoc(s: string, c: char)
    ensures s != [] ==> TrSqueeze(s) != [] && TrSqueeze(s)[|TrSqueeze(s)| - 1] == s[|s| - 1]
    ensures TrSqueeze(s + [c]) == if c == ' ' && s != [] && s[|s| - 1] == ' ' then TrSqueeze(s) else TrSqueeze(s) + [c]
  {
    if |s| <= 1 {
      if |s| == 1 { assert (s + [c])[1..] == [c]; }
    } else {
      assert (s + [c])[1..] == s[1..] + [c];
      SqueezeSnoc(s[1..], c);
    }
  }

  /** One pass over the bytes does what the three `tr` processes do. */
  method FusedTr(v: string) returns (b: string)
    ensures b == TrAll(v)
  {
    b := [];
    var i := 0;
    assert v[..0] == [];
    while i < |v|
      invariant 0 <= i <= |v|
      invariant b == TrAll(v[..i])
    {
      var c := v[i];
      var before := TrMap(TrDelete(v[..i]));
      assert v[..i + 1] == v[..i] + [c];
      DeleteMapSnoc(v[..i], c);
      SqueezeSnoc(before, if c == '\t' || c == '\n' then ' ' else c);
      i := i + 1;
      if c <= '\U{0008}' || ('\U{000B}' <= c && c <= '\U{001F}') {
        assert before + [] == before;
        continue;
      } else if c == '\t' || c == '\n' {
        c := ' ';
      }
      if c == ' ' && |b| > 0 && b[|b| - 1] == ' ' {
        continue;
      }
      b := b + [c];
    }
    assert v[..i] == v;
  }

  /** `strings.LastIndex(s, " ")`. */
  function LastSpace(s: string): (r: Option<nat>)
    ensures r.Some? ==> r.value < |s| && s[r.value] == ' ' && ' ' !in s[r.value + 1..]
    ensures r.None? ==> ' ' !in s
  {
    if s == [] then None
    else if s[|s| - 1] == ' ' then Some(|s| - 1)
    else
      var r := LastSpace(s[..|s| - 1]);
      assert s == s[..|s| - 1] + [s[|s| - 1]];
      assert r.Some? ==> s[r.value + 1..] == s[..|s| - 1][r.value + 1..] + [s[|s| - 1]];
      r
  }

  /** Cutting at the last space is removing the shortest suffix that starts with one. */
  lemma {:induction false} CutAtLastSpace(s: string)
    ensures BeforeLastSpace(s) == if LastSpace(s).Some? then s[..LastSpace(s).value] else s
  {
    if ' ' in s && s[|s| - 1] != ' ' {
      var r := LastSpace(s).value;
      CutAtLastSpace(s[..|s| - 1]);
      assert s[..|s| - 1][..r] == s[..r];
    }
  }

  method NormalizeMuseDescription(v: string, name: string) returns (d: string)
    ensures d == Escape(PlainDescription(v, name))
  {
    hide ReplaceAll, BeforeLastSpace, At, TrSqueeze, TrMap, TrDelete;
    d := FusedTr(v);
    if d != "" && d[0] == ' ' { d := d[1..]; }
    if d != "" && d[|d| - 1] == ' ' { d := d[..|d| - 1]; }
    assert d == Cleaned(v);
    if |d| >= 2 && d[0] == '"' && d[|d| - 1] == '"' {
      d := d[1..|d| - 1];
      d := ReplaceAll(d, "\\\\", "\U{0001}");
      d := ReplaceAll(d, "\\\"", "\"");
      d := ReplaceAll(d, "\\n", " ");
      d := ReplaceAll(d, "\\t", " ");
      d := ReplaceAll(d, "\U{0001}", "\\");
    } else if |d| >= 2 && d[0] == '\'' && d[|d| - 1] == '\'' {
      d := d[1..|d| - 1];
      d := ReplaceAll(d, "''", "'");
    }
    assert d == Unquote(Cleaned(v));
    if d == "" {
      d := "Pilot Protocol skill " + name;
    }
    if |d| > MAX_BYTES {
      d := d[..MAX_BYTES - 4];
      CutAtLastSpace(d);
      var i := LastSpace(d);
      if i.Some? { d := d[..i.value]; }
      d := d + "...";
    }
    assert d == PlainDescription(v, name);
    d := ReplaceAll(d, "\\", "\\\\");
    d := ReplaceAll(d, "\"", "\\\"");
  }

  /** `museSkillMD`: the same bytes as the installer's pipeline, whatever the file holds. */
  method MuseSkillMD(src: string, name: string) returns (out: string)
    ensures out == MuseFrontmatter(src, name)
  {
    hide FileHead, AwkDescription, PlainDescription, Escape, FenceLine, Records;
    var lines, offsets := SplitRecords(src);
    if |lines| == 0 || !FenceLine(lines[0]) {
      return src;
    }
    var end := |lines|;
    var i := 1;
    while i < |lines|
      invariant 1 <= i <= |lines| && end == |lines|
      invariant NextFence(lines, 1) == NextFence(lines, i)
    {
      if FenceLine(lines[i]) {
        end := i;
        break;
      }
      i := i + 1;
    }
    if end == |lines| {
      return src;
    }
    assert ClosingFence(lines) == Some(end);
    var value := ExtractDescription(lines[1..end]);
    AwkPrintsDescription(lines[1..end]);
    var desc := NormalizeMuseDescription(value, name);
    OffsetsAreTails(src, 0, end + 1);
    var body := [];
    if end + 1 < |offsets| {
      body := src[offsets[end + 1]..];
    }
    out := FileHead(name, desc) + body;
  }
}
