/**
 What the frontmatter rewrite reads and prints, said of the text itself: which part of a line is the
 description, how it is unquoted, cleaned and cut, and where the body starts.
 */
module MuseReads {
  import opened Text
  import opened MuseShell
  import opened MuseStability
  import Muse

  // ---- parts of a line ------------------------------------------------------------------------

  ghost predicate AllBlank(s: string) {
    forall k :: 0 <= k < |s| ==> Blank(s[k])
  }

  /** Nothing, or a text that neither starts nor ends with a blank. */
  predicate Trimmed(s: string) {
    s == [] || (!Blank(s[0]) && !Blank(s[|s| - 1]))
  }

  lemma {:induction false} TrimLeftIs(a: string, s: string)
    requires AllBlank(a) && (s == [] || !Blank(s[0]))
    ensures TrimLeft(a + s) == s
  {
    if a == [] {
      assert a + s == s;
    } else {
      assert (a + s)[0] == a[0] && (a + s)[1..] == a[1..] + s;
      TrimLeftIs(a[1..], s);
    }
  }

  lemma {:induction false} TrimRightIs(s: string, b: string)
    requires AllBlank(b) && (s == [] || !Blank(s[|s| - 1]))
    ensures TrimRight(s + b) == s
  {
    if b == [] {
      assert s + b == s;
    } else {
      assert (s + b)[|s + b| - 1] == b[|b| - 1] && (s + b)[..|s + b| - 1] == s + b[..|b| - 1];
      TrimRightIs(s, b[..|b| - 1]);
    }
  }

  /** Trimming takes off the blanks around a text, and nothing else. */
  lemma TrimIs(a: string, s: string, b: string)
    requires AllBlank(a) && AllBlank(b) && Trimmed(s)
    ensures Trim(a + s + b) == s
  {
    hide TrimLeft, TrimRight, Blank;
    if s == [] {
      assert a + s + b == (a + b) + [];
      TrimLeftIs(a + b, []);
      TrimRightIs([], []);
      assert "" + "" == "";
    } else {
      assert a + s + b == a + (s + b);
      TrimLeftIs(a, s + b);
      TrimRightIs(s, b);
    }
  }

  /** A blank before `#` starts a comment at `k`. */
  predicate CommentAt(s: string, k: nat) {
    k + 1 < |s| && Blank(s[k]) && s[k + 1] == '#'
  }

  /** A comment goes, with the blank before it; only the first one counts. */
  lemma {:induction false} StripCommentIs(s: string, k: nat)
    requires forall j :: 0 <= j < k ==> !CommentAt(s, j)
    requires k == |s| || CommentAt(s, k)
    ensures StripComment(s) == s[..k]
    decreases |s|
  {
    if |s| < 2 {
      assert s[..|s|] == s;
    } else if k == 0 {
    } else {
      assert !CommentAt(s, 0);
      forall j | 0 <= j < k - 1 ensures !CommentAt(s[1..], j) { assert !CommentAt(s, j + 1); }
      if k < |s| { assert CommentAt(s[1..], k - 1); }
      StripCommentIs(s[1..], k - 1);
      assert [s[0]] + s[1..][..k - 1] == s[..k];
    }
  }

  /** A carriage return at the end of a line goes, one only. */
  lemma DropCRIs(l: string)
    ensures DropCR(l + "\r") == l
    ensures l != [] && l[|l| - 1] != '\r' ==> DropCR(l) == l
    ensures FenceLine(l) <==> DropCR(l) == "---"
  {
    if l != [] && l[|l| - 1] == '\r' { assert l == l[..|l| - 1] + "\r"; }
    assert "---"[2] != '\r' && "---\r"[..3] == "---";
  }

  predicate Indicator(c: char) {
    c == '-' || c == '+' || '0' <= c <= '9'
  }

  lemma {:induction false} SkipIndicatorsIs(a: string, s: string)
    requires (forall k :: 0 <= k < |a| ==> Indicator(a[k])) && (s == [] || !Indicator(s[0]))
    ensures SkipIndicators(a + s) == s
  {
    if a == [] {
      assert a + s == s;
    } else {
      assert (a + s)[0] == a[0] && (a + s)[1..] == a[1..] + s;
      SkipIndicatorsIs(a[1..], s);
    }
  }

  /** A block scalar: its sign, indicators, and perhaps a comment after blanks. */
  lemma BlockIndicatorIs(sign: char, a: string, blanks: string, comment: string)
    requires (sign == '|' || sign == '>') && forall k :: 0 <= k < |a| ==> Indicator(a[k])
    requires AllBlank(blanks)
    ensures BlockIndicator([sign] + a)
    ensures blanks != [] ==> BlockIndicator([sign] + a + blanks + ("#" + comment))
    ensures blanks == [] ==> !BlockIndicator([sign] + a + blanks + ("#" + comment))
  {
    var v := [sign] + a;
    assert v[1..] == a && a + [] == a;
    SkipIndicatorsIs(a, []);
    var w := [sign] + a + blanks + ("#" + comment);
    assert w[1..] == a + (blanks + ("#" + comment));
    if blanks != [] { assert (blanks + ("#" + comment))[0] == blanks[0]; }
    SkipIndicatorsIs(a, blanks + ("#" + comment));
    TrimLeftIs(blanks, "#" + comment);
  }

  // ---- the description of some lines --------------------------------------------------------------

  /** Lines before the key say nothing. */
  lemma {:induction false} DescriptionAfter(before: seq<string>, rest: seq<string>)
    requires forall k :: 0 <= k < |before| ==> !HasKey(before[k])
    ensures Description(before + rest) == Description(rest)
  {
    if before == [] {
      assert before + rest == rest;
    } else {
      assert (before + rest)[0] == before[0] && (before + rest)[1..] == before[1..] + rest;
      DescriptionAfter(before[1..], rest);
    }
  }

  lemma KeyLineReads(v: string)
    requires Trimmed(v) && (v != [] ==> v[|v| - 1] != '\r')
    ensures HasKey("description: " + v) && KeyValue("description: " + v) == v
  {
    var l := "description: " + v;
    assert l[|l| - 1] != '\r' by {
      if v == [] { assert l == "description: "; } else { assert l[|l| - 1] == v[|v| - 1]; }
    }
    DropCRIs(l);
    assert l == KEY + (" " + v);
    assert l[|KEY|..] == " " + v + [];
    TrimIs(" ", v, []);
  }

  /** A plain scalar on one line is the description, up to a comment. */
  lemma PlainReads(v: string, k: nat, rest: seq<string>)
    requires v != [] && Trimmed(v) && v[|v| - 1] != '\r' && ScalarOf(v) == Plain
    requires forall j :: 0 <= j < k ==> !CommentAt(v, j)
    requires k == |v| || CommentAt(v, k)
    requires rest == [] || (rest[0] != [] && rest[0] != "\r" && !Blank(rest[0][0]))
    ensures Description(["description: " + v] + rest) == v[..k]
  {
    KeyLineReads(v);
    StripCommentIs(v, k);
    hide Trim, StripComment, HasKey, KeyValue;
    var lines := ["description: " + v] + rest;
    assert lines[1..] == rest;
    if rest != [] { EndsThere(rest[0]); }
  }

  lemma EndsThere(l: string)
    requires l != [] && l != "\r" && !Blank(l[0])
    ensures !Continues(DropCR(l))
  {
  }

  /** A quoted scalar keeps its quotes and what looks like a comment. */
  lemma QuotedReads(v: string, rest: seq<string>)
    requires v != [] && (v[0] == '"' || v[0] == '\'') && Trimmed(v) && v[|v| - 1] != '\r'
    requires rest == [] || (rest[0] != [] && rest[0] != "\r" && !Blank(rest[0][0]))
    ensures Description(["description: " + v] + rest) == v
  {
    KeyLineReads(v);
    hide Trim, StripComment, HasKey, KeyValue, SkipIndicators;
    var lines := ["description: " + v] + rest;
    assert lines[1..] == rest;
    if rest != [] { EndsThere(rest[0]); }
  }

  lemma BlankLineReads(blanks: string, s: string)
    requires blanks != [] && AllBlank(blanks) && Trimmed(s) && (s != [] ==> s[|s| - 1] != '\r')
    ensures DropCR(blanks + s) == blanks + s && Continues(blanks + s) && Trim(blanks + s) == s
  {
    hide Trim;
    var l := blanks + s;
    assert l[0] == blanks[0] && l[|l| - 1] != '\r' by {
      if s == [] { assert l == blanks && Blank(l[|l| - 1]); } else { assert l[|l| - 1] == s[|s| - 1]; }
    }
    DropCRIs(l);
    TrimIs(blanks, s, []);
    assert blanks + s + [] == l;
  }

  lemma FoldedStep(value: string, l: string, rest: seq<string>, kind: Scalar)
    requires DropCR(l) == l && Continues(l)
    ensures Folded(value, [l] + rest, kind) ==
            (var part := if kind == Plain then StripComment(Trim(l)) else Trim(l);
             Folded(if part == [] then value else value + " " + part, rest, kind))
  {
    hide Trim, StripComment, DropCR, Continues;
    assert ([l] + rest)[1..] == rest;
  }

  /** A continuation line of a plain scalar is joined by one space, of a block or quoted scalar with its
      comment; an empty one adds nothing. */
  lemma ContinuationReads(value: string, blanks: string, s: string, rest: seq<string>, kind: Scalar)
    requires blanks != [] && AllBlank(blanks) && Trimmed(s) && (s != [] ==> s[|s| - 1] != '\r')
    ensures var part := if kind == Plain then StripComment(s) else s;
            Folded(value, [blanks + s] + rest, kind) ==
              Folded(if part == [] then value else value + " " + part, rest, kind)
    ensures Folded(value, [""] + rest, kind) == Folded(value, rest, kind)
  {
    hide *;
    BlankLineReads(blanks, s);
    FoldedStep(value, blanks + s, rest, kind);
    NothingReads();
    FoldedStep(value, "", rest, kind);
  }

  lemma NothingReads()
    ensures DropCR("") == "" && Continues("") && Trim("") == "" && StripComment("") == ""
  {
  }

  /** A block scalar starts empty and takes what follows. */
  lemma BlockReads(v: string, rest: seq<string>)
    requires Trimmed(v) && v != [] && v[|v| - 1] != '\r' && BlockIndicator(v)
    ensures Description(["description: " + v] + rest) == Folded("", rest, Block)
  {
    KeyLineReads(v);
    hide Trim, StripComment, HasKey, KeyValue, Folded, BlockIndicator;
    assert (["description: " + v] + rest)[1..] == rest;
  }

  // ---- unquoting ----------------------------------------------------------------------------------

  /** Every single quote twice. */
  function Doubled(d: string): string {
    if d == [] then [] else (if d[0] == '\'' then "''" else [d[0]]) + Doubled(d[1..])
  }

  lemma {:induction false} HalvingUndoesDoubling(d: string)
    ensures ReplaceAll(Doubled(d), "''", "'") == d
  {
    if d != [] {
      var tail := Doubled(d[1..]);
      HalvingUndoesDoubling(d[1..]);
      if d[0] == '\'' {
        ReplaceHit(tail, "''", "'");
        assert "''" + tail == Doubled(d);
      } else {
        ReplaceOther(d[0], tail, "''", "'");
      }
      assert d == [d[0]] + d[1..];
    }
  }

  /** Single quotes around a text go, and doubled ones inside become one. */
  lemma SingleQuotesGo(d: string)
    ensures Unquote("'" + Doubled(d) + "'") == d
  {
    hide ReplaceAll, Doubled, UnescapeDouble;
    var q := "'" + Doubled(d) + "'";
    assert q[0] == '\'' && q[|q| - 1] == '\'' && q[1..|q| - 1] == Doubled(d);
    HalvingUndoesDoubling(d);
  }

  lemma {:induction false} ReplaceConcat(a: string, b: string, what: string, with: string)
    requires what != [] && what[0] !in a
    ensures ReplaceAll(a + b, what, with) == a + ReplaceAll(b, what, with)
  {
    if a == [] {
      assert a + b == b;
    } else {
      assert a + b == [a[0]] + (a[1..] + b) && a[0] in a;
      assert forall c :: c in a[1..] ==> c in a;
      ReplaceOther(a[0], a[1..] + b, what, with);
      ReplaceConcat(a[1..], b, what, with);
      assert [a[0]] + (a[1..] + ReplaceAll(b, what, with)) == a + ReplaceAll(b, what, with);
    }
  }

  /** An escaped newline or tab in double quotes is a space. */
  lemma EscapedSpaceReads(a: string, c: char, b: string)
    requires '\\' !in a && '\\' !in b && '\U{0001}' !in a && '\U{0001}' !in b && c in "nt"
    ensures UnescapeDouble(a + ['\\', c] + b) == a + " " + b
  {
    hide ReplaceAll;
    var e := a + ['\\', c] + b;
    assert e == a + (['\\', c] + b);
    EscapeSurvives(a, c, b, "\\\\", "\U{0001}");
    EscapeSurvives(a, c, b, "\\\"", "\"");
    if c == 'n' {
      EscapeHits(a, "\\n", b, " ");
      ReplaceNothing(a + " " + b, "\\t", " ");
    } else {
      EscapeSurvives(a, c, b, "\\n", " ");
      EscapeHits(a, "\\t", b, " ");
    }
    ReplaceNothing(a + " " + b, "\U{0001}", "\\");
    UnescapeStages(e);
  }

  lemma EscapeSurvives(a: string, c: char, b: string, what: string, with: string)
    requires '\\' !in a && '\\' !in b && |what| == 2 && what[0] == '\\' && what[1] != c && c != '\\'
    ensures ReplaceAll(a + ['\\', c] + b, what, with) == a + ['\\', c] + b
  {
    hide ReplaceAll;
    var rest := ['\\', c] + b;
    assert a + ['\\', c] + b == a + rest;
    ReplaceConcat(a, rest, what, with);
    assert rest == ['\\'] + ([c] + b);
    if At(rest, 0, what) { AtChar(rest, 0, what, 1); }
    ReplaceMiss('\\', [c] + b, what, with);
    ReplaceNothing([c] + b, what, with);
  }

  lemma EscapeHits(a: string, what: string, b: string, with: string)
    requires '\\' !in a && '\\' !in b && |what| == 2 && what[0] == '\\'
    ensures ReplaceAll(a + what + b, what, with) == a + with + b
  {
    hide ReplaceAll;
    assert a + what + b == a + (what + b);
    ReplaceConcat(a, what + b, what, with);
    ReplaceHit(b, what, with);
    ReplaceNothing(b, what, with);
    assert a + (with + b) == a + with + b;
  }

  // ---- cleaning and cutting ------------------------------------------------------------------------

  /** A tab or newline becomes a space, any other control character goes, the rest stays. */
  lemma TrByte(c: char, s: string)
    ensures TrMap(TrDelete([c] + s)) ==
            (if c == '\t' || c == '\n' then " " else if c < ' ' then "" else [c]) + TrMap(TrDelete(s))
  {
    assert ([c] + s)[1..] == s;
    if c >= ' ' || c == '\t' || c == '\n' {
      assert TrDelete([c] + s) == [c] + TrDelete(s);
      assert ([c] + TrDelete(s))[1..] == TrDelete(s);
    } else {
      assert TrDelete([c] + s) == [] + TrDelete(s) == TrDelete(s);
    }
  }

  ghost predicate OuterSpaceless(d: string) {
    d == [] || (d[0] != ' ' && d[|d| - 1] != ' ')
  }

  lemma {:induction false} SqueezeKeepsEnds(s: string)
    ensures s != [] ==> TrSqueeze(s) != [] && TrSqueeze(s)[0] == s[0] && TrSqueeze(s)[|TrSqueeze(s)| - 1] == s[|s| - 1]
  {
    if |s| >= 2 { SqueezeKeepsEnds(s[1..]); }
  }

  lemma DropOuterIs(d: string)
    requires NoDoubleSpace(d)
    ensures OuterSpaceless(DropOuterSpace(d)) && NoDoubleSpace(DropOuterSpace(d))
    ensures OuterSpaceless(d) ==> DropOuterSpace(d) == d
  {
    var t := if d != [] && d[0] == ' ' then d[1..] else d;
    forall k | 0 <= k < |t| - 1 ensures !(t[k] == ' ' && t[k + 1] == ' ') {
      if t != d { assert t[k] == d[k + 1] && t[k + 1] == d[k + 2]; }
    }
    if t != d && t != [] { assert t[0] == d[1]; }
    if t != [] && t[|t| - 1] == ' ' && |t| >= 2 { assert t[|t| - 2] != ' '; }
  }

  /** A cleaned description has no two adjacent spaces and none at its ends; a control-free text that is
      like that already is cleaned to itself. */
  lemma CleanedIs(v: string)
    ensures NoDoubleSpace(Cleaned(v)) && OuterSpaceless(Cleaned(v)) && ControlFree(Cleaned(v))
    ensures ControlFree(v) && NoDoubleSpace(v) && OuterSpaceless(v) ==> Cleaned(v) == v
  {
    SqueezeFixed(TrMap(TrDelete(v)));
    DropOuterIs(TrSqueeze(TrMap(TrDelete(v))));
    CleanedControlFree(v);
    if ControlFree(v) { TrKeepsControlFree(v); }
    hide TrSqueeze, TrMap, TrDelete, DropOuterSpace, ControlFree, NoDoubleSpace, OuterSpaceless;
  }

  lemma {:induction false} BeforeLastSpaceIs(s: string)
    ensures var p := BeforeLastSpace(s);
            && p <= s
            && (' ' in s ==> |p| < |s| && s[|p|] == ' ' && forall k :: |p| < k < |s| ==> s[k] != ' ')
            && (' ' !in s ==> p == s)
  {
    if ' ' in s && s[|s| - 1] != ' ' {
      var i :| 0 <= i < |s| && s[i] == ' ';
      assert s[..|s| - 1][i] == ' ';
      BeforeLastSpaceIs(s[..|s| - 1]);
    }
  }

  /** A description of at most 1024 bytes is kept; a longer one is cut to 1020 bytes, back to before its last
      space if it has one, and ends in three dots. */
  lemma CappedIs(d: string)
    ensures |d| <= 1024 ==> Capped(d) == d
    ensures |d| > 1024 ==>
              var head := d[..1020];
              var kept := Capped(d)[..|Capped(d)| - 3];
              && |Capped(d)| >= 3 && Capped(d) == kept + "..." && kept <= head
              && (if ' ' in head
                  then |kept| < 1020 && head[|kept|] == ' ' && forall k :: |kept| < k < 1020 ==> head[k] != ' '
                  else kept == head)
  {
    if |d| > 1024 {
      BeforeLastSpaceIs(d[..1020]);
      var p := BeforeLastSpace(d[..1020]);
      assert (p + "...")[..|p|] == p;
    }
    hide BeforeLastSpace;
  }

  /** Without a description the skill's name stands in. */
  lemma NameStandsIn(v: string, name: string)
    requires Unquote(Cleaned(v)) == ""
    ensures PlainDescription(v, name) == Capped("Pilot Protocol skill " + name)
    ensures PlainDescription("", name) == Capped("Pilot Protocol skill " + name)
  {
    assert Cleaned("") == "";
    hide Capped;
  }

  // ---- the body --------------------------------------------------------------------------------------

  /** The body is what stands after the last newline of the lines before it. */
  lemma {:induction false} TailIsRest(p: string, rest: string)
    requires p == [] || p[|p| - 1] == '\n'
    ensures TailLines(p + rest, |Records(p)|) == rest
    ensures Records(p + rest) == Records(p) + Records(rest)
    decreases |p|
  {
    hide *;
    Muse.RecordStep(p, 0);
    if p == [] {
      assert p + rest == rest;
      Muse.TailStep(rest, 0);
    } else {
      var i := LineEnd(p);
      LineEndPrefix(p, rest);
      Muse.RecordStep(p + rest, 0);
      var l, q := p[..i], p[i + 1..];
      assert (p + rest)[i + 1..] == q + rest && (p + rest)[..i] == l;
      if q != [] { assert q[|q| - 1] == p[|p| - 1]; }
      TailIsRest(q, rest);
      Muse.TailStep(p + rest, |Records(p)|);
      assert [l] + (Records(q) + Records(rest)) == ([l] + Records(q)) + Records(rest);
    }
  }

  lemma {:induction false} LineEndPrefix(p: string, rest: string)
    requires p != [] && p[|p| - 1] == '\n'
    ensures LineEnd(p) < |p| && LineEnd(p + rest) == LineEnd(p)
  {
    if p[0] == '\n' {
      assert (p + rest)[0] == '\n';
    } else {
      assert p[1..] != [] && p[1..][|p[1..]| - 1] == p[|p| - 1];
      assert (p + rest)[0] == p[0] && (p + rest)[1..] == p[1..] + rest;
      LineEndPrefix(p[1..], rest);
    }
  }
}
