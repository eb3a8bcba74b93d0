/**
 What the Muse rewrite does to its own output: the printed description reads back as the text
 that was escaped, the body is never touched, and the rewrite settles after two rounds.
 */
module MuseStability {
  import opened Text
  import opened MuseShell

  /** One line without control characters. */
  ghost predicate ControlFree(s: string) {
    forall k :: 0 <= k < |s| ==> s[k] >= ' '
  }

  // ---- the description is one control-free line of bounded size -----------------------------

  lemma {:induction false} DeleteRemoves(s: string)
    ensures forall k :: 0 <= k < |TrDelete(s)| ==> !Unprintable(TrDelete(s)[k])
  {
    if s != [] { DeleteRemoves(s[1..]); }
  }

  lemma {:induction false} MapControlFree(s: string)
    requires forall k :: 0 <= k < |s| ==> !Unprintable(s[k])
    ensures ControlFree(TrMap(s))
  {
    if s != [] { MapControlFree(s[1..]); }
  }

  lemma {:induction false} SqueezeControlFree(s: string)
    requires ControlFree(s)
    ensures ControlFree(TrSqueeze(s)) && |TrSqueeze(s)| <= |s| && (s != [] ==> TrSqueeze(s) != [])
  {
    if |s| >= 2 { SqueezeControlFree(s[1..]); }
  }

  /** A replacement brings in no characters but its own, and a single replaced character is gone. */
  lemma {:induction false} ReplaceAllChars(s: string, what: string, with: string, c: char)
    requires what != []
    ensures c in ReplaceAll(s, what, with) ==> (c in s && what != [c]) || c in with
    decreases |s|
  {
    if s != [] {
      if At(s, 0, what) {
        ReplaceAllChars(s[|what|..], what, with, c);
      } else {
        ReplaceAllChars(s[1..], what, with, c);
      }
    }
  }

  lemma UnescapeControlFree(d: string)
    requires ControlFree(d)
    ensures ControlFree(UnescapeDouble(d))
  {
    hide ReplaceAll, At;
    var d1 := ReplaceAll(d, "\\\\", "\U{0001}");
    var d2 := ReplaceAll(d1, "\\\"", "\"");
    var d3 := ReplaceAll(d2, "\\n", " ");
    var d4 := ReplaceAll(d3, "\\t", " ");
    var d5 := ReplaceAll(d4, "\U{0001}", "\\");
    forall k | 0 <= k < |d5| ensures d5[k] >= ' ' {
      var c := d5[k];
      ReplaceAllChars(d, "\\\\", "\U{0001}", c);
      ReplaceAllChars(d1, "\\\"", "\"", c);
      ReplaceAllChars(d2, "\\n", " ", c);
      ReplaceAllChars(d3, "\\t", " ", c);
      ReplaceAllChars(d4, "\U{0001}", "\\", c);
    }
  }

  lemma CleanedControlFree(v: string)
    ensures ControlFree(Cleaned(v))
  {
    DeleteRemoves(v);
    MapControlFree(TrDelete(v));
    SqueezeControlFree(TrMap(TrDelete(v)));
  }

  lemma UnquoteControlFree(d: string)
    requires ControlFree(d)
    ensures ControlFree(Unquote(d))
  {
    hide ReplaceAll, UnescapeDouble;
    if QuotedBy(d, '"') {
      UnescapeControlFree(d[1..|d| - 1]);
    } else if QuotedBy(d, '\'') {
      var r := ReplaceAll(d[1..|d| - 1], "''", "'");
      forall k | 0 <= k < |r| ensures r[k] >= ' ' {
        ReplaceAllChars(d[1..|d| - 1], "''", "'", r[k]);
      }
    }
  }

  lemma {:induction false} BeforeLastSpaceIsPrefix(s: string)
    ensures BeforeLastSpace(s) <= s
  {
    if ' ' in s && s[|s| - 1] != ' ' { BeforeLastSpaceIsPrefix(s[..|s| - 1]); }
  }

  ghost predicate PlainText(d: string) {
    d != [] && ControlFree(d) && |d| <= MAX_BYTES
  }

  /** The description is one nonempty control-free line of at most 1024 bytes. */
  lemma DescriptionIsPlain(v: string, name: string)
    requires ControlFree(name)
    ensures PlainText(PlainDescription(v, name))
  {
    hide Cleaned, Unquote, BeforeLastSpace;
    CleanedControlFree(v);
    UnquoteControlFree(Cleaned(v));
    assert ControlFree("Pilot Protocol skill ");
    var d := Unquote(Cleaned(v));
    var full := if d == "" then "Pilot Protocol skill " + name else d;
    assert ControlFree(full);
    if |full| > MAX_BYTES {
      BeforeLastSpaceIsPrefix(full[..MAX_BYTES - 4]);
      var cut := BeforeLastSpace(full[..MAX_BYTES - 4]);
      assert forall k :: 0 <= k < |cut| ==> cut[k] == full[k];
    }
  }

  // ---- escape and unescape ------------------------------------------------------------------

  /** Escaping, character by character. */
  function Esc(d: string): string {
    if d == [] then []
    else (if d[0] == '\\' then "\\\\" else if d[0] == '"' then "\\\"" else [d[0]]) + Esc(d[1..])
  }

  function Backslashes(d: string): string {
    if d == [] then [] else (if d[0] == '\\' then "\\\\" else [d[0]]) + Backslashes(d[1..])
  }

  lemma ReplaceMiss(c: char, s: string, what: string, with: string)
    requires what != [] && !At([c] + s, 0, what)
    ensures ReplaceAll([c] + s, what, with) == [c] + ReplaceAll(s, what, with)
  {
    assert ([c] + s)[1..] == s;
  }

  lemma ReplaceOther(c: char, s: string, what: string, with: string)
    requires what != [] && what[0] != c
    ensures ReplaceAll([c] + s, what, with) == [c] + ReplaceAll(s, what, with)
  {
    if At([c] + s, 0, what) { AtChar([c] + s, 0, what, 0); }
    ReplaceMiss(c, s, what, with);
  }

  lemma ReplaceHit(s: string, what: string, with: string)
    requires what != []
    ensures ReplaceAll(what + s, what, with) == with + ReplaceAll(s, what, with)
  {
    assert (what + s)[|what|..] == s;
  }

  lemma {:induction false} FirstPass(d: string)
    ensures ReplaceAll(d, "\\", "\\\\") == Backslashes(d)
  {
    if d != [] {
      assert d == [d[0]] + d[1..];
      if d[0] == '\\' {
        ReplaceHit(d[1..], "\\", "\\\\");
      } else {
        ReplaceOther(d[0], d[1..], "\\", "\\\\");
      }
      FirstPass(d[1..]);
    }
  }

  lemma {:induction false} SecondPass(d: string)
    ensures ReplaceAll(Backslashes(d), "\"", "\\\"") == Esc(d)
  {
    if d != [] {
      var tail := Backslashes(d[1..]);
      SecondPass(d[1..]);
      if d[0] == '\\' {
        assert "\\\\" + tail == ['\\'] + (['\\'] + tail);
        ReplaceOther('\\', ['\\'] + tail, "\"", "\\\"");
        ReplaceOther('\\', tail, "\"", "\\\"");
      } else if d[0] == '"' {
        ReplaceHit(tail, "\"", "\\\"");
      } else {
        ReplaceOther(d[0], tail, "\"", "\\\"");
      }
    }
  }

  lemma EscapeIsEsc(d: string)
    ensures Escape(d) == Esc(d)
  {
    FirstPass(d);
    SecondPass(d);
  }

  // The stages of unescaping an escaped text: backslashes become marks, then quotes lose their
  // backslash, then marks become backslashes.

  function Marked(d: string): string {
    if d == [] then []
    else (if d[0] == '\\' then "\U{0001}" else if d[0] == '"' then "\\\"" else [d[0]]) + Marked(d[1..])
  }

  function Unquoted(d: string): string {
    if d == [] then [] else (if d[0] == '\\' then "\U{0001}" else [d[0]]) + Unquoted(d[1..])
  }

  lemma {:induction false} MarkPass(d: string)
    ensures ReplaceAll(Esc(d), "\\\\", "\U{0001}") == Marked(d)
  {
    if d != [] {
      var tail := Esc(d[1..]);
      MarkPass(d[1..]);
      if d[0] == '\\' {
        ReplaceHit(tail, "\\\\", "\U{0001}");
      } else if d[0] == '"' {
        assert "\\\"" + tail == ['\\'] + (['"'] + tail);
        assert (['\\'] + (['"'] + tail))[1] == '"';
        MissAt('\\', ['"'] + tail, 1);
        ReplaceMiss('\\', ['"'] + tail, "\\\\", "\U{0001}");
        MissAt('"', tail, 0);
        ReplaceMiss('"', tail, "\\\\", "\U{0001}");
      } else {
        MissAt(d[0], tail, 0);
        ReplaceMiss(d[0], tail, "\\\\", "\U{0001}");
      }
    }
  }

  lemma MissAt(c: char, s: string, i: nat)
    requires i < 2 && (i < |[c] + s| ==> ([c] + s)[i] != '\\')
    ensures !At([c] + s, 0, "\\\\")
  {
    if At([c] + s, 0, "\\\\") { AtChar([c] + s, 0, "\\\\", i); }
  }

  lemma {:induction false} QuotePass(d: string)
    ensures ReplaceAll(Marked(d), "\\\"", "\"") == Unquoted(d)
  {
    if d != [] {
      var tail := Marked(d[1..]);
      QuotePass(d[1..]);
      if d[0] == '"' {
        ReplaceHit(tail, "\\\"", "\"");
      } else {
        var c := if d[0] == '\\' then '\U{0001}' else d[0];
        ReplaceOther(c, tail, "\\\"", "\"");
      }
    }
  }

  /** Replacing a text that starts with a character the string does not hold does nothing. */
  lemma {:induction false} ReplaceNothing(s: string, what: string, with: string)
    requires what != [] && what[0] !in s
    ensures ReplaceAll(s, what, with) == s
  {
    if s != [] {
      if At(s, 0, what) { AtChar(s, 0, what, 0); }
      ReplaceNothing(s[1..], what, with);
    }
  }

  lemma {:induction false} UnquotedHasNoBackslash(d: string)
    ensures '\\' !in Unquoted(d)
  {
    if d != [] { UnquotedHasNoBackslash(d[1..]); }
  }

  lemma {:induction false} UnmarkPass(d: string)
    requires ControlFree(d)
    ensures ReplaceAll(Unquoted(d), "\U{0001}", "\\") == d
  {
    if d != [] {
      var tail := Unquoted(d[1..]);
      UnmarkPass(d[1..]);
      if d[0] == '\\' {
        ReplaceHit(tail, "\U{0001}", "\\");
      } else {
        ReplaceOther(d[0], tail, "\U{0001}", "\\");
      }
    }
  }

  /** Unescaping undoes escaping. */
  lemma UnescapeUndoesEscape(d: string)
    requires ControlFree(d)
    ensures UnescapeDouble(Escape(d)) == d
  {
    hide *;
    EscapeIsEsc(d);
    MarkPass(d);
    QuotePass(d);
    UnquotedHasNoBackslash(d);
    ReplaceNothing(Unquoted(d), "\\n", " ");
    ReplaceNothing(Unquoted(d), "\\t", " ");
    UnmarkPass(d);
    UnescapeStages(Escape(d));
  }

  lemma UnescapeStages(e: string)
    ensures UnescapeDouble(e) ==
            ReplaceAll(ReplaceAll(ReplaceAll(ReplaceAll(ReplaceAll(e, "\\\\", "\U{0001}"), "\\\"", "\""), "\\n", " "),
                                  "\\t", " "), "\U{0001}", "\\")
  {
    hide ReplaceAll;
  }

  lemma {:induction false} EscLength(d: string)
    ensures |d| <= |Esc(d)| <= 2 * |d|
  {
    if d != [] { EscLength(d[1..]); }
  }

  // ---- reading the printed description back --------------------------------------------------

  /** Escaping leaves spaces where they are, so squeezing commutes with it. */
  lemma {:induction false} SqueezeEsc(d: string)
    ensures TrSqueeze(Esc(d)) == Esc(TrSqueeze(d))
    ensures d != [] ==> Esc(d) != [] && (Esc(d)[0] == ' ' <==> d[0] == ' ')
  {
    if d != [] {
      hide Esc, TrSqueeze;
      var c, tail := d[0], Esc(d[1..]);
      assert d == [c] + d[1..];
      EscCons(c, d[1..]);
      SqueezeEsc(d[1..]);
      if c != ' ' {
        SqueezeOther(c, d[1..]);
        EscCons(c, TrSqueeze(d[1..]));
        SqueezeOther(c, tail);
        if c == '\\' || c == '"' { SqueezeEscaped(c, tail); }
      } else {
        SqueezeSpace(d[1..]);
        SqueezeSpace(tail);
        EscCons(' ', TrSqueeze(d[1..]));
        EscEmpty(d[1..]);
      }
    }
  }

  lemma SqueezeEscaped(c: char, tail: string)
    requires c == '\\' || c == '"'
    ensures TrSqueeze(['\\', c] + tail) == ['\\', c] + TrSqueeze(tail)
  {
    hide TrSqueeze;
    assert ['\\', c] + tail == ['\\'] + ([c] + tail);
    SqueezeOther('\\', [c] + tail);
    SqueezeOther(c, tail);
    assert ['\\'] + ([c] + TrSqueeze(tail)) == ['\\', c] + TrSqueeze(tail);
  }

  lemma EscEmpty(d: string)
    ensures d == [] ==> Esc(d) == []
  {
  }

  lemma SqueezeSpace(s: string)
    ensures TrSqueeze([' '] + s) == if s != [] && s[0] == ' ' then TrSqueeze(s) else [' '] + TrSqueeze(s)
  {
    assert ([' '] + s)[1..] == s;
  }

  lemma EscCons(c: char, s: string)
    ensures Esc([c] + s) == (if c == '\\' then "\\\\" else if c == '"' then "\\\"" else [c]) + Esc(s)
  {
    assert ([c] + s)[1..] == s;
  }

  lemma SqueezeOther(c: char, s: string)
    requires c != ' '
    ensures TrSqueeze([c] + s) == [c] + TrSqueeze(s)
  {
    assert ([c] + s)[1..] == s;
  }

  lemma {:induction false} SqueezeEnd(s: string, c: char)
    requires c != ' '
    ensures TrSqueeze(s + [c]) == TrSqueeze(s) + [c]
  {
    if s == [] {
      assert s + [c] == [c];
    } else {
      assert (s + [c])[1..] == s[1..] + [c];
      SqueezeEnd(s[1..], c);
    }
  }

  lemma {:induction false} TrKeepsControlFree(s: string)
    requires ControlFree(s)
    ensures TrMap(TrDelete(s)) == s
  {
    if s != [] {
      TrKeepsControlFree(s[1..]);
      assert TrDelete(s) == [s[0]] + TrDelete(s[1..]);
      assert ([s[0]] + TrDelete(s[1..]))[1..] == TrDelete(s[1..]);
    }
  }

  lemma {:induction false} EscControlFree(d: string)
    requires ControlFree(d)
    ensures ControlFree(Esc(d))
  {
    if d != [] { EscControlFree(d[1..]); }
  }

  function Printed(d: string): string {
    "\"" + Escape(d) + "\""
  }

  lemma SqueezeQuoted(e: string)
    ensures TrSqueeze("\"" + e + "\"") == "\"" + TrSqueeze(e) + "\""
  {
    hide TrSqueeze;
    assert "\"" + e + "\"" == ['"'] + (e + ['"']);
    SqueezeOther('"', e + ['"']);
    SqueezeEnd(e, '"');
  }

  /** Quoting adds nothing that is deleted, mapped or squeezed. */
  lemma CleanedQuoted(e: string)
    requires ControlFree(e)
    ensures Cleaned("\"" + e + "\"") == "\"" + TrSqueeze(e) + "\""
  {
    hide ControlFree, TrSqueeze, TrMap, TrDelete;
    QuotedControlFree(e);
    TrKeepsControlFree("\"" + e + "\"");
    SqueezeQuoted(e);
  }

  lemma CleanedPrinted(d: string)
    requires ControlFree(d)
    ensures Cleaned(Printed(d)) == Printed(TrSqueeze(d))
  {
    hide Escape, Esc, ControlFree, TrSqueeze, Cleaned;
    EscapeIsEsc(d);
    EscapeIsEsc(TrSqueeze(d));
    EscControlFree(d);
    CleanedQuoted(Esc(d));
    SqueezeEsc(d);
  }

  lemma QuotedControlFree(e: string)
    requires ControlFree(e)
    ensures ControlFree("\"" + e + "\"")
  {
  }

  /** Re-reading a printed description gives back the text that was escaped, with runs of spaces squeezed. */
  lemma PrintedReadsBack(d: string, name: string)
    requires PlainText(d)
    ensures PlainDescription(Printed(d), name) == TrSqueeze(d)
    ensures Unquote(Printed(d)) == d
    ensures PlainText(TrSqueeze(d))
  {
    CleanedPrinted(d);
    SqueezeControlFree(d);
    UnescapeUndoesEscape(d);
    UnescapeUndoesEscape(TrSqueeze(d));
    hide Cleaned, UnescapeDouble, Escape, TrSqueeze;
    var q := Printed(TrSqueeze(d));
    assert q[1..|q| - 1] == Escape(TrSqueeze(d)) && Printed(d)[1..|Printed(d)| - 1] == Escape(d);
  }

  // ---- the records of a rewritten file ----------------------------------------------------------

  lemma RecordsCons(line: string, rest: string)
    requires '\n' !in line
    ensures Records(line + "\n" + rest) == [line] + Records(rest)
    ensures forall n :: n > 0 ==> TailLines(line + "\n" + rest, n) == TailLines(rest, n - 1)
  {
    var s := line + "\n" + rest;
    LineEndIs(line, rest);
    assert s[..|line|] == line && s[|line| + 1..] == rest;
  }

  lemma {:induction false} LineEndIs(line: string, rest: string)
    requires '\n' !in line
    ensures LineEnd(line + "\n" + rest) == |line|
  {
    if line != [] {
      assert (line + "\n" + rest)[1..] == line[1..] + "\n" + rest;
      LineEndIs(line[1..], rest);
    }
  }

  function NameLine(name: string): string {
    "name: \"" + name + "\""
  }

  function DescLine(desc: string): string {
    "description: \"" + desc + "\""
  }

  lemma ControlFreeHasNoNewline(s: string)
    requires ControlFree(s)
    ensures '\n' !in s && (s != [] ==> s[|s| - 1] != '\r')
  {
  }

  lemma RecordsOfRewritten(name: string, desc: string, body: string)
    requires ControlFree(name) && ControlFree(desc)
    ensures Records(FileHead(name, desc) + body) == ["---", NameLine(name), DescLine(desc), "---"] + Records(body)
    ensures TailLines(FileHead(name, desc) + body, 4) == body
  {
    hide *;
    ControlFreeHasNoNewline(name);
    ControlFreeHasNoNewline(desc);
    LineHasNoNewline(name, desc);
    HeaderLines(name, desc, body);
    var s3 := "---" + "\n" + body;
    var s2 := DescLine(desc) + "\n" + s3;
    var s1 := NameLine(name) + "\n" + s2;
    RecordsCons("---", body);
    RecordsCons(DescLine(desc), s3);
    RecordsCons(NameLine(name), s2);
    RecordsCons("---", s1);
    TailLinesZero(body);
    assert TailLines("---" + "\n" + s1, 4) == TailLines(s1, 3) == TailLines(s2, 2) == TailLines(s3, 1) ==
             TailLines(body, 0);
  }

  lemma HeaderLines(name: string, desc: string, body: string)
    ensures FileHead(name, desc) + body ==
            "---" + "\n" + (NameLine(name) + "\n" + (DescLine(desc) + "\n" + ("---" + "\n" + body)))
  {
  }

  lemma TailLinesZero(s: string)
    ensures TailLines(s, 0) == s
  {
  }

  lemma LineHasNoNewline(name: string, desc: string)
    requires '\n' !in name && '\n' !in desc
    ensures '\n' !in NameLine(name) && '\n' !in DescLine(desc) && '\n' !in "---"
  {
    assert '\n' !in "name: \"" && '\n' !in "description: \"";
  }

  /** The value read from a rewritten file is its printed description. */
  lemma DescriptionOfRewritten(name: string, d: string)
    ensures AwkDescription([NameLine(name), DescLine(Escape(d))]) == Printed(d)
  {
    var e := Escape(d);
    hide Escape;
    AwkPrintsDescription([NameLine(name), DescLine(e)]);
    NameLineIsNoKey(name);
    DescLineReads(e);
    assert [NameLine(name), DescLine(e)][1..] == [DescLine(e)];
    assert [DescLine(e)][1..] == [];
    hide At, ScalarOf, NameLine, DescLine;
    assert Description([DescLine(e)]) == Folded(FirstPart(KeyValue(DescLine(e))), [], Quoted);
  }

  lemma NameLineIsNoKey(name: string)
    ensures !HasKey(NameLine(name))
  {
    var l := DropCR(NameLine(name));
    assert l[0] == 'n';
    if At(l, 0, KEY) { AtChar(l, 0, KEY, 0); }
  }

  lemma DescLineReads(e: string)
    ensures var l := DescLine(e);
            && HasKey(l) && KeyValue(l) == "\"" + e + "\"" && ScalarOf(KeyValue(l)) == Quoted
            && FirstPart(KeyValue(l)) == "\"" + e + "\""
  {
    var l := DescLine(e);
    var q := "\"" + e + "\"";
    assert [] + KEY + (" " + q) == l;
    AtMiddle([], KEY, " " + q);
    assert l[|l| - 1] == '"' && DropCR(l) == l;
    assert l[|KEY|..] == " " + q;
    TrimQuoted(q);
    hide At, Trim;
  }

  lemma TrimQuoted(q: string)
    requires |q| >= 2 && q[0] == '"' && q[|q| - 1] == '"'
    ensures Trim(" " + q) == q
  {
    assert (" " + q)[1..] == q;
    assert TrimLeft(" " + q) == q && TrimRight(q) == q;
  }

  /** The rewrite of a rewritten file only squeezes the description. */
  lemma RewriteAgain(name: string, d: string, body: string)
    requires ControlFree(name) && PlainText(d)
    ensures MuseFrontmatter(FileHead(name, Escape(d)) + body, name) == FileHead(name, Escape(TrSqueeze(d))) + body
  {
    EscapeControlFree(d);
    hide *;
    var src := FileHead(name, Escape(d)) + body;
    RecordsOfRewritten(name, Escape(d), body);
    var lines := Records(src);
    NotFences(name, Escape(d));
    FenceOfFour(lines);
    assert lines[1..3] == [NameLine(name), DescLine(Escape(d))];
    DescriptionOfRewritten(name, d);
    PrintedReadsBack(d, name);
    assert PlainDescription(AwkDescription(lines[1..3]), name) == TrSqueeze(d);
    assert TailLines(src, 4) == body;
    RewriteClosed(src, name, 3);
  }

  lemma FenceOfFour(lines: seq<string>)
    requires |lines| >= 4 && FenceLine(lines[0]) && !FenceLine(lines[1]) && !FenceLine(lines[2]) && FenceLine(lines[3])
    ensures ClosingFence(lines) == Some(3)
  {
  }

  /** The description a rewrite escapes and prints. */
  function DescriptionText(src: string, name: string): string
    requires ClosingFence(Records(src)).Some?
  {
    PlainDescription(AwkDescription(Records(src)[1..ClosingFence(Records(src)).value]), name)
  }

  lemma RewriteClosed(src: string, name: string, end: nat)
    requires ClosingFence(Records(src)) == Some(end)
    ensures MuseFrontmatter(src, name) ==
            FileHead(name, Escape(DescriptionText(src, name))) + TailLines(src, end + 1)
  {
    hide Records, ClosingFence, Escape, PlainDescription, AwkDescription, FileHead;
  }

  lemma NotFences(name: string, e: string)
    ensures !FenceLine(NameLine(name)) && !FenceLine(DescLine(e)) && FenceLine("---")
  {
    assert NameLine(name)[0] == 'n' && DescLine(e)[0] == 'd';
  }

  lemma EscapeControlFree(d: string)
    requires ControlFree(d)
    ensures ControlFree(Escape(d))
  {
    EscapeIsEsc(d);
    EscControlFree(d);
  }

  // ---- main results ----------------------------------------------------------------------------

  ghost predicate NoDoubleSpace(d: string) {
    forall k :: 0 <= k < |d| - 1 ==> !(d[k] == ' ' && d[k + 1] == ' ')
  }

  lemma DoubleSpaceCons(d: string)
    requires |d| >= 2
    ensures NoDoubleSpace(d) <==> !(d[0] == ' ' && d[1] == ' ') && NoDoubleSpace(d[1..])
  {
    if !(d[0] == ' ' && d[1] == ' ') && NoDoubleSpace(d[1..]) {
      forall k | 0 <= k < |d| - 1 ensures !(d[k] == ' ' && d[k + 1] == ' ') {
        if k > 0 { assert d[1..][k - 1] == d[k] && d[1..][k] == d[k + 1]; }
      }
    }
    if NoDoubleSpace(d) {
      forall k | 0 <= k < |d[1..]| - 1 ensures !(d[1..][k] == ' ' && d[1..][k + 1] == ' ') {
        assert d[1..][k] == d[k + 1] && d[1..][k + 1] == d[k + 2];
      }
    }
  }

  lemma {:induction false} SqueezeFixed(d: string)
    ensures TrSqueeze(d) == d <==> NoDoubleSpace(d)
    ensures |TrSqueeze(d)| <= |d| && NoDoubleSpace(TrSqueeze(d))
    ensures d != [] ==> TrSqueeze(d) != [] && TrSqueeze(d)[0] == d[0]
  {
    if |d| >= 2 {
      SqueezeFixed(d[1..]);
      DoubleSpaceCons(d);
      if !(d[0] == ' ' && d[1] == ' ') {
        assert TrSqueeze(d) == [d[0]] + TrSqueeze(d[1..]);
        DoubleSpaceCons(TrSqueeze(d));
        assert TrSqueeze(d)[1..] == TrSqueeze(d[1..]);
        if TrSqueeze(d) == d { assert d[1..] == TrSqueeze(d)[1..] == TrSqueeze(d[1..]); }
      }
    }
  }

  lemma EscapeInjective(c: string, d: string)
    requires ControlFree(c) && ControlFree(d) && Escape(c) == Escape(d)
    ensures c == d
  {
    UnescapeUndoesEscape(c);
    UnescapeUndoesEscape(d);
  }

  lemma RewriteIsPlain(src: string, name: string)
    requires ControlFree(name) && ClosingFence(Records(src)).Some?
    ensures PlainText(DescriptionText(src, name))
  {
    hide PlainDescription, AwkDescription, PlainText, ControlFree, Records;
    DescriptionIsPlain(AwkDescription(Records(src)[1..ClosingFence(Records(src)).value]), name);
  }

  lemma PlainEscapes(d: string, name: string)
    requires PlainText(d)
    ensures ControlFree(Escape(d)) && |Escape(d)| <= 2 * MAX_BYTES && Unquote(Printed(d)) == d
  {
    hide Escape, Esc, Unquote, Printed;
    EscapeIsEsc(d);
    EscLength(d);
    EscControlFree(d);
    PrintedReadsBack(d, name);
  }

  /** The shape of every rewrite: header, one escaped control-free line within its bounds, and
      the body byte for byte; the printed line reads back as the text that was escaped. */
  lemma RewriteShape(src: string, name: string)
    requires ControlFree(name) && ClosingFence(Records(src)).Some?
    ensures var d := DescriptionText(src, name);
            && MuseFrontmatter(src, name) ==
               FileHead(name, Escape(d)) + TailLines(src, ClosingFence(Records(src)).value + 1)
            && PlainText(d) && ControlFree(Escape(d)) && |Escape(d)| <= 2 * MAX_BYTES
            && Unquote(Printed(d)) == d
  {
    hide *;
    RewriteClosed(src, name, ClosingFence(Records(src)).value);
    RewriteIsPlain(src, name);
    PlainEscapes(DescriptionText(src, name), name);
  }

  /** Main result on stability: two rounds reach a fixed point, and one round does exactly when
      the description holds no two adjacent spaces. */
  lemma RewriteSettles(src: string, name: string)
    requires ControlFree(name)
    ensures var once := MuseFrontmatter(src, name);
            var twice := MuseFrontmatter(once, name);
            && MuseFrontmatter(twice, name) == twice
            && (ClosingFence(Records(src)).Some? ==> (twice == once <==> NoDoubleSpace(DescriptionText(src, name))))
  {
    if ClosingFence(Records(src)).Some? {
      var d := DescriptionText(src, name);
      var body := TailLines(src, ClosingFence(Records(src)).value + 1);
      hide MuseFrontmatter, Escape, FileHead, ClosingFence, Records, DescriptionText;
      RewriteShape(src, name);
      RewriteAgain(name, d, body);
      var c := TrSqueeze(d);
      SqueezeControlFree(d);
      SqueezeFixed(d);
      SqueezeFixed(c);
      RewriteAgain(name, c, body);
      if FileHead(name, Escape(c)) + body == FileHead(name, Escape(d)) + body {
        HeaderInjective(name, Escape(c), Escape(d), body);
        EscapeInjective(c, d);
      }
    }
  }

  lemma HeaderInjective(name: string, e: string, f: string, body: string)
    requires FileHead(name, e) + body == FileHead(name, f) + body
    ensures e == f
  {
    var front := "---\nname: \"" + name + "\"\ndescription: \"";
    var back := "\"\n---\n" + body;
    assert FileHead(name, e) + body == front + e + back;
    assert FileHead(name, f) + body == front + f + back;
    assert (front + e + back)[|front|..|front| + |e|] == e;
    assert (front + f + back)[|front|..|front| + |f|] == f;
  }
}
