/**
 Whole runs on one heartbeat file: any mix of installs (with any directives) and strips,
 started from a file that holds no complete block.
 */
module HeartbeatRuns {
  import opened Text
  import opened BlockScan
  import opened Render
  import opened Splice
  import opened Heartbeat

  // ---- what goes in front of a block is stable ------------------------------------------

  /** The frontmatter is found again in front of any text that does not start with a newline. */
  lemma FrontmatterFoundAgain(fm: string, x: string, y: string)
    requires fm != [] && FrontmatterEnd(fm + x) == |fm|
    requires y != [] ==> y[0] != '\n'
    ensures FrontmatterEnd(fm + y) == |fm|
  {
    var q := IndexIn(fm + x, "\n---\n", 4, |fm + x|).value;
    AtPrefix(fm, x, 0, "---\n");
    AtPrefix(fm, y, 0, "---\n");
    assert q + 5 <= |fm| by { AtChar(fm + x, q, "\n---\n", 4); }
    AtPrefix(fm, x, q, "\n---\n");
    AtPrefix(fm, y, q, "\n---\n");
    forall k | 4 <= k < q ensures !At(fm + y, k, "\n---\n") {
      AtPrefix(fm, x, k, "\n---\n");
      AtPrefix(fm, y, k, "\n---\n");
    }
    IndexIs(fm + y, "\n---\n", 4, |fm + y|, q);
    NewlinesUpTo(fm, x, y, q + 4);
  }

  lemma {:induction false} NewlinesUpTo(a: string, x: string, y: string, i: nat)
    requires i <= |a| && NewlinesEnd(a + x, i) == |a|
    requires y != [] ==> y[0] != '\n'
    ensures NewlinesEnd(a + y, i) == |a|
    decreases |a| - i
  {
    if i < |a| {
      assert (a + x)[i] == (a + y)[i] == '\n';
      NewlinesUpTo(a, x, y, i + 1);
    }
  }

  /** Two newlines can only close a frontmatter that ends the text. */
  lemma FrontmatterClosedByNewlines(c: string, x: string)
    requires c != [] && c[|c| - 1] != '\n' && AllNewlines(x) && FrontmatterEnd(c + x) == 0
    ensures FrontmatterEnd(c + "\n\n") in {0, |c| + 2}
  {
    var w := c + "\n\n";
    if FrontmatterEnd(w) != 0 {
      var q := IndexIn(w, "\n---\n", 4, |w|).value;
      AtChar(w, 0, "---\n", 3);
      AtChar(w, q, "\n---\n", 3);
      AtChar(w, q, "\n---\n", 4);
      assert q + 4 <= |c|;
      AtPrefix(c, "\n\n", 0, "---\n");
      AtPrefix(c, x, 0, "---\n");
      if q + 5 <= |c| {
        AtPrefix(c, "\n\n", q, "\n---\n");
        AtPrefix(c, x, q, "\n---\n");
      } else {
        assert forall k :: |c| <= k < |w| ==> w[k] == '\n';
      }
    }
  }

  lemma TwoNewlines()
    ensures AllNewlines("\n\n") && AllNewlines([])
  {
  }

  lemma BaseAgainWithFrontmatter(s: string)
    requires FrontmatterEnd(s) > 0
    ensures Base(Base(s)) == Base(s)
  {
    hide *;
    var n := FrontmatterEnd(s);
    var body := TrimNewlines(s[n..]);
    var y := if body == [] then [] else body + "\n\n";
    BaseIs(s);
    assert Base(s) == s[..n] + y by { assert s[..n] + [] == s[..n]; }
    assert s == s[..n] + s[n..];
    assert body != [] ==> y[0] == body[0] == s[n..][0] == s[n];
    FrontmatterFoundAgain(s[..n], s[n..], y);
    BaseIs(Base(s));
    assert Base(s)[n..] == y;
    TwoNewlines();
    TrimNewlinesUnique(y, body, if body == [] then [] else "\n\n");
    assert Base(s)[..n] == s[..n];
  }

  lemma BaseAgainWithout(s: string)
    requires FrontmatterEnd(s) == 0
    ensures Base(Base(s)) == Base(s)
  {
    var body := TrimNewlines(s);
    BaseIs(s);
    hide FrontmatterEnd, Base, TrimNewlines;
    assert s[0..] == s && s[..0] == [];
    BaseIs(Base(s));
    if body == [] {
      assert Base(s) == [];
    } else {
      assert Base(s) == body + "\n\n";
      assert s == body + s[|body|..];
      FrontmatterClosedByNewlines(body, s[|body|..]);
      TrimNewlinesUnique(Base(s), body, "\n\n");
      assert Base(s)[0..] == Base(s) && Base(s)[..|Base(s)|] == Base(s) && Base(s)[|Base(s)|..] == [];
      assert Base(s)[..0] + body + "\n\n" == Base(s);
    }
  }

  /** Stripping and installing again puts the block back where it was. */
  lemma BaseIdempotent(s: string)
    ensures Base(Base(s)) == Base(s)
  {
    hide Base, FrontmatterEnd;
    if FrontmatterEnd(s) > 0 { BaseAgainWithFrontmatter(s); } else { BaseAgainWithout(s); }
  }

  // ---- runs -----------------------------------------------------------------------------

  datatype Op = Install(d: Directive) | Strip

  ghost predicate ValidOps(ops: seq<Op>) {
    forall k :: 0 <= k < |ops| ==> ops[k].Install? ==> Valid(ops[k].d)
  }

  ghost function OpResult(content: Option<string>, op: Op): Option<string> {
    match op
    case Install(d) => Reconciled(content, d)
    case Strip => Stripped(content)
  }

  ghost function Run(content: Option<string>, ops: seq<Op>): Option<string>
    decreases |ops|
  {
    if ops == [] then content else OpResult(Run(content, ops[..|ops| - 1]), ops[|ops| - 1])
  }

  ghost predicate Blockless(content: Option<string>) {
    content.Some? ==> Blocks(content.value) == []
  }

  ghost function BaseOf(content: Option<string>): string {
    if content.None? then "" else Base(content.value)
  }

  /** The only contents a run can produce: the start, the base, or the base and one block. */
  ghost predicate Reachable(start: Option<string>, content: Option<string>) {
    || content == start
    || content == Some(BaseOf(start))
    || exists d :: Valid(d) && content == Some(BaseOf(start) + Rendered(d))
  }

  lemma BaseOfProperties(start: Option<string>)
    requires Blockless(start)
    ensures Blocks(BaseOf(start)) == [] && Base(BaseOf(start)) == BaseOf(start)
    ensures Blockless(Some(BaseOf(start)))
  {
    hide BlocksFrom, Base;
    if start.Some? {
      BaseHasNoBlock(start.value);
      BaseIdempotent(start.value);
    } else {
      EmptyBase();
    }
  }

  lemma EmptyBase()
    ensures Base("") == "" && Blocks("") == []
  {
  }

  lemma InstalledInForm(p: string, d: Directive)
    requires Blocks(p) == []
    ensures InForm(p + Rendered(d), p, d, [])
  {
    hide Rendered;
    assert p + Rendered(d) == p + Rendered(d) + [];
  }

  /** An install on any reachable content leaves the base and this directive's block, or nothing to do. */
  lemma InstallStep(start: Option<string>, content: Option<string>, d: Directive)
    requires Blockless(start) && Valid(d) && Reachable(start, content)
    ensures Settled(Reconciled(content, d), d) && Reachable(start, Reconciled(content, d))
  {
    BaseOfProperties(start);
    var p := BaseOf(start);
    if content == start || content == Some(p) {
      var a, t := FirstWrite(content, d);
      OneWriteSettles(content, d);
      assert Reconciled(content, d) == Some(p + Rendered(d)) by {
        hide Rendered, Base;
        assert a == p && t == [];
        assert a + Rendered(d) + t == p + Rendered(d);
      }
    } else {
      var d0 :| Valid(d0) && content == Some(p + Rendered(d0));
      InstalledInForm(p, d0);
      BlocksInForm(p + Rendered(d0), p, d0, []);
      OneWriteSettles(content, d);
      WriteInForm(p + Rendered(d0), p, d0, [], d);
      NothingToStrip([]);
      assert p + Rendered(d) + [] == p + Rendered(d);
    }
  }

  lemma StripStep(start: Option<string>, content: Option<string>)
    requires Blockless(start) && Reachable(start, content)
    ensures Blockless(Stripped(content))
    ensures Stripped(content) == start || Stripped(content) == Some(BaseOf(start))
  {
    BaseOfProperties(start);
    var p := BaseOf(start);
    hide BaseOf, BlocksFrom, Rendered, Kept;
    if content == start || content == Some(p) {
      if content.Some? { NothingToStrip(content.value); }
    } else {
      var d :| Valid(d) && content == Some(p + Rendered(d));
      StripInstalled(p, d);
    }
  }

  lemma StripInstalled(p: string, d: Directive)
    requires Blocks(p) == [] && Valid(d)
    ensures Kept(p + Rendered(d), 0) == p
  {
    hide Rendered, BlocksFrom, Kept;
    InstalledInForm(p, d);
    var s := p + Rendered(d);
    BlocksInForm(s, p, d, []);
    KeptBeforeFirst(s);
    KeptAfterFirst(s);
    EmptyBase();
    NothingToStrip([]);
  }

  lemma {:induction false} RunReachable(start: Option<string>, ops: seq<Op>)
    requires Blockless(start) && ValidOps(ops)
    ensures Reachable(start, Run(start, ops))
    decreases |ops|
  {
    if ops != [] {
      var before := ops[..|ops| - 1];
      RunReachable(start, before);
      hide Reachable, Blockless, Reconciled, Stripped;
      var op := ops[|ops| - 1];
      match op
      case Install(d) => InstallStep(start, Run(start, before), d);
      case Strip =>
        StripStep(start, Run(start, before));
        StrippedReachable(start, Stripped(Run(start, before)));
    }
  }

  lemma StrippedReachable(start: Option<string>, content: Option<string>)
    requires content == start || content == Some(BaseOf(start))
    ensures Reachable(start, content)
  {
  }

  /** Main result on installs and uninstalls: after any run that ends in a strip the user's text
      is back up to its final newlines, with its frontmatter in place and no block left. A file
      that did not exist is never more than empty. */
  lemma RoundTrip(start: Option<string>, ops: seq<Op>)
    requires Blockless(start) && ValidOps(ops)
    ensures var end := Run(start, ops + [Strip]);
            && Blockless(end)
            && (start.None? ==> end == None || end == Some(""))
            && (start.Some? ==>
                  && end.Some?
                  && TrimNewlines(end.value) == TrimNewlines(start.value)
                  && (var n := FrontmatterEnd(start.value);
                      n > 0 ==> FrontmatterEnd(end.value) == n <= |end.value| && end.value[..n] == start.value[..n]))
  {
    var content := Run(start, ops);
    RunReachable(start, ops);
    assert (ops + [Strip])[..|ops|] == ops;
    assert Run(start, ops + [Strip]) == Stripped(content);
    StripStep(start, content);
    if start.Some? {
      BaseTrims(start.value);
      FrontmatterStays(start.value);
    }
  }

  lemma FrontmatterStays(s: string)
    ensures var n := FrontmatterEnd(s);
            n > 0 ==> FrontmatterEnd(Base(s)) == n <= |Base(s)| && Base(s)[..n] == s[..n]
  {
    BaseIs(s);
    var n := FrontmatterEnd(s);
    var body := TrimNewlines(s[n..]);
    if n > 0 {
      var y := if body == [] then [] else body + "\n\n";
      assert Base(s) == s[..n] + y;
      assert s == s[..n] + s[n..];
      assert body != [] ==> y[0] == s[n];
      FrontmatterFoundAgain(s[..n], s[n..], y);
    }
  }

  lemma ClosedFence()
    ensures FrontmatterEnd("---\na\n---\n\n") > 0
  {
    assert At("---\na\n---\n\n", 5, "\n---\n");
  }

  /** Without frontmatter to start with, the added newlines can turn an unterminated fence into one. */
  lemma FrontmatterCanAppear()
    ensures FrontmatterEnd("---\na\n---") == 0 && FrontmatterEnd(Base("---\na\n---")) > 0
  {
    hide Base;
    var s := "---\na\n---";
    BaseIs(s);
    assert s[0..] == s && s[..0] + s == s;
    assert s + "\n\n" == "---\na\n---\n\n";
    ClosedFence();
  }

  // ---- nothing of the user's is lost ------------------------------------------------------

  /** A write keeps every byte outside the blocks, in order; a first block only replaces the final newlines. */
  lemma WriteKeepsUserBytes(s: string, d: Directive) returns (p: string, q: string)
    ensures Written(Some(s), d) == p + Rendered(d) + q
    ensures Blocks(s) != [] ==> p + q == Kept(s, 0)
    ensures Blocks(s) == [] ==> q == "" && TrimNewlines(p) == TrimNewlines(s)
  {
    hide Rendered, Kept;
    if Blocks(s) == [] {
      p, q := Base(s), "";
      BaseTrims(s);
      assert p + Rendered(d) == p + Rendered(d) + q;
    } else {
      KeptBeforeFirst(s);
      BlocksInRange(s);
      assert Blocks(s)[0] in Blocks(s);
      p, q := s[..Blocks(s)[0].start], Kept(s, Blocks(s)[0].end);
    }
  }

  // ---- repeated strips --------------------------------------------------------------------

  ghost function Strips(s: string, n: nat): string
    decreases n
  {
    if n == 0 then s else Strips(Kept(s, 0), n - 1)
  }

  lemma {:induction false} StripShrinks(s: string, n: nat)
    requires n == |s|
    ensures |Kept(s, 0)| <= |s| && (Blocks(s) != [] ==> |Kept(s, 0)| < |s|)
  {
    if Blocks(s) == [] {
      NothingToStrip(s);
    } else {
      FirstBlock(s);
      KeptBeforeFirst(s);
      KeptAfterFirst(s);
      KeptStart(s[Blocks(s)[0].end..], |s| - Blocks(s)[0].end);
    }
  }

  /** Strips reach a text without a block, in at most as many steps as the text has bytes. */
  lemma {:induction false} StripsConverge(s: string, n: nat)
    requires |s| <= n
    ensures Blocks(Strips(s, n)) == []
    decreases n
  {
    hide Kept, BlocksFrom;
    StripShrinks(s, |s|);
    if n == 0 {
      NoBlocksInEmpty(s);
    } else if Blocks(s) == [] {
      NothingToStrip(s);
      StripsStay(s, n);
    } else {
      StripsConverge(Kept(s, 0), n - 1);
    }
  }

  lemma NoBlocksInEmpty(s: string)
    requires s == []
    ensures Blocks(s) == []
  {
  }

  lemma {:induction false} StripsStay(s: string, n: nat)
    requires Blocks(s) == []
    ensures Strips(s, n) == s
    decreases n
  {
    NothingToStrip(s);
    if n > 0 { StripsStay(s, n - 1); }
  }

  /** One strip is not always enough: cutting a block can join an open begin comment to a stray end token. */
  lemma OneStripMayNotSuffice(d: Directive)
    requires Valid(d)
    ensures var head := HEADER + "a" + " " + CLOSE + "\n" + "" + "\n";
            var s := head + Rendered(d) + (END + "\n");
            |Blocks(s)| == 1 && Blocks(Kept(s, 0)) != []
  {
    var head := HEADER + "a" + " " + CLOSE + "\n" + "" + "\n";
    var stray := END + "\n";
    assert stray[0] == '<';
    StrayHasNoBlock();
    HeadHasNoBlock();
    assert InForm(head + Rendered(d) + stray, head, d, stray);
    var s := head + Rendered(d) + stray;
    BlocksInForm(s, head, d, stray);
    hide Rendered, BlocksFrom, Kept;
    KeptBeforeFirst(s);
    KeptAfterFirst(s);
    NothingToStrip(stray);
    assert Kept(s, 0) == head + stray;
    JoinedIsBlock();
  }

  lemma JoinedIsBlock()
    ensures Blocks(HEADER + "a" + " " + CLOSE + "\n" + "" + "\n" + (END + "\n")) != []
  {
    var f := Frame("a", " ", "");
    assert f == HEADER + "a" + " " + CLOSE + "\n" + "" + "\n" + (END + "\n");
    FrameIsBlock("a", " ", "", []);
    assert f + [] == f;
    TakeBlock(f, 0);
  }

  lemma StrayHasNoBlock()
    ensures Blocks(END + "\n") == []
  {
    forall k | 0 <= k < 19 ensures !At(END + "\n", k, BEGIN) { FrameEndUnbegun([], [], k); }
    SkipUnbegun(END + "\n", 0, 19);
  }

  lemma HeadHasNoBlock()
    ensures Blocks(HEADER + "a" + " " + CLOSE + "\n" + "" + "\n") == []
  {
    var head := HEADER + "a" + " " + CLOSE + "\n" + "" + "\n";
    assert |head| == 33;
    SkipTo(head, 0, 33);
  }
}
