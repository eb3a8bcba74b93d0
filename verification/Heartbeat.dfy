/**
 One heartbeat file: classify, write, strip (`classifyMarker`, `writeMarker`,
 `stripMarkerFile`), and what whole runs of installs and uninstalls do to it.
 */
module Heartbeat {
  import opened Text
  import opened BlockScan
  import opened Render
  import opened Splice
  import opened Outcomes

  /** What a tick wants in the file: the rendered heartbeat and the two hashes of its block. */
  datatype Directive = Directive(ref: string, hash: string, r: string)

  ghost predicate Valid(d: Directive) {
    ValidRef(d.ref) && ValidHash(d.hash) && ValidHash(d.r)
  }

  function Rendered(d: Directive): string {
    RenderMarker(d.ref, d.hash, d.r)
  }

  // ---- frontmatter and the place where a first block goes ------------------------------

  /** Length of the YAML frontmatter (`frontmatterRE`), 0 if there is none. */
  function FrontmatterEnd(s: string): (n: nat)
    ensures n <= |s|
    ensures n > 0 ==> n > 5 && s[n - 1] == '\n' && (n < |s| ==> s[n] != '\n')
  {
    if !At(s, 0, "---\n") then 0
    else
      var q := IndexIn(s, "\n---\n", 4, |s|);
      if q.None? then 0
      else
        AtChar(s, q.value, "\n---\n", 4);
        NewlinesEnd(s, q.value + 4)
  }

  function SplitFrontmatter(s: string): (string, string) {
    (s[..FrontmatterEnd(s)], s[FrontmatterEnd(s)..])
  }

  /** What `writeMarker` puts in front of a first block. */
  function Base(s: string): string {
    var (frontmatter, rest) := SplitFrontmatter(s);
    var body := TrimNewlines(rest);
    var sep := if frontmatter != "" && frontmatter[|frontmatter| - 1] != '\n' then "\n" else "";
    var bodySep := if body != "" then "\n\n" else "";
    frontmatter + sep + body + bodySep
  }

  // ---- the specification functions -----------------------------------------------------

  function ClassifyMarker(content: Option<string>, hash: string, r: string): State {
    match content
    case None => Absent
    case Some(s) =>
      var bs := Blocks(s);
      if bs == [] then Absent
      else if |bs| > 1 then Drifted
      else if bs[0].hash == hash && bs[0].r == r then Identical
      else Drifted
  }

  ghost function Written(content: Option<string>, d: Directive): string {
    match content
    case None => Rendered(d)
    case Some(s) =>
      if Blocks(s) == [] then Base(s) + Rendered(d)
      else
        BlocksInRange(s);
        assert Blocks(s)[0] in Blocks(s);
        s[..Blocks(s)[0].start] + Rendered(d) + Kept(s, Blocks(s)[0].end)
  }

  /** One tick on the file. */
  ghost function Reconciled(content: Option<string>, d: Directive): Option<string> {
    if ActionFor(ClassifyMarker(content, d.hash, d.r)) == Noop then content else Some(Written(content, d))
  }

  /** One strip of the file. */
  ghost function Stripped(content: Option<string>): Option<string> {
    match content
    case None => None
    case Some(s) => Some(Kept(s, 0))
  }

  // ---- the file itself -----------------------------------------------------------------

  class UserFile {
    var content: Option<string>

    constructor (content: Option<string>)
      ensures this.content == content
    {
      this.content := content;
    }

    method Classify(hash: string, r: string) returns (state: State)
      ensures state == ClassifyMarker(content, hash, r)
    {
      if content.None? { return Absent; }
      var blocks := FindMarkers(content.value);
      if |blocks| == 0 { return Absent; }
      if |blocks| > 1 { return Drifted; }
      state := if blocks[0].hash == hash && blocks[0].r == r then Identical else Drifted;
    }

    method WriteMarker(d: Directive)
      modifies this
      ensures content == Some(Written(old(content), d))
    {
      var block := Rendered(d);
      var next;
      if content.None? {
        next := block;
      } else {
        var current := content.value;
        var blocks := FindMarkers(current);
        if |blocks| > 0 {
          next := SpliceMarker(current, blocks, block);
        } else {
          next := Base(current) + block;
        }
      }
      content := Some(next);
    }

    method Reconcile(d: Directive) returns (state: State, action: Action)
      modifies this
      ensures state == ClassifyMarker(old(content), d.hash, d.r) && action == ActionFor(state)
      ensures content == Reconciled(old(content), d)
    {
      state := Classify(d.hash, d.r);
      action := ActionFor(state);
      if action != Noop { WriteMarker(d); }
    }

    /** Returns whether the file was rewritten; a file is never deleted. */
    method StripMarkerFile() returns (stripped: bool)
      modifies this
      ensures content == Stripped(old(content))
      ensures stripped <==> old(content).Some? && Blocks(old(content).value) != []
    {
      if content.None? { return false; }
      var cur := content.value;
      var blocks := FindMarkers(cur);
      if |blocks| == 0 {
        NothingToStrip(cur);
        return false;
      }
      var next := SpliceMarker(cur, blocks, "");
      KeptBeforeFirst(cur);
      assert cur[..blocks[0].start] + "" == cur[..blocks[0].start];
      content := Some(next);
      stripped := true;
    }
  }

  lemma NothingToStrip(s: string)
    requires Blocks(s) == []
    ensures Kept(s, 0) == s
  {
    KeepAll(s, 0, |s|);
    assert s[0..|s|] + Kept(s, |s|) == s;
  }

  // ---- the text around the first block --------------------------------------------------

  lemma NoNewlineAfterBlock(s: string, p: nat)
    requires BlockAt(s, p).Some?
    ensures var n := BlockAt(s, p).value.end; n < |s| ==> s[n] != '\n'
  {
    var x, e := BlockAtSound(s, p);
  }

  /** Before the first block there is no complete block; after it, the rest is scanned on its own. */
  lemma FirstBlock(s: string)
    requires Blocks(s) != []
    ensures var b := Blocks(s)[0];
            && b.start < b.end <= |s| && BlockAt(s, b.start) == Some(b)
            && Blocks(s[..b.start]) == []
            && Blocks(s) == [b] + ShiftBlocks(b.end, Blocks(s[b.end..]))
            && (s[b.end..] != [] ==> s[b.end..][0] != '\n')
  {
    hide BlockAt, At;
    BlocksInRange(s);
    var b := Blocks(s)[0];
    assert b in Blocks(s);
    var a, x := s[..b.start], s[b.start..];
    assert s == a + x;
    BeginsAtBlock(s, b.start);
    AtShift(a, x, 0, BEGIN);
    BlocksSplit(a, x, 0);
    assert Blocks(a) != [] ==> Blocks(a)[0] == b;
    BlocksInRange(a);
    TakeBlock(s, b.start);
    assert s == s[..b.end] + s[b.end..];
    BlocksShift(s[..b.end], s[b.end..], 0);
    NoNewlineAfterBlock(s, b.start);
  }

  lemma CoveredShift(s: string, n: nat, bs: seq<Block>, i: nat)
    requires n <= |s| && Blocks(s) == bs + ShiftBlocks(n, Blocks(s[n..]))
    requires forall b :: b in bs ==> b.end <= n
    ensures Covered(s, n + i) <==> Covered(s[n..], i)
  {
    var t := s[n..];
    if Covered(t, i) {
      var b :| b in Blocks(t) && b.start <= i < b.end;
      var k :| 0 <= k < |Blocks(t)| && Blocks(t)[k] == b;
      assert Blocks(s)[|bs| + k] == ShiftBlock(n, b);
      assert ShiftBlock(n, b) in Blocks(s);
    }
    if Covered(s, n + i) {
      var c :| c in Blocks(s) && c.start <= n + i < c.end;
      assert c !in bs;
      var k :| 0 <= k < |Blocks(t)| && ShiftBlock(n, Blocks(t)[k]) == c;
      assert Blocks(t)[k] in Blocks(t);
    }
  }

  lemma {:induction false} KeptShift(s: string, n: nat, bs: seq<Block>, i: nat)
    requires n <= |s| && Blocks(s) == bs + ShiftBlocks(n, Blocks(s[n..]))
    requires forall b :: b in bs ==> b.end <= n
    ensures Kept(s, n + i) == Kept(s[n..], i)
    decreases |s| - i
  {
    hide *;
    KeptStep(s, n + i);
    KeptStep(s[n..], i);
    if n + i < |s| {
      CoveredShift(s, n, bs, i);
      KeptShift(s, n, bs, i + 1);
    }
  }

  /** What is kept after the first block is what is kept of the rest of the text. */
  lemma KeptAfterFirst(s: string)
    requires Blocks(s) != []
    ensures Blocks(s)[0].end <= |s| && Kept(s, Blocks(s)[0].end) == Kept(s[Blocks(s)[0].end..], 0)
  {
    hide BlocksFrom, BlockAt, Kept;
    FirstBlock(s);
    KeptShift(s, Blocks(s)[0].end, [Blocks(s)[0]], 0);
  }

  /** Cutting blocks never leaves a text that starts with a newline where there was none. */
  lemma {:induction false} KeptStart(s: string, n: nat)
    requires s != [] ==> s[0] != '\n'
    requires n == |s|
    ensures Kept(s, 0) != [] ==> Kept(s, 0)[0] != '\n'
    ensures |Kept(s, 0)| <= |s| && (Blocks(s) != [] ==> |Kept(s, 0)| < |s|)
    decreases n
  {
    if Blocks(s) == [] {
      NothingToStrip(s);
    } else {
      FirstBlock(s);
      KeptBeforeFirst(s);
      KeptAfterFirst(s);
      var b := Blocks(s)[0];
      KeptStart(s[b.end..], n - b.end);
    }
  }

  // ---- trailing newlines ----------------------------------------------------------------

  /** No block ends in a run of newlines that was not there: such a run can be replaced by another. */
  lemma BlockIgnoresNewlines(c: string, y: string, p: nat)
    requires AllNewlines(y) && (c != [] ==> c[|c| - 1] != '\n')
    ensures BlockAt(c + y, p).Some? <==> BlockAt(c, p).Some?
  {
    hide BlockAt, BlockOf;
    if BlockAt(c + y, p).Some? {
      var h, e := BlockAtSound(c + y, p);
      EndsBeforeNewlines(c, y, h, e);
      hide IsBlock;
      BlockPrefix(c, y, h, e);
      BlockAtComplete(c, h, e);
    } else if BlockAt(c, p).Some? {
      var h, e := BlockAtSound(c, p);
      hide IsBlock;
      BlockBounds(c, h, e);
      BlockPrefix(c, y, h, e);
      BlockAtComplete(c + y, h, e);
    }
  }

  lemma EndsBeforeNewlines(c: string, y: string, h: Header, e: nat)
    requires AllNewlines(y) && At(c + y, e, END)
    ensures e + 18 <= |c|
  {
    TokenShape();
    AtChar(c + y, e, END, 17);
  }

  lemma {:induction false} NoBlockIgnoresNewlines(c: string, y: string, i: nat)
    requires AllNewlines(y) && (c != [] ==> c[|c| - 1] != '\n')
    ensures BlocksFrom(c + y, i) == [] <==> BlocksFrom(c, i) == []
    decreases |c + y| - i
  {
    hide *;
    BlocksFromStep(c + y, i);
    BlocksFromStep(c, i);
    BlocksFromStep(c, i + 1);
    if i < |c + y| {
      BlockIgnoresNewlines(c, y, i);
      NoBlockIgnoresNewlines(c, y, i + 1);
      if i >= |c| { BlockNeedsRoom(c, i); }
    }
  }

  lemma BlockNeedsRoom(s: string, p: nat)
    requires p >= |s|
    ensures BlockAt(s, p).None?
  {
  }

  lemma BaseWithBody(fm: string, rest: string)
    requires TrimNewlines(rest) != []
    ensures TrimNewlines(fm + rest) == fm + TrimNewlines(rest)
  {
    var body := TrimNewlines(rest);
    assert rest == body + rest[|body|..];
    assert fm + rest == (fm + body) + rest[|body|..];
    TrimNewlinesUnique(fm + rest, fm + body, rest[|body|..]);
  }

  lemma BaseIs(s: string)
    ensures var n := FrontmatterEnd(s);
            var body := TrimNewlines(s[n..]);
            && (body != [] ==> Base(s) == (s[..n] + body) + "\n\n")
            && (body == [] ==> Base(s) == s[..n])
            && (n > 0 && n < |s| ==> s[n] != '\n')
  {
    var n := FrontmatterEnd(s);
    hide FrontmatterEnd;
    assert s[..n] + "" == s[..n] && s[..n] + "" + "" + "" == s[..n];
  }

  /** What goes in front of a first block is the user's text, up to its final run of newlines. */
  lemma BaseKeepsText(s: string)
    ensures var c := TrimNewlines(s);
            |c| <= |Base(s)| && Base(s)[..|c|] == c && AllNewlines(Base(s)[|c|..])
  {
    hide FrontmatterEnd, Base, TrimNewlines;
    BaseIs(s);
    var n := FrontmatterEnd(s);
    var body := TrimNewlines(s[n..]);
    assert s == s[..n] + s[n..];
    if body != [] {
      BaseWithBody(s[..n], s[n..]);
      var c := s[..n] + body;
      assert Base(s)[..|c|] == c && Base(s)[|c|..] == "\n\n";
    } else {
      assert n < |s| ==> s[n..][|body|..][0] == s[n] == '\n';
      assert n > 0 ==> Base(s) == s;
      assert n == 0 ==> s[n..] == s && Base(s) == [];
    }
  }

  lemma BaseTrims(s: string)
    ensures TrimNewlines(Base(s)) == TrimNewlines(s)
  {
    hide FrontmatterEnd, Base;
    BaseKeepsText(s);
    var c := TrimNewlines(s);
    assert Base(s) == c + Base(s)[|c|..];
    TrimNewlinesUnique(Base(s), c, Base(s)[|c|..]);
  }

  lemma BaseHasNoBlock(s: string)
    requires Blocks(s) == []
    ensures Blocks(Base(s)) == []
  {
    hide BlocksFrom, Base;
    BaseKeepsText(s);
    var c := TrimNewlines(s);
    assert s == c + s[|c|..] && Base(s) == c + Base(s)[|c|..];
    NoBlockIgnoresNewlines(c, s[|c|..], 0);
    NoBlockIgnoresNewlines(c, Base(s)[|c|..], 0);
  }

  // ---- convergence of repeated ticks ------------------------------------------------------

  /** The shape of the file after a first write: text without a block, the block, the rest. */
  ghost predicate InForm(s: string, a: string, d: Directive, t: string) {
    s == a + Rendered(d) + t && Blocks(a) == [] && (t != [] ==> t[0] != '\n')
  }

  lemma BlocksInForm(s: string, a: string, d: Directive, t: string)
    requires Valid(d) && InForm(s, a, d, t)
    ensures Blocks(s) == [Block(|a|, |a| + |Rendered(d)|, d.hash, d.r)] + ShiftBlocks(|a| + |Rendered(d)|, Blocks(t))
    ensures s[..|a|] == a && s[|a| + |Rendered(d)|..] == t
  {
    RenderRestValid(d.r);
    assert Rendered(d) == Frame(d.hash, RenderRest(d.r), d.ref);
    hide Rendered, Frame, RenderRest, RenderField, BlocksFrom, ShiftBlocks, ValidRef, ValidRest;
    ScanDistributes(a, d.hash, RenderRest(d.r), d.ref, t);
  }

  /** A write on a file in form keeps the text before the block and cuts the blocks of the rest. */
  lemma WriteInForm(s: string, a: string, d: Directive, t: string, d': Directive)
    requires Valid(d) && Valid(d') && InForm(s, a, d, t)
    ensures Written(Some(s), d') == a + Rendered(d') + Kept(t, 0)
    ensures InForm(Written(Some(s), d'), a, d', Kept(t, 0))
  {
    hide Rendered;
    BlocksInForm(s, a, d, t);
    KeptAfterFirst(s);
    KeptStart(t, |t|);
  }

  /** The first write brings any file into form; with at most one block, nothing is left to cut. */
  lemma FirstWrite(content: Option<string>, d: Directive) returns (a: string, t: string)
    requires Valid(d)
    ensures InForm(Written(content, d), a, d, t)
    ensures content.None? || |Blocks(content.value)| <= 1 ==> Blocks(t) == []
    ensures content.Some? && Blocks(content.value) == [] ==> a == Base(content.value) && t == []
    ensures content.Some? && Blocks(content.value) != [] ==>
              var n := Blocks(content.value)[0].end; n <= |content.value| && t == Kept(content.value[n..], 0)
    ensures content.None? ==> a == [] && t == []
    ensures content.Some? ==> |t| <= |content.value|
  {
    hide Rendered;
    a, t := [], [];
    if content.Some? {
      var s := content.value;
      if Blocks(s) == [] {
        a := Base(s);
        BaseHasNoBlock(s);
        assert Written(content, d) == a + Rendered(d) + t;
      } else {
        FirstBlock(s);
        KeptAfterFirst(s);
        var b := Blocks(s)[0];
        KeptStart(s[b.end..], |s| - b.end);
        a, t := s[..b.start], Kept(s[b.end..], 0);
        if |Blocks(s)| == 1 { NothingToStrip(s[b.end..]); }
      }
    } else {
      assert Written(content, d) == a + Rendered(d) + t;
    }
  }

  /** Exactly one block, with the directive's hashes. */
  ghost predicate Settled(content: Option<string>, d: Directive) {
    && content.Some?
    && |Blocks(content.value)| == 1
    && Blocks(content.value)[0].hash == d.hash && Blocks(content.value)[0].r == d.r
  }

  ghost function Ticks(content: Option<string>, d: Directive, n: nat): Option<string>
    decreases n
  {
    if n == 0 then content else Ticks(Reconciled(content, d), d, n - 1)
  }

  lemma {:induction false} SettledStays(content: Option<string>, d: Directive, n: nat)
    requires Settled(content, d)
    ensures Reconciled(content, d) == content && Ticks(content, d, n) == content
  {
    if n > 0 { SettledStays(content, d, n - 1); }
  }

  /** One tick is enough for a file with at most one block. */
  lemma OneWriteSettles(content: Option<string>, d: Directive)
    requires Valid(d) && (content.Some? ==> |Blocks(content.value)| <= 1)
    ensures Settled(Reconciled(content, d), d)
  {
    if !Settled(content, d) {
      var a, t := FirstWrite(content, d);
      BlocksInForm(Written(content, d), a, d, t);
    }
  }

  /** A file in form is settled or loses the blocks of its rest with the next write. */
  lemma InFormStep(s: string, a: string, d: Directive, t: string)
    requires Valid(d) && InForm(s, a, d, t)
    ensures Settled(Some(s), d) <==> Blocks(t) == []
    ensures Blocks(t) != [] ==> InForm(Written(Some(s), d), a, d, Kept(t, 0)) && |Kept(t, 0)| < |t|
  {
    hide Rendered, BlocksFrom, Kept, Written;
    BlocksInForm(s, a, d, t);
    if Blocks(t) != [] {
      KeptStart(t, |t|);
      WriteInForm(s, a, d, t, d);
    }
  }

  lemma TicksStep(content: Option<string>, d: Directive, n: nat)
    requires !Settled(content, d) && n > 0
    ensures Ticks(content, d, n) == Ticks(Some(Written(content, d)), d, n - 1)
  {
    hide Written, BlocksFrom;
  }

  lemma {:induction false} InFormSettles(s: string, a: string, d: Directive, t: string, n: nat)
    requires Valid(d) && InForm(s, a, d, t) && |t| <= n
    ensures Settled(Ticks(Some(s), d, n), d)
    decreases |t|
  {
    hide *;
    InFormStep(s, a, d, t);
    if Settled(Some(s), d) {
      SettledStays(Some(s), d, n);
    } else {
      TicksStep(Some(s), d, n);
      InFormSettles(Written(Some(s), d), a, d, Kept(t, 0), n - 1);
    }
  }

  /** Main result on runs: whatever the file holds, ticks reach exactly one block with the
      wanted hashes and then leave the file alone. */
  lemma TicksConverge(content: Option<string>, d: Directive, n: nat)
    requires Valid(d) && n > (if content.Some? then |content.value| else 0)
    ensures Settled(Ticks(content, d, n), d)
    ensures Reconciled(Ticks(content, d, n), d) == Ticks(content, d, n)
  {
    hide *;
    if Settled(content, d) {
      SettledStays(content, d, n);
    } else {
      var a, t := FirstWrite(content, d);
      TicksStep(content, d, n);
      InFormSettles(Written(content, d), a, d, t, n - 1);
    }
    SettledStays(Ticks(content, d, n), d, 0);
  }

  /** As long as more than one block is left, every write shortens the text after the first one. */
  lemma WriteShrinksRest(s: string, d: Directive)
    requires Valid(d) && |Blocks(s)| > 1
    ensures var w := Written(Some(s), d);
            && Blocks(w) != [] && Blocks(w)[0].end <= |w| && Blocks(s)[0].end <= |s|
            && |w[Blocks(w)[0].end..]| < |s[Blocks(s)[0].end..]|
  {
    hide Rendered;
    var a, t := FirstWrite(Some(s), d);
    var w := Written(Some(s), d);
    BlocksInForm(w, a, d, t);
    FirstBlock(s);
    var rest := s[Blocks(s)[0].end..];
    assert |Blocks(rest)| > 0;
    KeptStart(rest, |rest|);
  }
}
