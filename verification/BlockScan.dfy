/**
 The marker scanner: `findMarkers` and the pattern it scans for.

 `BlockAt` says, for one position, whether a complete block starts there; `Blocks` lists
 the complete blocks of a text by asking that at every position. The scan loop, with its
 resume rules and its early exit, is proved to return exactly that list.
 */
module BlockScan {
  import opened Text

  const BEGIN := "<!-- pilot:begin"
  const END := "<!-- pilot:end -->"
  const HEADER := "<!-- pilot:begin v=1 hash="
  const CLOSE := "-->"

  /** One complete marker block: byte span (trailing newlines included) and header fields. */
  datatype Block = Block(start: nat, end: nat, hash: string, r: string)

  predicate Hex(c: char) {
    '0' <= c <= '9' || 'a' <= c <= 'f'
  }

  predicate AllHex(s: string) {
    forall k :: 0 <= k < |s| ==> Hex(s[k])
  }

  /** Both tokens hold `<` only as their first byte, the begin token no `>`, and neither a newline. */
  lemma TokenShape()
    ensures |BEGIN| == 16 && |END| == 18 && |HEADER| == 26
    ensures BEGIN[0] == '<' && END[0] == '<' && BEGIN[11] != END[11]
    ensures forall i :: 1 <= i < |BEGIN| ==> BEGIN[i] != '<'
    ensures forall i :: 1 <= i < |END| ==> END[i] != '<'
    ensures forall i :: 1 <= i < |HEADER| ==> HEADER[i] != '<'
    ensures forall i :: 0 <= i < |HEADER| ==> HEADER[i] != '>' && HEADER[i] != '\n'
    ensures forall i :: 0 <= i < |END| ==> END[i] != '\n'
    ensures END[17] == '>' && HEADER[..16] == BEGIN
  {
  }

  // ---- the header pattern -------------------------------------------------------------

  /** End of the maximal run of hex digits starting at `i`. */
  function HexEnd(s: string, i: nat): (r: nat)
    requires i <= |s|
    ensures i <= r <= |s|
    ensures forall k :: i <= k < r ==> Hex(s[k])
    ensures r < |s| ==> !Hex(s[r])
    decreases |s| - i
  {
    if i < |s| && Hex(s[i]) then HexEnd(s, i + 1) else i
  }

  /** The first `>` at or after `i`, or the end of the text. */
  function FirstAngle(s: string, i: nat): (r: nat)
    requires i <= |s|
    ensures i <= r <= |s|
    ensures forall k :: i <= k < r ==> s[k] != '>'
    ensures r < |s| ==> s[r] == '>'
    decreases |s| - i
  {
    if i < |s| && s[i] != '>' then FirstAngle(s, i + 1) else i
  }

  /** A begin comment: where it starts, where its hash ends, and the offset of its closing `>`. */
  datatype Header = Header(start: nat, hashEnd: nat, close: nat)

  /** A way for the header expression to match: literal, hex digits, text without `>`, `-->`. */
  ghost predicate PatternMatch(s: string, x: Header) {
    && At(s, x.start, HEADER)
    && x.start + 26 < x.hashEnd <= x.close - 2 < |s|
    && (forall k :: x.start + 26 <= k < x.hashEnd ==> Hex(s[k]))
    && At(s, x.close - 2, CLOSE)
    && (forall k :: x.hashEnd <= k < x.close - 2 ==> s[k] != '>')
  }

  /** The match the expression settles on: a maximal hex run, then the first `>` after it. */
  ghost predicate IsHeader(s: string, x: Header) {
    && PatternMatch(s, x)
    && !Hex(s[x.hashEnd])
  }

  /** The header match starting at `p`, if there is one. */
  function HeaderAt(s: string, p: nat): (r: Option<Header>)
    ensures r.Some? ==> r.value.start == p && p + 26 < r.value.hashEnd <= r.value.close - 2 < |s| - 2
  {
    if !At(s, p, HEADER) then None
    else
      var h := HexEnd(s, p + 26);
      var g := FirstAngle(s, h);
      if h == p + 26 || g == |s| || g < h + 2 || !At(s, g - 2, CLOSE) then None
      else Some(Header(p, h, g))
  }

  lemma HeaderAtSound(s: string, p: nat)
    requires HeaderAt(s, p).Some?
    ensures IsHeader(s, HeaderAt(s, p).value)
  {
    var x := HeaderAt(s, p).value;
    AtChar(s, x.close - 2, CLOSE, 0);
  }

  /** Every match of the header expression at one position has the same close, and the greedy hash is the longest. */
  lemma PatternMatchIsGreedy(s: string, x: Header)
    requires PatternMatch(s, x)
    ensures HeaderAt(s, x.start).Some?
    ensures x.close == HeaderAt(s, x.start).value.close && x.hashEnd <= HeaderAt(s, x.start).value.hashEnd
  {
    var h := HexEnd(s, x.start + 26);
    AtChar(s, x.close - 2, CLOSE, 0);
    AtChar(s, x.close - 2, CLOSE, 1);
    AtChar(s, x.close - 2, CLOSE, 2);
    assert x.hashEnd <= h <= x.close - 2;
    assert FirstAngle(s, h) == x.close;
  }

  lemma HeaderAtComplete(s: string, x: Header)
    ensures IsHeader(s, x) ==> HeaderAt(s, x.start) == Some(x)
  {
    if IsHeader(s, x) {
      PatternMatchIsGreedy(s, x);
      HeaderAtSound(s, x.start);
      assert HeaderAt(s, x.start).value.hashEnd == x.hashEnd;
    }
  }

  // ---- complete blocks ----------------------------------------------------------------

  /** A complete block: a header match with no other begin token inside it, then the first end
      token after the header, with no begin token before it. */
  ghost predicate IsBlock(s: string, x: Header, e: nat) {
    && IsHeader(s, x)
    && x.close < e
    && At(s, e, END)
    && NoneBetween(s, END, x.close, e)
    && NoneBetween(s, BEGIN, x.start, e)
  }

  /** The expression's `\s`. */
  predicate Space(c: char) {
    c == ' ' || c == '\t' || c == '\n' || c == '\r' || c == '\U{000C}'
  }

  /** `markerRenderRE` on the rest of the header: the `r=` field, or "". */
  function RenderField(rest: string): (r: string)
    ensures AllHex(r)
  {
    var e := if |rest| < 3 then 0 else HexEnd(rest, 3);
    if At(rest, 0, " r=") && 3 < e && (e == |rest| || Space(rest[e])) then rest[3..e] else ""
  }

  function BlockOf(s: string, x: Header, e: nat): Block
    requires x.start + 26 <= x.hashEnd <= x.close - 2 <= |s| && e + 18 <= |s|
  {
    Block(x.start, NewlinesEnd(s, e + 18), s[x.start + 26..x.hashEnd], RenderField(s[x.hashEnd..x.close - 2]))
  }

  /** The complete block starting at `p`, if there is one. */
  function BlockAt(s: string, p: nat): (r: Option<Block>)
    ensures r.Some? ==> r.value.start == p && p + 44 < r.value.end <= |s|
  {
    var x := HeaderAt(s, p);
    if x.None? then None
    else
      var e := IndexIn(s, END, x.value.close + 1, |s|);
      if e.None? || IndexIn(s, BEGIN, p + 1, e.value).Some? then None
      else Some(BlockOf(s, x.value, e.value))
  }

  /** The complete blocks starting at `i` or later, in order. */
  function BlocksFrom(s: string, i: nat): seq<Block>
    decreases |s| - i
  {
    if i >= |s| then []
    else (if BlockAt(s, i).Some? then [BlockAt(s, i).value] else []) + BlocksFrom(s, i + 1)
  }

  function Blocks(s: string): seq<Block> {
    BlocksFrom(s, 0)
  }

  /** A begin token never straddles the first byte of another token. */
  lemma NoStraddle(s: string, q: nat, e: nat, t: string)
    requires t == END || t == BEGIN || t == HEADER
    requires At(s, q, t) && q < e < q + |t|
    ensures !At(s, e, BEGIN) && !At(s, e, END)
  {
    TokenShape();
    AtChar(s, q, t, e - q);
    if At(s, e, BEGIN) { AtChar(s, e, BEGIN, 0); }
    if At(s, e, END) { AtChar(s, e, END, 0); }
  }

  lemma BeginIsNotEnd(s: string, p: nat)
    requires At(s, p, END)
    ensures !At(s, p, BEGIN)
  {
    AtChar(s, p, END, 11);
    if At(s, p, BEGIN) { AtChar(s, p, BEGIN, 11); }
  }

  lemma HeaderIsBegin(s: string, p: nat)
    requires At(s, p, HEADER)
    ensures At(s, p, BEGIN)
  {
    TokenShape();
    assert forall i :: 0 <= i < 16 ==> BEGIN[i] == HEADER[..16][i] == HEADER[i];
  }

  /** `BlockAt` finds only complete blocks ... */
  lemma BlockAtSound(s: string, p: nat) returns (x: Header, e: nat)
    requires BlockAt(s, p).Some?
    ensures IsBlock(s, x, e) && x.start == p && BlockAt(s, p).value == BlockOf(s, x, e)
  {
    hide RenderField, HeaderAt, BlockOf, IsHeader;
    x := HeaderAt(s, p).value;
    HeaderAtSound(s, p);
    e := IndexIn(s, END, x.close + 1, |s|).value;
    hide BlockAt;
    forall q | p < q < e ensures !At(s, q, BEGIN) {
      if At(s, q, BEGIN) && e < q + |BEGIN| { NoStraddle(s, q, e, BEGIN); }
    }
  }

  /** ... and finds every one of them. */
  lemma BlockAtComplete(s: string, x: Header, e: nat)
    ensures IsBlock(s, x, e) ==> BlockAt(s, x.start) == Some(BlockOf(s, x, e))
  {
    hide RenderField, HeaderAt, BlockOf;
    if IsBlock(s, x, e) {
      HeaderAtComplete(s, x);
      IndexIs(s, END, x.close + 1, |s|, e);
      assert IndexIn(s, BEGIN, x.start + 1, e).None?;
    }
  }

  // ---- what the list of blocks looks like -------------------------------------------------

  /** No begin token starts strictly inside a block's span. */
  lemma NoBeginInside(s: string, p: nat, q: nat)
    requires BlockAt(s, p).Some? && p < q < BlockAt(s, p).value.end
    ensures !At(s, q, BEGIN)
  {
    var x, e := BlockAtSound(s, p);
    hide BlockAt, HeaderAt;
    if e < q < e + 18 {
      NoStraddle(s, e, q, END);
    } else if e == q {
      BeginIsNotEnd(s, q);
    } else if At(s, q, BEGIN) {
      AtChar(s, q, BEGIN, 0);
    }
  }

  lemma NoBeginNoBlock(s: string, p: nat)
    requires !At(s, p, BEGIN)
    ensures BlockAt(s, p).None?
  {
    if At(s, p, HEADER) { HeaderIsBegin(s, p); }
  }

  lemma NoBlockInside(s: string, p: nat, q: nat)
    requires BlockAt(s, p).Some? && p < q < BlockAt(s, p).value.end
    ensures BlockAt(s, q).None?
  {
    NoBeginInside(s, p, q);
    NoBeginNoBlock(s, q);
  }

  /** Positions where no block starts can be skipped. */
  lemma {:induction false} SkipTo(s: string, i: nat, j: nat)
    requires i <= j && forall k :: i <= k < j ==> BlockAt(s, k).None?
    ensures BlocksFrom(s, i) == BlocksFrom(s, j)
    decreases j - i
  {
    if i < j { SkipTo(s, i + 1, j); }
  }

  lemma SkipUnbegun(s: string, i: nat, j: nat)
    requires i <= j && forall k :: i <= k < j ==> !At(s, k, BEGIN)
    ensures BlocksFrom(s, i) == BlocksFrom(s, j)
  {
    forall k: nat | i <= k < j ensures BlockAt(s, k).None? { NoBeginNoBlock(s, k); }
    SkipTo(s, i, j);
  }

  /** A block is followed by the blocks that start at or after its end. */
  lemma TakeBlock(s: string, p: nat)
    requires BlockAt(s, p).Some?
    ensures BlocksFrom(s, p) == [BlockAt(s, p).value] + BlocksFrom(s, BlockAt(s, p).value.end)
  {
    hide *;
    BlockSpan(s, p);
    BlocksFromStep(s, p);
  }

  lemma BlocksFromStep(s: string, i: nat)
    ensures i < |s| ==>
              BlocksFrom(s, i) == (if BlockAt(s, i).Some? then [BlockAt(s, i).value] else []) + BlocksFrom(s, i + 1)
    ensures |s| <= i ==> BlocksFrom(s, i) == []
  {
    hide BlockAt;
  }

  lemma BlockSpan(s: string, p: nat)
    requires BlockAt(s, p).Some?
    ensures p < |s| && BlocksFrom(s, p + 1) == BlocksFrom(s, BlockAt(s, p).value.end)
  {
    hide *;
    var end := BlockAt(s, p).value.end;
    forall k: nat | p < k < end ensures BlockAt(s, k).None? { NoBlockInside(s, p, k); }
    SkipTo(s, p + 1, end);
  }

  lemma StartsAt(s: string, p: nat)
    ensures BlockAt(s, p).Some? ==> p < |s| && BlockAt(s, p).value.start == p
  {
  }

  lemma {:induction false} InBlocksFrom(s: string, i: nat, b: Block)
    ensures b in BlocksFrom(s, i) <==> i <= b.start && BlockAt(s, b.start) == Some(b)
    decreases |s| - i
  {
    BlocksFromStep(s, i);
    hide BlockAt, BlocksFrom;
    if i < |s| {
      InBlocksFrom(s, i + 1, b);
      StartsAt(s, i);
    }
    StartsAt(s, b.start);
  }

  ghost predicate Ordered(bs: seq<Block>) {
    forall i, j :: 0 <= i < j < |bs| ==> bs[i].end <= bs[j].start
  }

  lemma {:induction false} BlocksFromOrdered(s: string, i: nat)
    ensures Ordered(BlocksFrom(s, i))
    decreases |s| - i
  {
    if i < |s| {
      BlocksFromOrdered(s, i + 1);
      if BlockAt(s, i).Some? {
        var b := BlockAt(s, i).value;
        TakeBlock(s, i);
        BlocksFromOrdered(s, b.end);
        forall c | c in BlocksFrom(s, b.end) ensures b.end <= c.start { InBlocksFrom(s, b.end, c); }
      }
    }
  }

  /** Main result on the scan: `Blocks` holds every complete block and nothing else, in
      ascending order and without overlaps. */
  lemma BlocksAreTheCompleteBlocks(s: string)
    ensures forall x, e :: IsBlock(s, x, e) ==> BlockOf(s, x, e) in Blocks(s)
    ensures forall b :: b in Blocks(s) ==> exists x, e :: IsBlock(s, x, e) && b == BlockOf(s, x, e)
    ensures Ordered(Blocks(s))
  {
    BlocksFromOrdered(s, 0);
    forall x, e | IsBlock(s, x, e) ensures BlockOf(s, x, e) in Blocks(s) {
      BlockAtComplete(s, x, e);
      InBlocksFrom(s, 0, BlockOf(s, x, e));
    }
    forall b | b in Blocks(s) ensures exists x, e :: IsBlock(s, x, e) && b == BlockOf(s, x, e) {
      InBlocksFrom(s, 0, b);
      var x, e := BlockAtSound(s, b.start);
    }
  }

  // ---- the scan loop ------------------------------------------------------------------

  /** `FindStringSubmatchIndex(s[pos:])`: the leftmost header match at or after `pos`. */
  function FindHeader(s: string, pos: nat): (r: Option<Header>)
    ensures r.Some? ==> pos <= r.value.start && HeaderAt(s, r.value.start) == r
    ensures forall k: nat :: pos <= k < (if r.Some? then r.value.start else |s|) ==> HeaderAt(s, k).None?
    decreases |s| - pos
  {
    if |s| <= pos then None
    else if HeaderAt(s, pos).Some? then HeaderAt(s, pos)
    else FindHeader(s, pos + 1)
  }

  /** Without an end token after a header, no later begin can be completed either. */
  lemma NothingAfterBreak(s: string, pos: nat, x: Header)
    requires HeaderAt(s, x.start) == Some(x) && pos <= x.start
    requires forall k: nat :: pos <= k < x.start ==> HeaderAt(s, k).None?
    requires IndexIn(s, BEGIN, x.start + 16, x.close + 1).None?
    requires IndexIn(s, END, x.close + 1, |s|).None?
    ensures BlocksFrom(s, pos) == []
  {
    forall k: nat | pos <= k < |s| ensures BlockAt(s, k).None? {
      if BlockAt(s, k).Some? {
        var y, e := BlockAtSound(s, k);
        HeaderAtComplete(s, y);
        if x.start < k <= x.close { NoBeginInHeader(s, x, k); HeaderIsBegin(s, k); }
      }
    }
    if pos <= |s| { SkipTo(s, pos, |s|); }
  }

  /** A begin token that starts inside a header match lies in it and past the header's own token. */
  lemma NoBeginInHeader(s: string, x: Header, k: nat)
    requires HeaderAt(s, x.start) == Some(x) && x.start < k <= x.close
    requires IndexIn(s, BEGIN, x.start + 16, x.close + 1).None?
    ensures !At(s, k, BEGIN)
  {
    TokenShape();
    HeaderAtSound(s, x.start);
    if At(s, k, BEGIN) {
      AtChar(s, k, BEGIN, 0);
      if k < x.start + 26 {
        AtChar(s, x.start, HEADER, k - x.start);
      } else if x.close + 1 < k + 16 {
        AtChar(s, k, BEGIN, x.close - k);
        AtChar(s, x.close - 2, CLOSE, 2);
      }
    }
  }

  /** A header with another begin token before its first end token starts no block. */
  lemma CutOff(s: string, x: Header, q: nat)
    requires HeaderAt(s, x.start) == Some(x) && x.start < q && At(s, q, BEGIN)
    requires q <= x.close || forall k :: x.close < k && k + 18 <= q ==> !At(s, k, END)
    ensures BlockAt(s, x.start).None?
  {
    hide BlockAt, BlockOf, HeaderAt;
    if BlockAt(s, x.start).Some? {
      var y, e := BlockAtSound(s, x.start);
      HeaderAtComplete(s, y);
      if e < q < e + 18 { NoStraddle(s, e, q, END); }
      if e == q { BeginIsNotEnd(s, q); }
    }
  }

  /** Resuming the scan at the first begin token inside a candidate loses no block. */
  lemma ResumeAt(s: string, pos: nat, x: Header, q: nat)
    requires HeaderAt(s, x.start) == Some(x) && pos <= x.start < q && At(s, q, BEGIN)
    requires forall k: nat :: pos <= k < x.start ==> HeaderAt(s, k).None?
    requires forall k :: x.start + 16 <= k < q ==> !At(s, k, BEGIN)
    requires q <= x.close || forall k :: x.close < k && k + 18 <= q ==> !At(s, k, END)
    ensures BlocksFrom(s, pos) == BlocksFrom(s, q)
  {
    forall k: nat | pos <= k < q ensures BlockAt(s, k).None? {
      if k == x.start {
        CutOff(s, x, q);
      } else if x.start < k {
        if k < x.start + 16 { NoStraddle(s, x.start, k, HEADER); }
        NoBeginNoBlock(s, k);
      }
    }
    SkipTo(s, pos, q);
  }

  lemma ResumeAtBody(s: string, pos: nat, x: Header, e: nat, q: nat)
    requires HeaderAt(s, x.start) == Some(x) && pos <= x.start
    requires forall k: nat :: pos <= k < x.start ==> HeaderAt(s, k).None?
    requires IndexIn(s, BEGIN, x.start + 16, x.close + 1).None?
    requires IndexIn(s, END, x.close + 1, |s|) == Some(e)
    requires IndexIn(s, BEGIN, x.close + 1, e) == Some(q)
    ensures BlocksFrom(s, pos) == BlocksFrom(s, q)
  {
    forall k | x.start < k < q ensures !At(s, k, BEGIN) {
      if k <= x.close { NoBeginInHeader(s, x, k); }
    }
    ResumeAt(s, pos, x, q);
  }

  /** A candidate whose three searches come out right is the next block. */
  lemma NextBlock(s: string, pos: nat, x: Header, e: nat)
    requires HeaderAt(s, x.start) == Some(x) && pos <= x.start
    requires forall k: nat :: pos <= k < x.start ==> HeaderAt(s, k).None?
    requires IndexIn(s, BEGIN, x.start + 16, x.close + 1).None?
    requires IndexIn(s, END, x.close + 1, |s|) == Some(e)
    requires IndexIn(s, BEGIN, x.close + 1, e).None?
    ensures BlocksFrom(s, pos) == [BlockOf(s, x, e)] + BlocksFrom(s, BlockOf(s, x, e).end)
  {
    NextBlockAt(s, x, e);
    SkipHeaderless(s, pos, x.start);
    hide BlockAt, BlockOf, At;
    TakeBlock(s, x.start);
  }

  lemma SkipHeaderless(s: string, i: nat, j: nat)
    requires i <= j && forall k: nat :: i <= k < j ==> HeaderAt(s, k).None?
    ensures BlocksFrom(s, i) == BlocksFrom(s, j)
  {
    forall k: nat | i <= k < j ensures BlockAt(s, k).None? { }
    hide BlockAt, BlocksFrom;
    SkipTo(s, i, j);
  }

  lemma NextBlockAt(s: string, x: Header, e: nat)
    requires HeaderAt(s, x.start) == Some(x)
    requires IndexIn(s, BEGIN, x.start + 16, x.close + 1).None?
    requires IndexIn(s, END, x.close + 1, |s|) == Some(e)
    requires IndexIn(s, BEGIN, x.close + 1, e).None?
    ensures BlockAt(s, x.start) == Some(BlockOf(s, x, e))
  {
    hide BlockOf, HeaderAt, At, IndexIn, RenderField, NewlinesEnd, HexEnd, FirstAngle;
    NoBeginUpTo(s, x, e);
  }

  lemma NoBeginUpTo(s: string, x: Header, e: nat)
    requires HeaderAt(s, x.start) == Some(x)
    requires IndexIn(s, BEGIN, x.start + 16, x.close + 1).None?
    requires e <= |s| && IndexIn(s, BEGIN, x.close + 1, e).None?
    ensures IndexIn(s, BEGIN, x.start + 1, e).None?
  {
    assert |BEGIN| == 16;
    hide *;
    forall k: nat | x.start < k && k + 16 <= e ensures !At(s, k, BEGIN) {
      if k <= x.close { NoBeginInHeader(s, x, k); }
    }
  }

  lemma NoHeaderLeft(s: string, pos: nat)
    requires pos <= |s| && forall k: nat :: pos <= k < |s| ==> HeaderAt(s, k).None?
    ensures BlocksFrom(s, pos) == []
  {
    SkipHeaderless(s, pos, |s|);
  }

  /** `findMarkers`: returns every complete block; each turn of the loop moves `pos` forward. */
  method FindMarkers(s: string) returns (out: seq<Block>)
    ensures out == Blocks(s)
  {
    out := [];
    var pos := 0;
    while pos < |s|
      invariant 0 <= pos <= |s|
      invariant Blocks(s) == out + BlocksFrom(s, pos)
      decreases |s| - pos
    {
      var h := FindHeader(s, pos);
      if h.None? {
        NoHeaderLeft(s, pos);
        return;
      }
      var x := h.value;
      var inHeader := IndexIn(s, BEGIN, x.start + 16, x.close + 1);
      if inHeader.Some? {
        ResumeAt(s, pos, x, inHeader.value);
        pos := inHeader.value;
        continue;
      }
      var endTok := IndexIn(s, END, x.close + 1, |s|);
      if endTok.None? {
        NothingAfterBreak(s, pos, x);
        return;
      }
      var inBody := IndexIn(s, BEGIN, x.close + 1, endTok.value);
      if inBody.Some? {
        ResumeAtBody(s, pos, x, endTok.value, inBody.value);
        pos := inBody.value;
        continue;
      }
      NextBlock(s, pos, x, endTok.value);
      var b := BlockOf(s, x, endTok.value);
      out := out + [b];
      pos := b.end;
    }
  }
}
