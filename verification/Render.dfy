/**
 The block this release writes, and how the scan behaves on texts that hold one.

 A scan of `a + block + b` finds the blocks of `a`, then the block, then the blocks of `b`,
 whatever `a` is: no begin token left open in `a` can reach past the block's own begin token.
 */
module Render {
  import opened Text
  import opened BlockScan

  const DISCLOSURE := "Inserted by pilot-daemon." + " Remove with: pilotctl " + "skills disable all"

  /** `validateMarkerRef`: the heartbeat quotes no marker delimiter. */
  predicate ValidRef(ref: string) {
    && IndexIn(ref, BEGIN, 0, |ref|).None?
    && IndexIn(ref, END, 0, |ref|).None?
  }

  /** A block with the given hash, rest of the begin comment and body; every release writes this shape. */
  function Frame(hash: string, rest: string, ref: string): string {
    HEADER + hash + rest + CLOSE + "\n" + ref + "\n" + END + "\n"
  }

  /** `renderMarker`. */
  function RenderMarker(ref: string, hash: string, r: string): string {
    Frame(hash, RenderRest(r), ref)
  }

  function RenderRest(r: string): string {
    " r=" + r + "\n     " + DISCLOSURE + "\n"
  }

  ghost predicate ValidHash(h: string) {
    h != [] && AllHex(h)
  }

  ghost predicate ValidRest(rest: string) {
    rest != [] && !Hex(rest[0]) && NoAngle(rest)
  }

  ghost predicate NoAngle(s: string) {
    forall k :: 0 <= k < |s| ==> s[k] != '>' && s[k] != '<'
  }

  lemma RenderFieldReads(r: string, tail: string)
    requires ValidHash(r) && (tail != [] ==> Space(tail[0]))
    ensures RenderField(" r=" + r + tail) == r
  {
    var rest := " r=" + r + tail;
    HexEndIs(rest, 3, 3 + |r|);
    assert rest[3..3 + |r|] == r;
  }

  lemma HexEndIs(s: string, i: nat, j: nat)
    requires i <= j <= |s| && AllHex(s[i..j]) && (j < |s| ==> !Hex(s[j]))
    ensures HexEnd(s, i) == j
  {
    assert forall k :: i <= k < j ==> s[k] == s[i..j][k - i];
  }

  lemma RenderRestValid(r: string)
    requires ValidHash(r)
    ensures ValidRest(RenderRest(r)) && RenderField(RenderRest(r)) == r
  {
    hide RenderField;
    assert NoAngle("Inserted by pilot-daemon.") && NoAngle(" Remove with: pilotctl ") && NoAngle("skills disable all");
    var tail := "\n     " + DISCLOSURE + "\n";
    assert NoAngle(DISCLOSURE) && NoAngle(tail);
    assert RenderRest(r) == " r=" + r + tail;
    RenderFieldReads(r, tail);
  }

  // ---- locality: what a block starting at p depends on ------------------------------------

  function ShiftBlock(n: nat, b: Block): Block {
    b.(start := n + b.start, end := n + b.end)
  }

  function ShiftBlocks(n: nat, bs: seq<Block>): seq<Block> {
    seq(|bs|, i requires 0 <= i < |bs| => ShiftBlock(n, bs[i]))
  }

  function ShiftHeader(n: nat, x: Header): Header {
    Header(n + x.start, n + x.hashEnd, n + x.close)
  }

  lemma {:induction false} NewlinesEndShift(a: string, s: string, i: nat)
    requires i <= |s|
    ensures NewlinesEnd(a + s, |a| + i) == |a| + NewlinesEnd(s, i)
    decreases |s| - i
  {
    if i < |s| {
      assert (a + s)[|a| + i] == s[i];
      if s[i] == '\n' { NewlinesEndShift(a, s, i + 1); }
    }
  }

  lemma HeaderShift(a: string, s: string, x: Header)
    ensures IsHeader(a + s, ShiftHeader(|a|, x)) <==> IsHeader(s, x)
  {
    AtShift(a, s, x.start, HEADER);
    if x.close >= 2 { AtShift(a, s, x.close - 2, CLOSE); }
    var w := a + s;
    assert forall k :: 0 <= k < |s| ==> w[|a| + k] == s[k];
    if IsHeader(w, ShiftHeader(|a|, x)) {
      forall k | x.start + 26 <= k < x.hashEnd ensures Hex(s[k]) { assert w[|a| + k] == s[k]; }
      forall k | x.hashEnd <= k < x.close - 2 ensures s[k] != '>' { assert w[|a| + k] == s[k]; }
    }
  }

  lemma BlockShift(a: string, s: string, x: Header, e: nat)
    ensures IsBlock(a + s, ShiftHeader(|a|, x), |a| + e) <==> IsBlock(s, x, e)
  {
    HeaderShift(a, s, x);
    AtShift(a, s, e, END);
    NoneBetweenShift(a, s, END, x.close, e);
    NoneBetweenShift(a, s, BEGIN, x.start, e);
  }

  lemma BlockBounds(s: string, x: Header, e: nat)
    ensures IsBlock(s, x, e) ==> x.start + 26 <= x.hashEnd <= x.close - 2 <= |s| && e + 18 <= |s|
  {
  }

  lemma SliceShift(a: string, s: string, i: nat, j: nat)
    requires i <= j <= |s|
    ensures (a + s)[|a| + i..|a| + j] == s[i..j]
  {
    var w := (a + s)[|a|..];
    assert w == s;
    assert w[i..j] == (a + s)[|a| + i..|a| + j];
  }

  lemma BlockOfShift(a: string, s: string, x: Header, e: nat)
    requires x.start + 26 <= x.hashEnd <= x.close - 2 <= |s| && e + 18 <= |s|
    ensures BlockOf(a + s, ShiftHeader(|a|, x), |a| + e) == ShiftBlock(|a|, BlockOf(s, x, e))
  {
    hide RenderField, NewlinesEnd;
    NewlinesEndShift(a, s, e + 18);
    SliceShift(a, s, x.start + 26, x.hashEnd);
    SliceShift(a, s, x.hashEnd, x.close - 2);
  }

  lemma BlockMovesRight(a: string, s: string, p: nat)
    requires BlockAt(s, p).Some?
    ensures BlockAt(a + s, |a| + p) == Some(ShiftBlock(|a|, BlockAt(s, p).value))
  {
    hide BlockAt, IsBlock, BlockOf;
    var x, e := BlockAtSound(s, p);
    BlockBounds(s, x, e);
    BlockShift(a, s, x, e);
    BlockOfShift(a, s, x, e);
    BlockAtComplete(a + s, ShiftHeader(|a|, x), |a| + e);
  }

  lemma BlockMovesLeft(a: string, s: string, p: nat)
    requires BlockAt(a + s, |a| + p).Some?
    ensures BlockAt(s, p).Some?
  {
    hide BlockAt, BlockOf;
    var y, f := BlockAtSound(a + s, |a| + p);
    var x := Header(y.start - |a|, y.hashEnd - |a|, y.close - |a|);
    BlockShift(a, s, x, f - |a|);
    BlockAtComplete(s, x, f - |a|);
  }

  /** Whether a block starts at a position depends only on the text from there on. */
  lemma BlockAtShift(a: string, s: string, p: nat)
    ensures BlockAt(s, p).None? ==> BlockAt(a + s, |a| + p).None?
    ensures BlockAt(s, p).Some? ==> BlockAt(a + s, |a| + p) == Some(ShiftBlock(|a|, BlockAt(s, p).value))
  {
    hide BlockAt;
    if BlockAt(s, p).Some? {
      BlockMovesRight(a, s, p);
    } else if BlockAt(a + s, |a| + p).Some? {
      BlockMovesLeft(a, s, p);
    }
  }

  lemma {:induction false} BlocksShift(a: string, s: string, i: nat)
    ensures BlocksFrom(a + s, |a| + i) == ShiftBlocks(|a|, BlocksFrom(s, i))
    decreases |s| - i
  {
    hide BlockAt, At, BlocksFrom;
    BlocksFromStep(s, i);
    BlocksFromStep(a + s, |a| + i);
    if i < |s| {
      BlockAtShift(a, s, i);
      BlocksShift(a, s, i + 1);
    }
  }

  lemma HeaderPrefix(a: string, x: string, h: Header)
    requires h.close < |a|
    ensures IsHeader(a + x, h) <==> IsHeader(a, h)
  {
    var w := a + x;
    assert forall k :: 0 <= k < |a| ==> w[k] == a[k];
    if h.start + 26 <= |a| { AtPrefix(a, x, h.start, HEADER); }
    if h.close >= 2 { AtPrefix(a, x, h.close - 2, CLOSE); }
    if IsHeader(w, h) {
      forall k | h.start + 26 <= k < h.hashEnd ensures Hex(a[k]) { assert w[k] == a[k]; }
      forall k | h.hashEnd <= k < h.close - 2 ensures a[k] != '>' { assert w[k] == a[k]; }
    }
  }

  /** A block whose end token lies in the first part of a text is a block of that part. */
  lemma BlockPrefix(a: string, x: string, h: Header, e: nat)
    requires e + 18 <= |a|
    ensures IsBlock(a + x, h, e) <==> IsBlock(a, h, e)
  {
    if h.close < e {
      HeaderPrefix(a, x, h);
      AtPrefix(a, x, e, END);
      NoneBetweenPrefix(a, x, END, h.close, e);
      NoneBetweenPrefix(a, x, BEGIN, h.start, e);
    }
  }

  // ---- a rendered block in a text -------------------------------------------------------

  function FrameHeader(hash: string, rest: string): Header {
    Header(0, 26 + |hash|, 28 + |hash| + |rest|)
  }

  lemma FrameHeaderMatches(hash: string, rest: string, tail: string)
    requires ValidHash(hash) && ValidRest(rest)
    ensures IsHeader(HEADER + hash + rest + CLOSE + tail, FrameHeader(hash, rest))
  {
    var w := HEADER + hash + rest + CLOSE + tail;
    var x := FrameHeader(hash, rest);
    FrameHeaderChars(hash, rest, tail);
    hide At;
    assert w == [] + HEADER + (hash + rest + CLOSE + tail);
    AtMiddle([], HEADER, hash + rest + CLOSE + tail);
    AtMiddle(HEADER + hash + rest, CLOSE, tail);
    forall k | 26 <= k < x.hashEnd ensures Hex(w[k]) { assert w[k] == hash[k - 26]; }
    forall k | x.hashEnd <= k < x.close - 2 ensures w[k] != '>' { assert w[k] == rest[k - x.hashEnd]; }
  }

  lemma FrameHeaderChars(hash: string, rest: string, tail: string)
    ensures var w := HEADER + hash + rest + CLOSE + tail;
            && |w| == 29 + |hash| + |rest| + |tail|
            && (forall k :: 0 <= k < |hash| ==> w[26 + k] == hash[k])
            && (forall k :: 26 <= k < 26 + |hash| ==> w[k] == hash[k - 26])
            && (forall k :: 26 + |hash| <= k < 26 + |hash| + |rest| ==> w[k] == rest[k - 26 - |hash|])
            && (forall k :: 1 <= k < 26 ==> w[k] != '<')
            && (forall k :: 26 + |hash| + |rest| <= k < 29 + |hash| + |rest| ==> w[k] != '<')
  {
    TokenShape();
    assert |CLOSE| == 3 && forall i :: 0 <= i < 3 ==> CLOSE[i] != '<';
    var w := HEADER + hash + rest + CLOSE + tail;
    forall k | 1 <= k < 26 ensures w[k] != '<' { assert w[k] == HEADER[k]; }
    forall k | 26 + |hash| + |rest| <= k < 29 + |hash| + |rest| ensures w[k] != '<' {
      assert w[k] == CLOSE[k - 26 - |hash| - |rest|];
    }
  }

  lemma BeginNeedsAngle(s: string, q: nat)
    requires q < |s| && s[q] != '<'
    ensures !At(s, q, BEGIN)
  {
    if At(s, q, BEGIN) { AtChar(s, q, BEGIN, 0); }
  }

  /** Past its first byte a rendered header holds no begin token. */
  lemma FrameHeaderUnbegun(hash: string, rest: string, tail: string, q: nat)
    requires ValidHash(hash) && ValidRest(rest)
    requires 0 < q < 29 + |hash| + |rest|
    ensures !At(HEADER + hash + rest + CLOSE + tail, q, BEGIN)
  {
    FrameHeaderChars(hash, rest, tail);
    BeginNeedsAngle(HEADER + hash + rest + CLOSE + tail, q);
  }

  lemma FrameUnbegun(hash: string, rest: string, ref: string, b: string, q: nat)
    requires ValidHash(hash) && ValidRest(rest) && ValidRef(ref)
    requires 0 < q < |Frame(hash, rest, ref)|
    ensures !At(Frame(hash, rest, ref) + b, q, BEGIN)
  {
    hide At;
    TokenShape();
    var w := Frame(hash, rest, ref) + b;
    var a := HEADER + hash + rest + CLOSE;
    if q < |a| {
      assert w == a + ("\n" + ref + "\n" + END + "\n" + b);
      FrameHeaderUnbegun(hash, rest, "\n" + ref + "\n" + END + "\n" + b, q);
    } else if q <= |a| + 1 + |ref| {
      FrameRef(hash, rest, ref, b);
      NoneInLines(w, |a|, |a| + 1 + |ref|, BEGIN, q);
    } else {
      FrameEndUnbegun(a + "\n" + ref + "\n", b, q - |a| - 2 - |ref|);
      assert w == a + "\n" + ref + "\n" + END + "\n" + b;
    }
  }

  lemma FrameEndUnbegun(a: string, b: string, q: nat)
    requires q < 19
    ensures !At(a + END + "\n" + b, |a| + q, BEGIN)
  {
    TokenShape();
    var w := a + END + "\n" + b;
    assert w[|a| + q] == if q < 18 then END[q] else '\n';
    if q == 0 {
      assert w[|a| + 11] == END[11];
      if At(w, |a|, BEGIN) { AtChar(w, |a|, BEGIN, 11); }
    } else {
      BeginNeedsAngle(w, |a| + q);
    }
  }

  /** The body stands between two newlines. */
  lemma FrameRef(hash: string, rest: string, ref: string, b: string)
    ensures var w := Frame(hash, rest, ref) + b;
            var n := |HEADER + hash + rest + CLOSE|;
            n + 1 + |ref| < |w| && w[n] == '\n' && w[n + 1 + |ref|] == '\n' && w[n + 1..n + 1 + |ref|] == ref
  {
  }

  lemma FrameEndAt(hash: string, rest: string, ref: string, b: string)
    ensures At(Frame(hash, rest, ref) + b, |Frame(hash, rest, ref)| - 19, END)
  {
    var a := HEADER + hash + rest + CLOSE + "\n" + ref + "\n";
    AtMiddle(a, END, "\n" + b);
    assert Frame(hash, rest, ref) + b == a + END + ("\n" + b);
    assert |END| == 18;
  }

  lemma FrameEndIsFirst(hash: string, rest: string, ref: string, b: string)
    requires ValidRef(ref)
    ensures NoneBetween(Frame(hash, rest, ref) + b, END, FrameHeader(hash, rest).close, |Frame(hash, rest, ref)| - 19)
  {
    hide At;
    var w := Frame(hash, rest, ref) + b;
    var n := FrameHeader(hash, rest).close + 1;
    TokenShape();
    FrameRef(hash, rest, ref, b);
    assert n == |HEADER + hash + rest + CLOSE|;
    forall q | n <= q <= n + 1 + |ref| ensures !At(w, q, END) {
      NoneInLines(w, n, n + 1 + |ref|, END, q);
    }
  }

  lemma FrameIsBlock(hash: string, rest: string, ref: string, b: string)
    requires ValidHash(hash) && ValidRest(rest) && ValidRef(ref)
    requires b != [] ==> b[0] != '\n'
    ensures BlockAt(Frame(hash, rest, ref) + b, 0) ==
            Some(Block(0, |Frame(hash, rest, ref)|, hash, RenderField(rest)))
  {
    hide At, BlockAt, RenderField, IsHeader, BlockOf;
    var w := Frame(hash, rest, ref) + b;
    var tail := "\n" + ref + "\n" + END + "\n" + b;
    assert w == HEADER + hash + rest + CLOSE + tail;
    FrameHeaderMatches(hash, rest, tail);
    FrameEndAt(hash, rest, ref, b);
    FrameEndIsFirst(hash, rest, ref, b);
    var e := |Frame(hash, rest, ref)| - 19;
    forall q | 0 < q < e ensures !At(w, q, BEGIN) {
      FrameUnbegun(hash, rest, ref, b, q);
    }
    BlockAtComplete(w, FrameHeader(hash, rest), e);
    FrameSpan(hash, rest, ref, b);
  }

  lemma FrameSpan(hash: string, rest: string, ref: string, b: string)
    requires b != [] ==> b[0] != '\n'
    ensures var w := Frame(hash, rest, ref) + b;
            var x := FrameHeader(hash, rest);
            BlockOf(w, x, |Frame(hash, rest, ref)| - 19) == Block(0, |w| - |b|, hash, RenderField(rest))
  {
    hide RenderField;
    var w := Frame(hash, rest, ref) + b;
    var n := |w| - |b|;
    assert w[n - 1] == '\n';
    assert NewlinesEnd(w, n) == n by { assert b != [] ==> w[n] == b[0]; }
    assert w[26..26 + |hash|] == hash;
    assert w[26 + |hash|..26 + |hash| + |rest|] == rest;
  }

  // ---- the scan distributes over a rendered block --------------------------------------

  lemma {:induction false} NewlinesEndPrefix(a: string, x: string, i: nat)
    requires i <= |a| && (x != [] ==> x[0] != '\n')
    ensures NewlinesEnd(a + x, i) == NewlinesEnd(a, i)
    decreases |a| - i
  {
    if i < |a| {
      assert (a + x)[i] == a[i];
      if a[i] == '\n' { NewlinesEndPrefix(a, x, i + 1); }
    }
  }

  lemma BlockOfPrefix(a: string, x: string, h: Header, e: nat)
    requires h.start + 26 <= h.hashEnd <= h.close - 2 <= |a| && e + 18 <= |a|
    requires x != [] ==> x[0] != '\n'
    ensures BlockOf(a + x, h, e) == BlockOf(a, h, e)
  {
    hide RenderField;
    NewlinesEndPrefix(a, x, e + 18);
    assert (a + x)[h.start + 26..h.hashEnd] == a[h.start + 26..h.hashEnd];
    assert (a + x)[h.hashEnd..h.close - 2] == a[h.hashEnd..h.close - 2];
  }

  /** A block that starts before a begin token ends before it. */
  lemma EndsBeforeBegin(s: string, h: Header, e: nat, n: nat)
    requires At(s, n, BEGIN) && h.start < n
    ensures IsBlock(s, h, e) ==> e + 18 <= n
  {
    if IsBlock(s, h, e) {
      if e < n < e + 18 { NoStraddle(s, e, n, END); }
      if e == n {
        AtChar(s, n, END, 11);
        AtChar(s, n, BEGIN, 11);
      }
    }
  }

  /** Text from a begin token on does not change which blocks start before it. */
  lemma BlockBeforeBegin(a: string, x: string, p: nat)
    requires At(x, 0, BEGIN) && p < |a|
    ensures BlockAt(a + x, p) == BlockAt(a, p)
  {
    AtChar(x, 0, BEGIN, 0);
    AtShift(a, x, 0, BEGIN);
    hide BlockAt, BlockOf, At, IsBlock;
    if BlockAt(a + x, p).Some? {
      var h, e := BlockAtSound(a + x, p);
      EndsBeforeBegin(a + x, h, e, |a|);
      BlockPrefix(a, x, h, e);
      BlockAtComplete(a, h, e);
      BlockBounds(a, h, e);
      BlockOfPrefix(a, x, h, e);
    } else if BlockAt(a, p).Some? {
      var h, e := BlockAtSound(a, p);
      BlockBounds(a, h, e);
      BlockPrefix(a, x, h, e);
      BlockAtComplete(a + x, h, e);
    }
  }

  lemma {:induction false} BlocksSplit(a: string, x: string, i: nat)
    requires At(x, 0, BEGIN) && i <= |a|
    ensures BlocksFrom(a + x, i) == BlocksFrom(a, i) + BlocksFrom(a + x, |a|)
    decreases |a| - i
  {
    hide *;
    BlocksFromStep(a, i);
    BlocksFromStep(a + x, i);
    if i < |a| {
      BlockBeforeBegin(a, x, i);
      BlocksSplit(a, x, i + 1);
    }
  }

  /** Main result on rendered blocks: the scan distributes over one, whatever surrounds it. */
  lemma ScanDistributes(a: string, hash: string, rest: string, ref: string, b: string)
    requires ValidHash(hash) && ValidRest(rest) && ValidRef(ref)
    requires b != [] ==> b[0] != '\n'
    ensures var f := Frame(hash, rest, ref);
            Blocks(a + f + b) ==
              Blocks(a) + [Block(|a|, |a| + |f|, hash, RenderField(rest))] + ShiftBlocks(|a| + |f|, Blocks(b))
  {
    var f := Frame(hash, rest, ref);
    FrameBegins(hash, rest, ref, b);
    hide BlockAt, At, RenderField, Frame;
    assert a + f + b == a + (f + b) == (a + f) + b;
    BlocksSplit(a, f + b, 0);
    FrameIsBlock(hash, rest, ref, b);
    BlockAtShift(a, f + b, 0);
    TakeBlock(a + f + b, |a|);
    BlocksShift(a + f, b, 0);
  }

  lemma FrameBegins(hash: string, rest: string, ref: string, b: string)
    ensures At(Frame(hash, rest, ref) + b, 0, BEGIN)
  {
    TokenShape();
    var w := Frame(hash, rest, ref) + b;
    assert forall i :: 0 <= i < 26 ==> w[i] == HEADER[i];
    assert forall i :: 0 <= i < 16 ==> BEGIN[i] == HEADER[..16][i] == HEADER[i];
  }
}
