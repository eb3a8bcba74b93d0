/**
 Cutting blocks out of a text (`spliceMarker`), and what the user keeps.

 `Kept` is the text with every byte inside a complete block left out, byte by byte. The
 splice loop is proved to keep exactly those bytes, and a begin token that starts no
 complete block is shown to be safe from every rewrite and strip.
 */
module Splice {
  import opened Text
  import opened BlockScan

  ghost predicate Covered(s: string, i: int) {
    exists b :: b in Blocks(s) && b.start <= i < b.end
  }

  /** The bytes of `s` from `i` on that lie outside every complete block, in order. */
  ghost function Kept(s: string, i: nat): string
    decreases |s| - i
  {
    if i >= |s| then [] else (if Covered(s, i) then [] else [s[i]]) + Kept(s, i + 1)
  }

  lemma KeptStep(s: string, i: nat)
    ensures i < |s| ==> Kept(s, i) == (if Covered(s, i) then [] else [s[i]]) + Kept(s, i + 1)
    ensures |s| <= i ==> Kept(s, i) == []
  {
    hide Covered;
  }

  lemma {:induction false} KeepAll(s: string, i: nat, j: nat)
    requires i <= j <= |s| && forall k :: i <= k < j ==> !Covered(s, k)
    ensures Kept(s, i) == s[i..j] + Kept(s, j)
    decreases j - i
  {
    hide *;
    if i < j {
      KeptStep(s, i);
      KeepAll(s, i + 1, j);
      assert s[i..j] == [s[i]] + s[i + 1..j];
    } else {
      assert s[i..j] == [];
    }
  }

  lemma {:induction false} DropAll(s: string, i: nat, j: nat)
    requires i <= j <= |s| && forall k :: i <= k < j ==> Covered(s, k)
    ensures Kept(s, i) == Kept(s, j)
    decreases j - i
  {
    hide *;
    if i < j {
      KeptStep(s, i);
      DropAll(s, i + 1, j);
    }
  }

  lemma BlocksInRange(s: string)
    ensures forall b :: b in Blocks(s) ==> b.start < b.end <= |s| && BlockAt(s, b.start) == Some(b)
    ensures Ordered(Blocks(s))
  {
    forall b | b in Blocks(s) ensures b.start < b.end <= |s| && BlockAt(s, b.start) == Some(b) {
      InBlocksFrom(s, 0, b);
    }
    BlocksFromOrdered(s, 0);
  }

  /** Between two neighbouring blocks nothing is covered. */
  lemma GapUncovered(s: string, n: nat, i: int)
    requires n <= |Blocks(s)|
    requires n > 0 ==> Blocks(s)[n - 1].end <= i
    requires n < |Blocks(s)| ==> i < Blocks(s)[n].start
    ensures !Covered(s, i)
  {
    hide BlockAt;
    BlocksInRange(s);
    var bs := Blocks(s);
    forall m | 0 <= m < |bs| ensures !(bs[m].start <= i < bs[m].end) {
      assert bs[m] in bs;
      if m < n - 1 { assert bs[m].end <= bs[n - 1].start && bs[n - 1] in bs; }
      if n < m { assert bs[n].end <= bs[m].start && bs[n] in bs; }
    }
  }

  /** Keeping from block `n` on: the block's own bytes go, the gap after it stays. */
  lemma KeptAcrossBlock(s: string, n: nat)
    requires n < |Blocks(s)|
    ensures Kept(s, |s|) == []
    ensures Kept(s, Blocks(s)[n].start) == Kept(s, Blocks(s)[n].end)
    ensures var next := if n + 1 < |Blocks(s)| then Blocks(s)[n + 1].start else |s|;
            Blocks(s)[n].end <= next <= |s| && Kept(s, Blocks(s)[n].end) == s[Blocks(s)[n].end..next] + Kept(s, next)
  {
    hide BlockAt;
    BlocksInRange(s);
    var bs := Blocks(s);
    var b := bs[n];
    assert b in bs;
    DropAll(s, b.start, b.end);
    var next := if n + 1 < |bs| then bs[n + 1].start else |s|;
    if n + 1 < |bs| { assert bs[n + 1] in bs; }
    forall k | b.end <= k < next ensures !Covered(s, k) { GapUncovered(s, n + 1, k); }
    KeepAll(s, b.end, next);
  }

  lemma KeptBeforeFirst(s: string)
    requires Blocks(s) != []
    ensures Blocks(s)[0].start <= |s| && Kept(s, 0) == s[..Blocks(s)[0].start] + Kept(s, Blocks(s)[0].end)
  {
    hide BlockAt;
    BlocksInRange(s);
    assert Blocks(s)[0] in Blocks(s);
    var n := Blocks(s)[0].start;
    forall k | 0 <= k < n ensures !Covered(s, k) { GapUncovered(s, 0, k); }
    KeepAll(s, 0, n);
    KeptAcrossBlock(s, 0);
  }

  /** `spliceMarker`: the first block becomes `block`, the others go, every other byte stays. */
  method SpliceMarker(s: string, blocks: seq<Block>, block: string) returns (out: string)
    requires blocks == Blocks(s) && blocks != []
    ensures blocks[0].start <= |s|
    ensures out == s[..blocks[0].start] + block + Kept(s, blocks[0].end)
  {
    hide BlockAt, Kept, BlocksFrom;
    BlocksInRange(s);
    assert blocks[0] in blocks;
    out := s[..blocks[0].start] + block;
    var prev := blocks[0].end;
    var i := 1;
    while i < |blocks|
      invariant 1 <= i <= |blocks| && prev == blocks[i - 1].end <= |s|
      invariant out + Kept(s, prev) == s[..blocks[0].start] + block + Kept(s, blocks[0].end)
    {
      KeptAcrossBlock(s, i - 1);
      KeptAcrossBlock(s, i);
      var gap := s[prev..blocks[i].start];
      assert out + (gap + Kept(s, blocks[i].end)) == (out + gap) + Kept(s, blocks[i].end);
      out := out + gap;
      prev := blocks[i].end;
      i := i + 1;
    }
    KeptAcrossBlock(s, |blocks| - 1);
    assert s[prev..] + [] == s[prev..];
    out := out + s[prev..];
  }

  // ---- orphan safety -------------------------------------------------------------------

  /** From a begin token that starts no complete block up to the next begin token, or the end
      of the text, no byte is ever deleted. */
  lemma OrphanIsKept(s: string, p: nat, i: nat)
    requires At(s, p, BEGIN) && BlockAt(s, p).None?
    requires p <= i < |s| && forall q :: p < q <= i ==> !At(s, q, BEGIN)
    ensures !Covered(s, i)
  {
    if Covered(s, i) {
      var b :| b in Blocks(s) && b.start <= i < b.end;
      OrphanOutside(s, p, i, b);
    }
  }

  lemma OrphanOutside(s: string, p: nat, i: nat, b: Block)
    requires At(s, p, BEGIN) && BlockAt(s, p).None?
    requires p <= i < |s| && forall q :: p < q <= i ==> !At(s, q, BEGIN)
    requires b in Blocks(s)
    ensures !(b.start <= i < b.end)
  {
    hide *;
    BlocksInRange(s);
    BeginsAtBlock(s, b.start);
    if b.start < p < b.end { NoBeginInside(s, b.start, p); }
  }

  lemma BeginsAtBlock(s: string, p: nat)
    requires BlockAt(s, p).Some?
    ensures At(s, p, BEGIN)
  {
    if !At(s, p, BEGIN) { NoBeginNoBlock(s, p); }
  }
}
