/**
 Byte strings, and the few library functions on them that the injector calls.

 A Go string is a sequence of bytes; here it is a `seq<char>` whose characters stand
 for single bytes. No theorem needs the characters to be below 256, so each one holds
 for every byte string.
 */
module Text {

  datatype Option<+T> = None | Some(value: T)

  /** `t` occurs in `s` at offset `p`. */
  predicate At(s: string, p: int, t: string) {
    0 <= p && p + |t| <= |s| && forall i {:trigger t[i]} :: 0 <= i < |t| ==> s[p + i] == t[i]
  }

  /** No occurrence of `t` starts strictly between `lo` and `hi`. */
  ghost predicate NoneBetween(s: string, t: string, lo: int, hi: int) {
    forall q :: lo < q < hi ==> !At(s, q, t)
  }

  /** `strings.Index(s[lo..hi], t)` in the coordinates of `s`. */
  function IndexIn(s: string, t: string, lo: nat, hi: nat): (r: Option<nat>)
    requires hi <= |s|
    ensures r.Some? ==> lo <= r.value && r.value + |t| <= hi && At(s, r.value, t)
    ensures r.Some? ==> forall q :: lo <= q < r.value ==> !At(s, q, t)
    ensures r.None? ==> forall q :: lo <= q && q + |t| <= hi ==> !At(s, q, t)
    decreases hi - lo
  {
    if hi < lo + |t| then None
    else if At(s, lo, t) then Some(lo)
    else if lo == hi then None
    else IndexIn(s, t, lo + 1, hi)
  }

  lemma IndexIs(s: string, t: string, lo: nat, hi: nat, q: nat)
    requires lo <= q && q + |t| <= hi <= |s| && At(s, q, t)
    requires forall k :: lo <= k < q ==> !At(s, k, t)
    ensures IndexIn(s, t, lo, hi) == Some(q)
  {
    var r := IndexIn(s, t, lo, hi);
    assert r.Some? && !(r.value < q) && !(q < r.value);
  }

  /** End of the maximal run of newlines starting at `i`. */
  function NewlinesEnd(s: string, i: nat): (r: nat)
    requires i <= |s|
    ensures i <= r <= |s|
    ensures forall k :: i <= k < r ==> s[k] == '\n'
    ensures r < |s| ==> s[r] != '\n'
    decreases |s| - i
  {
    if i < |s| && s[i] == '\n' then NewlinesEnd(s, i + 1) else i
  }

  predicate AllNewlines(s: string) {
    forall k :: 0 <= k < |s| ==> s[k] == '\n'
  }

  /** `strings.TrimRight(s, "\n")`. */
  function TrimNewlines(s: string): (r: string)
    ensures |r| <= |s| && r == s[..|r|] && AllNewlines(s[|r|..])
    ensures r != [] ==> r[|r| - 1] != '\n'
  {
    if s != [] && s[|s| - 1] == '\n' then
      var r := TrimNewlines(s[..|s| - 1]);
      assert s[|r|..] == s[..|s| - 1][|r|..] + "\n";
      r
    else s
  }

  /** Trimming is what removes a run of newlines and nothing else. */
  lemma {:induction false} TrimNewlinesUnique(s: string, c: string, x: string)
    requires s == c + x && AllNewlines(x) && (c != [] ==> c[|c| - 1] != '\n')
    ensures TrimNewlines(s) == c
  {
    if x == [] {
      assert s == c;
    } else {
      assert s[..|s| - 1] == c + x[..|x| - 1];
      TrimNewlinesUnique(s[..|s| - 1], c, x[..|x| - 1]);
    }
  }

  lemma AtShift(a: string, s: string, p: int, t: string)
    requires p >= 0
    ensures At(a + s, |a| + p, t) == At(s, p, t)
  {
    if p + |t| <= |s| {
      assert forall i {:trigger t[i]} :: 0 <= i < |t| ==> (a + s)[|a| + p + i] == s[p + i];
    }
  }

  /** An occurrence that ends inside the first part is an occurrence in the first part. */
  lemma AtPrefix(a: string, x: string, p: int, t: string)
    requires p + |t| <= |a|
    ensures At(a + x, p, t) == At(a, p, t)
  {
    if 0 <= p {
      assert forall i {:trigger t[i]} :: 0 <= i < |t| ==> (a + x)[p + i] == a[p + i];
    }
  }

  lemma AtChar(s: string, p: int, t: string, i: int)
    requires At(s, p, t) && 0 <= i < |t|
    ensures s[p + i] == t[i]
  {
  }

  lemma NoneBetweenShift(a: string, s: string, t: string, lo: nat, hi: nat)
    ensures NoneBetween(a + s, t, |a| + lo, |a| + hi) <==> NoneBetween(s, t, lo, hi)
  {
    if NoneBetween(a + s, t, |a| + lo, |a| + hi) {
      forall q | lo < q < hi ensures !At(s, q, t) { AtShift(a, s, q, t); }
    } else {
      var q :| |a| + lo < q < |a| + hi && At(a + s, q, t);
      AtShift(a, s, q - |a|, t);
    }
  }

  lemma NoneBetweenPrefix(a: string, x: string, t: string, lo: nat, hi: nat)
    requires hi + |t| <= |a| + 1
    ensures NoneBetween(a + x, t, lo, hi) <==> NoneBetween(a, t, lo, hi)
  {
    if NoneBetween(a + x, t, lo, hi) {
      forall q | lo < q < hi ensures !At(a, q, t) { AtPrefix(a, x, q, t); }
    } else {
      var q :| lo < q < hi && At(a + x, q, t);
      AtPrefix(a, x, q, t);
    }
  }

  lemma AtMiddle(a: string, t: string, b: string)
    ensures At(a + t + b, |a|, t)
  {
  }

  /** A token without newlines that does not occur between two newlines of `w` starts nowhere from
      the first to the second. */
  lemma NoneInLines(w: string, lo: nat, hi: nat, t: string, q: nat)
    requires t != [] && forall i :: 0 <= i < |t| ==> t[i] != '\n'
    requires lo < hi < |w| && w[lo] == '\n' && w[hi] == '\n'
    requires IndexIn(w[lo + 1..hi], t, 0, hi - lo - 1).None?
    requires lo <= q <= hi
    ensures !At(w, q, t)
  {
    if q == lo || hi < q + |t| {
      MissesNewline(w, q, t, if q == lo then q else hi);
    } else if At(w, q, t) {
      var ref := w[lo + 1..hi];
      assert forall i {:trigger t[i]} :: 0 <= i < |t| ==> ref[q - lo - 1 + i] == w[q + i];
      assert At(ref, q - lo - 1, t);
    }
  }

  lemma MissesNewline(s: string, q: nat, t: string, n: nat)
    requires forall i :: 0 <= i < |t| ==> t[i] != '\n'
    requires q <= n < |s| && n < q + |t| && s[n] == '\n'
    ensures !At(s, q, t)
  {
    if At(s, q, t) { AtChar(s, q, t, n - q); }
  }

  // ---- lines ------------------------------------------------------------------------------

  function LineEnd(s: string): (r: nat)
    ensures r <= |s| && '\n' !in s[..r] && (r < |s| ==> s[r] == '\n')
  {
    if s == [] || s[0] == '\n' then 0
    else
      var r := 1 + LineEnd(s[1..]);
      assert s[..r] == [s[0]] + s[1..][..r - 1];
      r
  }

  /** The records of a file: lines without their newline; a final newline starts no record. */
  function Records(s: string): seq<string>
    decreases |s|
  {
    if s == [] then []
    else if LineEnd(s) == |s| then [s]
    else [s[..LineEnd(s)]] + Records(s[LineEnd(s) + 1..])
  }
}
