/**
 This release and an older binary ticking the same heartbeat file.

 The older writer compares only `hash=`, rewrites through a template expansion that garbles
 `$` references, and appends without looking for frontmatter.
 */
module Coexist {
  import opened Text
  import opened BlockScan
  import opened Render
  import opened Splice
  import opened Heartbeat

  const OLD_REST := "\n     Inserted by pilot-daemon." + " Remove with: pilotctl " + "skills disable\n"

  function OldBlock(d: Directive): string {
    Frame(d.hash, OLD_REST, d.ref)
  }

  datatype OldMatch = OldMatch(start: nat, hash: string, end: nat)

  /** The older expression's leftmost match at or after `pos`: a header, and the first end token after it. */
  function OldFind(s: string, pos: nat): (m: Option<OldMatch>)
    ensures m.Some? ==> pos <= m.value.start < m.value.end <= |s|
    decreases |s| - pos
  {
    if |s| <= pos then None
    else
      var h := HeaderAt(s, pos);
      var e := if h.None? then None else IndexIn(s, END, h.value.close + 1, |s|);
      if e.Some? then Some(OldMatch(pos, s[pos + 26..h.value.hashEnd], NewlinesEnd(s, e.value + 18)))
      else OldFind(s, pos + 1)
  }

  /** `ReplaceAllString`: every match is replaced by the expansion of the block for that match. */
  function OldReplaceAll(s: string, pos: nat, expand: string -> string): string
    requires pos <= |s|
    decreases |s| - pos
  {
    var m := OldFind(s, pos);
    if m.None? then s[pos..]
    else s[pos..m.value.start] + expand(s[m.value.start..m.value.end]) + OldReplaceAll(s, m.value.end, expand)
  }

  /** One tick of the older writer. */
  function OldTick(content: Option<string>, d: Directive, expand: string -> string): Option<string> {
    match content
    case None => Some(OldBlock(d))
    case Some(s) =>
      match OldFind(s, 0)
      case None => Some(TrimNewlines(s) + "\n\n" + OldBlock(d))
      case Some(m) => if m.hash == d.hash then content else Some(OldReplaceAll(s, 0, expand))
  }

  // ---- texts without a begin token ----------------------------------------------------------

  ghost predicate Unbegun(s: string) {
    forall q :: !At(s, q, BEGIN)
  }

  lemma UnbegunHasNoBlock(s: string)
    requires Unbegun(s)
    ensures Blocks(s) == []
  {
    SkipUnbegun(s, 0, |s|);
  }

  /** A trailing run of newlines neither makes nor breaks a begin token. */
  lemma UnbegunNewlines(c: string, x: string, y: string)
    requires Unbegun(c + x) && AllNewlines(y)
    ensures Unbegun(c + y)
  {
    assert forall k :: |c| <= k < |c + y| ==> (c + y)[k] == y[k - |c|] == '\n';
    forall q ensures !At(c + y, q, BEGIN) {
      if At(c + y, q, BEGIN) {
        if |c| < q + 16 {
          AtChar(c + y, q, BEGIN, 15);
        } else {
          AtPrefix(c, y, q, BEGIN);
          AtPrefix(c, x, q, BEGIN);
        }
      }
    }
  }

  lemma BaseUnbegun(s: string)
    requires Unbegun(s)
    ensures Unbegun(Base(s)) && Unbegun(TrimNewlines(s) + "\n\n")
  {
    hide Unbegun, Base;
    BaseKeepsText(s);
    var c := TrimNewlines(s);
    assert s == c + s[|c|..] && Base(s) == c + Base(s)[|c|..];
    UnbegunNewlines(c, s[|c|..], Base(s)[|c|..]);
    UnbegunNewlines(c, s[|c|..], "\n\n");
  }

  lemma {:induction false} OldFindsNothing(s: string, pos: nat)
    requires Unbegun(s)
    ensures OldFind(s, pos).None?
    decreases |s| - pos
  {
    if pos < |s| {
      if At(s, pos, HEADER) { HeaderIsBegin(s, pos); }
      OldFindsNothing(s, pos + 1);
    }
  }

  /** Whichever release wrote the block, the older writer finds it and reads its `hash=`. */
  lemma {:induction false} OldFindsFrame(a: string, hash: string, rest: string, ref: string, pos: nat)
    requires Unbegun(a) && pos <= |a|
    requires ValidHash(hash) && ValidRest(rest) && ValidRef(ref)
    ensures var m := OldFind(a + Frame(hash, rest, ref), pos);
            m.Some? && m.value.hash == hash
    decreases |a| - pos
  {
    var f := Frame(hash, rest, ref);
    hide *;
    assert f + [] == f;
    FrameIsBlock(hash, rest, ref, []);
    if pos < |a| {
      FrameStarts(hash, rest, ref);
      OldSkips(a, f, pos);
      OldFindsFrame(a, hash, rest, ref, pos + 1);
    } else {
      OldReadsBlock(a, f);
    }
  }

  lemma FrameStarts(hash: string, rest: string, ref: string)
    ensures Frame(hash, rest, ref) != [] && Frame(hash, rest, ref)[0] == '<'
  {
    FrameBegins(hash, rest, ref, []);
    assert Frame(hash, rest, ref) + [] == Frame(hash, rest, ref);
    AtChar(Frame(hash, rest, ref), 0, BEGIN, 0);
  }

  lemma OldSkips(a: string, x: string, p: nat)
    requires Unbegun(a) && p < |a| && (x != [] ==> x[0] == '<')
    ensures OldFind(a + x, p) == OldFind(a + x, p + 1)
  {
    NoHeaderBefore(a, x, p);
    hide HeaderAt, Unbegun;
  }

  lemma NoHeaderBefore(a: string, x: string, p: nat)
    requires Unbegun(a) && p < |a| && (x != [] ==> x[0] == '<')
    ensures HeaderAt(a + x, p).None?
  {
    if At(a + x, p, HEADER) {
      HeaderIsBegin(a + x, p);
      TokenShape();
      if |a| < p + 16 {
        AtChar(a + x, p, BEGIN, |a| - p);
      } else {
        AtPrefix(a, x, p, BEGIN);
      }
    }
  }

  lemma OldReadsBlock(a: string, f: string)
    requires BlockAt(f, 0).Some?
    ensures var m := OldFind(a + f, |a|);
            m.Some? && m.value.hash == BlockAt(f, 0).value.hash
  {
    BlockAtShift(a, f, 0);
    assert a + f != [] && |a| < |a + f| by { assert f != []; }
  }

  // ---- interleavings ------------------------------------------------------------------------

  datatype Writer = ThisRelease | Older

  ghost function CoStep(content: Option<string>, w: Writer, d: Directive, expand: string -> string): Option<string> {
    match w
    case ThisRelease => Reconciled(content, d)
    case Older => OldTick(content, d, expand)
  }

  /** Whether the writer decides to write. */
  ghost predicate WouldWrite(content: Option<string>, w: Writer, d: Directive) {
    match w
    case ThisRelease => !Settled(content, d)
    case Older => content.None? || OldFind(content.value, 0).None? || OldFind(content.value, 0).value.hash != d.hash
  }

  ghost function CoRun(content: Option<string>, schedule: seq<Writer>, d: Directive,
                       expand: string -> string): Option<string>
    decreases |schedule|
  {
    if schedule == [] then content
    else CoRun(CoStep(content, schedule[0], d, expand), schedule[1..], d, expand)
  }

  ghost function CountWrites(content: Option<string>, schedule: seq<Writer>, d: Directive,
                             expand: string -> string): nat
    decreases |schedule|
  {
    if schedule == [] then 0
    else (if WouldWrite(content, schedule[0], d) then 1 else 0) +
         CountWrites(CoStep(content, schedule[0], d, expand), schedule[1..], d, expand)
  }

  ghost predicate Fresh(content: Option<string>) {
    content.Some? ==> Unbegun(content.value)
  }

  ghost predicate HoldsOld(content: Option<string>, d: Directive) {
    exists a :: Unbegun(a) && content == Some(a + OldBlock(d))
  }

  /** The one block is this release's, with the ref in it literally. */
  ghost predicate HoldsNew(content: Option<string>, d: Directive) {
    exists a :: Unbegun(a) && content == Some(a + Rendered(d))
  }

  lemma OldRestValid()
    ensures ValidRest(OLD_REST) && RenderField(OLD_REST) == ""
  {
    hide RenderField;
    assert NoAngle("\n     Inserted by pilot-daemon.") && NoAngle(" Remove with: pilotctl ") &&
             NoAngle("skills disable\n");
    NoField(OLD_REST);
  }

  lemma NoField(rest: string)
    requires rest != [] && rest[0] != ' '
    ensures RenderField(rest) == ""
  {
    if At(rest, 0, " r=") { AtChar(rest, 0, " r=", 0); }
  }

  lemma FreshStep(content: Option<string>, w: Writer, d: Directive, expand: string -> string)
    requires Valid(d) && Fresh(content)
    ensures w == ThisRelease ==> HoldsNew(CoStep(content, w, d, expand), d)
    ensures w == Older ==> HoldsOld(CoStep(content, w, d, expand), d)
  {
    hide Unbegun, Rendered, OldBlock, Base;
    EmptyUnbegun();
    assert [] + Rendered(d) == Rendered(d) && [] + OldBlock(d) == OldBlock(d);
    if content.Some? {
      UnbegunHasNoBlock(content.value);
      BaseUnbegun(content.value);
      OldFindsNothing(content.value, 0);
    }
  }

  lemma EmptyUnbegun()
    ensures Unbegun("")
  {
  }

  lemma OldStep(content: Option<string>, w: Writer, d: Directive, expand: string -> string)
    requires Valid(d) && HoldsOld(content, d)
    ensures w == ThisRelease ==> HoldsNew(CoStep(content, w, d, expand), d)
    ensures w == Older ==> CoStep(content, w, d, expand) == content && !WouldWrite(content, w, d)
  {
    var a :| Unbegun(a) && content == Some(a + OldBlock(d));
    OldRestValid();
    if w == Older {
      OldFindsFrame(a, d.hash, OLD_REST, d.ref, 0);
    } else {
      UnbegunHasNoBlock(a);
      ScanDistributes(a, d.hash, OLD_REST, d.ref, []);
      hide Unbegun, Rendered, Frame, ValidRest;
      var s := a + OldBlock(d);
      assert s == a + OldBlock(d) + [];
      KeptAfterFirst(s);
      assert s[..|a|] == a && s[|s|..] == [];
      KeptOfEmpty();
      assert a + Rendered(d) + [] == a + Rendered(d);
    }
  }

  lemma KeptOfEmpty()
    ensures Kept("", 0) == "" && Blocks("") == []
  {
  }

  lemma NewStep(content: Option<string>, w: Writer, d: Directive, expand: string -> string)
    requires Valid(d) && HoldsNew(content, d)
    ensures CoStep(content, w, d, expand) == content && !WouldWrite(content, w, d)
  {
    var a :| Unbegun(a) && content == Some(a + Rendered(d));
    RenderRestValid(d.r);
    if w == Older {
      OldFindsFrame(a, d.hash, RenderRest(d.r), d.ref, 0);
    } else {
      UnbegunHasNoBlock(a);
      ScanDistributes(a, d.hash, RenderRest(d.r), d.ref, []);
      hide Unbegun, Frame;
      assert a + Rendered(d) + [] == a + Rendered(d);
      KeptOfEmpty();
    }
  }

  lemma {:induction false} NewForever(content: Option<string>, schedule: seq<Writer>, d: Directive,
                                      expand: string -> string)
    requires Valid(d) && HoldsNew(content, d)
    ensures CountWrites(content, schedule, d, expand) == 0 && CoRun(content, schedule, d, expand) == content
    decreases |schedule|
  {
    if schedule != [] {
      NewStep(content, schedule[0], d, expand);
      NewForever(content, schedule[1..], d, expand);
    }
  }

  lemma {:induction false} OldUntilThis(content: Option<string>, schedule: seq<Writer>, d: Directive,
                                        expand: string -> string)
    requires Valid(d) && HoldsOld(content, d)
    ensures CountWrites(content, schedule, d, expand) <= 1
    ensures ThisRelease in schedule ==> HoldsNew(CoRun(content, schedule, d, expand), d)
    decreases |schedule|
  {
    if schedule != [] {
      hide HoldsOld, HoldsNew, WouldWrite, CoStep, Valid;
      OldStep(content, schedule[0], d, expand);
      if schedule[0] == ThisRelease {
        NewForever(CoStep(content, schedule[0], d, expand), schedule[1..], d, expand);
      } else {
        OldUntilThis(content, schedule[1..], d, expand);
      }
    }
  }

  /** Main result on two writers: in any interleaving, at most two writes happen, and once this
      release has ticked nobody writes again and its block stays, with the ref in it literally. */
  lemma TwoWritersSettle(content: Option<string>, schedule: seq<Writer>, more: seq<Writer>,
                         d: Directive, expand: string -> string)
    requires Valid(d) && Fresh(content)
    ensures CountWrites(content, schedule, d, expand) <= 2
    ensures ThisRelease in schedule ==>
              var c := CoRun(content, schedule, d, expand);
              HoldsNew(c, d) && CountWrites(c, more, d, expand) == 0 && CoRun(c, more, d, expand) == c
  {
    if schedule != [] {
      var next := CoStep(content, schedule[0], d, expand);
      FreshStep(content, schedule[0], d, expand);
      hide HoldsOld, HoldsNew, WouldWrite, CoStep, Valid;
      if schedule[0] == ThisRelease {
        NewForever(next, schedule[1..], d, expand);
      } else {
        OldUntilThis(next, schedule[1..], d, expand);
      }
      var c := CoRun(content, schedule, d, expand);
      if ThisRelease in schedule { NewForever(c, more, d, expand); }
    }
  }
}
