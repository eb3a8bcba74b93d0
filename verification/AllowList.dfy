/**
 What merging a plugin into a tool's config, and removing it again, does to the JSON tree.
 */
module AllowList {
  import opened Text
  import opened Json

  function EnabledPath(entries: Path, id: string): Path {
    entries + [id, ENABLED]
  }

  function EntryPath(entries: Path, id: string): Path {
    entries + [id]
  }

  // ---- merge ----------------------------------------------------------------------------

  lemma ItemsFromGet(o: Fields, u: Fields, p: Path)
    requires Get(o, p) == Get(u, p)
    ensures Items(o, p) == Items(u, p)
  {
  }

  lemma PutItems(o: Fields, p: Path, items: seq<Json>)
    ensures Items(Put(o, p, Arr(items)), p) == items
  {
    GetPutSame(o, p, Arr(items));
  }

  /** Writing a flag at a comparable path leaves no array at `allow`. */
  lemma FlagShadowsArray(o: Fields, allow: Path, q: Path)
    requires Comparable(allow, q)
    ensures Items(Put(o, q, Bool(true)), allow) == []
  {
    var u := Put(o, q, Bool(true));
    if allow == q {
      GetPutSame(o, q, Bool(true));
    } else if allow <= q {
      assert q == allow + q[|allow|..];
      GetPutAbove(o, allow, Bool(true), q[|allow|..]);
    } else {
      assert allow == q + allow[|q|..];
      GetPutBelow(o, q, Bool(true), allow[|q|..]);
    }
  }

  /** Main result on the merge: it ends with the id allowed and enabled exactly when neither the
      allow-list path nor the id's flag lies on the way to the other. */
  lemma MergeTrusts(o: Fields, allow: Path, entries: Path, id: string)
    ensures var m := Merged(o, allow, entries, id);
            && Enables(m, entries, id)
            && (Allows(m, allow, id) <==> !Comparable(allow, EnabledPath(entries, id)))
  {
    var a := WithAllowed(o, allow, id);
    var flag := EnabledPath(entries, id);
    assert Allows(a, allow, id) by {
      PutItems(o, allow, Items(o, allow) + [Str(id)]);
    }
    GetPutSame(a, flag, Bool(true));
    hide Get, Put, WithAllowed, Comparable;
    if Comparable(allow, flag) {
      FlagShadowsArray(a, allow, flag);
    } else {
      ComparableSym(allow, flag);
      GetPutOther(a, flag, Bool(true), allow);
      ItemsFromGet(Put(a, flag, Bool(true)), a, allow);
    }
  }

  /** The frame of the merge: every path not comparable to the two managed ones reads as before. */
  lemma MergeFrame(o: Fields, allow: Path, entries: Path, id: string, p: Path)
    requires !Comparable(allow, p) && !Comparable(EnabledPath(entries, id), p)
    ensures Get(Merged(o, allow, entries, id), p) == Get(o, p)
  {
    hide Get, Put, Comparable;
    GetPutOther(o, allow, Arr(Items(o, allow) + [Str(id)]), p);
    GetPutOther(WithAllowed(o, allow, id), EnabledPath(entries, id), Bool(true), p);
  }

  /** Other ids keep their places: the array only grows at its end, and only when the id is new. */
  lemma MergeKeepsOrder(o: Fields, allow: Path, entries: Path, id: string)
    requires !Comparable(allow, EnabledPath(entries, id))
    ensures Items(Merged(o, allow, entries, id), allow) ==
            if Allows(o, allow, id) then Items(o, allow) else Items(o, allow) + [Str(id)]
  {
    PutItems(o, allow, Items(o, allow) + [Str(id)]);
    hide Get, Put, Comparable;
    var a := WithAllowed(o, allow, id);
    ComparableSym(allow, EnabledPath(entries, id));
    GetPutOther(a, EnabledPath(entries, id), Bool(true), allow);
    ItemsFromGet(Merged(o, allow, entries, id), a, allow);
  }

  /** A second merge changes nothing. */
  lemma MergeIdempotent(o: Fields, allow: Path, entries: Path, id: string)
    requires !Comparable(allow, EnabledPath(entries, id))
    ensures var m := Merged(o, allow, entries, id); Merged(m, allow, entries, id) == m
  {
    MergeTrusts(o, allow, entries, id);
    hide Get, Put, Comparable;
    var m := Merged(o, allow, entries, id);
    PutPresent(m, EnabledPath(entries, id), Bool(true));
  }

  // ---- removal --------------------------------------------------------------------------

  lemma {:induction false} WithoutSpec(items: seq<Json>, v: Json)
    ensures v !in Without(items, v)
    ensures forall w :: w in Without(items, v) ==> w in items
    ensures v !in items ==> Without(items, v) == items
  {
    if items != [] {
      WithoutSpec(items[1..], v);
      assert items == [items[0]] + items[1..];
    }
  }

  lemma {:induction false} WithoutAppend(a: seq<Json>, b: seq<Json>, v: Json)
    ensures Without(a + b, v) == Without(a, v) + Without(b, v)
  {
    if a == [] {
      assert a + b == b;
    } else {
      assert (a + b)[0] == a[0] && (a + b)[1..] == a[1..] + b;
      WithoutAppend(a[1..], b, v);
    }
  }

  /** Deleting a key puts nothing into any array. */
  lemma {:induction false} DeleteAddsNothing(o: Fields, q: Path, p: Path, v: Json)
    requires v in Items(Delete(o, q), p)
    ensures v in Items(o, p)
    decreases |p|
  {
    if |q| > 1 && |p| > 1 && p[0] == q[0] && q[0] in o && o[q[0]].Obj? {
      DeleteAddsNothing(o[q[0]].fields, q[1..], p[1..], v);
    }
  }

  lemma NoEntryNoFlag(o: Fields, entries: Path, id: string)
    requires !HasEntry(o, entries, id)
    ensures !Enables(o, entries, id)
  {
    NothingBelow(o, EntryPath(entries, id), [ENABLED]);
    assert entries + [id] + [ENABLED] == entries + [id, ENABLED];
  }

  lemma {:induction false} NothingBelow(o: Fields, p: Path, r: Path)
    requires Get(o, p).None?
    ensures Get(o, p + r).None?
    decreases |p|
  {
    assert (p + r)[0] == p[0] && (p + r)[1..] == p[1..] + r;
    if |p| > 1 && p[0] in o && o[p[0]].Obj? { NothingBelow(o[p[0]].fields, p[1..], r); }
  }

  /** Main result on removal: whatever the paths and the tree, the id ends up neither allowed,
      nor enabled, nor listed among the entries. */
  lemma RemovalDistrusts(o: Fields, allow: Path, entries: Path, id: string)
    ensures var r := Removed(o, allow, entries, id);
            !Allows(r, allow, id) && !HasEntry(r, entries, id) && !Enables(r, entries, id)
  {
    var a := WithoutAllowed(o, allow, id);
    WithoutSpec(Items(o, allow), Str(id));
    PutItems(o, allow, Without(Items(o, allow), Str(id)));
    assert !Allows(a, allow, id);
    GetDeleteSame(a, EntryPath(entries, id));
    hide Get, Put, Delete;
    var r := Removed(o, allow, entries, id);
    if Allows(r, allow, id) { DeleteAddsNothing(a, EntryPath(entries, id), allow, Str(id)); }
    NoEntryNoFlag(r, entries, id);
  }

  /** The frame of a removal: every path not comparable to the two managed ones reads as before. */
  lemma RemovalFrame(o: Fields, allow: Path, entries: Path, id: string, p: Path)
    requires !Comparable(allow, p) && !Comparable(EntryPath(entries, id), p)
    ensures Get(Removed(o, allow, entries, id), p) == Get(o, p)
  {
    hide Get, Put, Delete, Comparable;
    GetPutOther(o, allow, Arr(Without(Items(o, allow), Str(id))), p);
    ComparableSym(EntryPath(entries, id), p);
    GetDeleteOther(WithoutAllowed(o, allow, id), p, EntryPath(entries, id));
  }

  // ---- removal undoes the merge -----------------------------------------------------------

  /** Both containers exist with the right kinds, and the id is in neither. */
  ghost predicate Prepared(o: Fields, allow: Path, entries: Path, id: string) {
    && Get(o, allow).Some? && Get(o, allow).value.Arr? && !Allows(o, allow, id)
    && Get(o, entries).Some? && Get(o, entries).value.Obj? && !HasEntry(o, entries, id)
  }

  lemma {:induction false} DeleteKeepsObject(o: Fields, q: Path, k: string)
    requires Get(o, q).Some? && Get(o, q).value.Obj?
    ensures Get(Delete(o, q + [k]), q).Some? && Get(Delete(o, q + [k]), q).value.Obj?
    decreases |q|
  {
    assert (q + [k])[0] == q[0] && (q + [k])[1..] == q[1..] + [k];
    if |q| > 1 { DeleteKeepsObject(o[q[0]].fields, q[1..], k); }
  }

  lemma IncomparableBelow(allow: Path, p: Path, r: Path)
    requires !Comparable(allow, p)
    ensures !Comparable(allow, p + r)
  {
    var k := DifferAt(allow, p);
    assert (p + r)[k] == p[k];
    DifferenceIncomparable(allow, p + r, k);
  }

  lemma DifferAt(p: Path, q: Path) returns (k: nat)
    requires !Comparable(p, q)
    ensures k < |p| && k < |q| && p[k] != q[k]
  {
    if forall k :: 0 <= k < |p| && k < |q| ==> p[k] == q[k] { SameUpToShorter(p, q); }
    k :| k < |p| && k < |q| && p[k] != q[k];
  }

  lemma SameUpToShorter(p: Path, q: Path)
    requires forall k :: 0 <= k < |p| && k < |q| ==> p[k] == q[k]
    ensures Comparable(p, q)
  {
  }

  lemma DifferenceIncomparable(p: Path, q: Path, k: nat)
    requires k < |p| && k < |q| && p[k] != q[k]
    ensures !Comparable(p, q)
  {
  }

  lemma FlagBelowEntry(entries: Path, id: string)
    ensures EnabledPath(entries, id) == EntryPath(entries, id) + [ENABLED]
    ensures EnabledPath(entries, id) == entries + [id] + [ENABLED]
  {
  }

  lemma RemoveAfterMerge(o: Fields, allow: Path, entries: Path, id: string)
    requires !Comparable(allow, EntryPath(entries, id)) && Prepared(o, allow, entries, id)
    ensures Removed(Merged(o, allow, entries, id), allow, entries, id) == o
  {
    var items := Items(o, allow);
    var flag := EnabledPath(entries, id);
    var a := Put(o, allow, Arr(items + [Str(id)]));
    FlagBelowEntry(entries, id);
    IncomparableBelow(allow, EntryPath(entries, id), [ENABLED]);
    MergeTrusts(o, allow, entries, id);
    MergeKeepsOrder(o, allow, entries, id);
    WithoutAppend(items, [Str(id)], Str(id));
    WithoutSpec(items, Str(id));
    assert Without([Str(id)], Str(id)) == [];
    assert Get(o, allow) == Some(Arr(items));
    hide Get, Put, Delete, Comparable, Without;
    var m := Merged(o, allow, entries, id);
    var n := Put(m, allow, Arr(items));
    PutPutCommute(a, flag, Bool(true), allow, Arr(items));
    PutPutSame(o, allow, Arr(items + [Str(id)]), Arr(items));
    PutPresent(o, allow, Arr(items));
    assert items + [] == items;
    assert n == Put(o, flag, Bool(true));
    assert WithoutAllowed(m, allow, id) == n;
    EntryReads(o, entries, id);
    DeleteUndoesPut(o, entries, id, [ENABLED], Bool(true));
    if !HasEntry(n, entries, id) {
      NoEntryNoFlag(n, entries, id);
      GetPutSame(o, flag, Bool(true));
    }
  }

  /** What a merge and a removal leave behind always has the two containers, without the id. */
  lemma RoundTripPrepared(o: Fields, allow: Path, entries: Path, id: string)
    requires !Comparable(allow, EntryPath(entries, id))
    ensures Prepared(Removed(Merged(o, allow, entries, id), allow, entries, id), allow, entries, id)
  {
    var flag := EnabledPath(entries, id);
    FlagBelowEntry(entries, id);
    IncomparableBelow(allow, EntryPath(entries, id), [ENABLED]);
    MergeTrusts(o, allow, entries, id);
    RemovalDistrusts(Merged(o, allow, entries, id), allow, entries, id);
    hide Comparable;
    var m := Merged(o, allow, entries, id);
    var items := Without(Items(m, allow), Str(id));
    var n := Put(m, allow, Arr(items));
    assert n == WithoutAllowed(m, allow, id);
    GetPutSame(m, allow, Arr(items));
    ComparableSym(allow, flag);
    GetPutOther(m, allow, Arr(items), flag);
    hide Put, Delete, Get, Without;
    EntriesObject(n, entries, id);
    DeleteKeepsObject(n, entries, id);
    GetDeleteOther(n, allow, EntryPath(entries, id));
  }

  lemma ComparableSym(p: Path, q: Path)
    ensures Comparable(p, q) <==> Comparable(q, p)
  {
  }

  /** An enabled flag stands below an object of entries. */
  lemma EntriesObject(o: Fields, entries: Path, id: string)
    requires Enables(o, entries, id)
    ensures Get(o, entries).Some? && Get(o, entries).value.Obj? && HasEntry(o, entries, id)
  {
    FlagBelowEntry(entries, id);
    EntryReads(o, entries + [id], ENABLED);
    EntryReads(o, entries, id);
  }

  /** With the allow-list apart from the id's entry, removal after merge gives back the original
      tree exactly when both containers were there with the right kinds and without the id. */
  lemma ApartRemovalUndoesMerge(o: Fields, allow: Path, entries: Path, id: string)
    requires !Comparable(allow, EntryPath(entries, id))
    ensures Removed(Merged(o, allow, entries, id), allow, entries, id) == o <==> Prepared(o, allow, entries, id)
  {
    RoundTripPrepared(o, allow, entries, id);
    hide Removed, Merged, Comparable;
    if Prepared(o, allow, entries, id) { RemoveAfterMerge(o, allow, entries, id); }
  }

  // ---- two plugins in one config ------------------------------------------------------------

  lemma SiblingsIncomparable(entries: Path, a: string, b: string)
    requires a != b
    ensures !Comparable(EnabledPath(entries, a), EntryPath(entries, b))
  {
    DifferenceIncomparable(EnabledPath(entries, a), EntryPath(entries, b), |entries|);
  }

  /** The two halves of the edits commute one by one. */
  lemma AllowedCommute(o: Fields, allow: Path, a: string, b: string)
    requires a != b
    ensures WithoutAllowed(WithAllowed(o, allow, a), allow, b) == WithAllowed(WithoutAllowed(o, allow, b), allow, a)
  {
    var items := Items(o, allow);
    WithoutAppend(items, [Str(a)], Str(b));
    assert Without([Str(a)], Str(b)) == [Str(a)];
    WithoutKeeps(items, Str(a), Str(b));
    hide Get, Put, Without;
    PutItems(o, allow, items + [Str(a)]);
    PutItems(o, allow, Without(items, Str(b)));
    PutPutSame(o, allow, Arr(items + [Str(a)]), Arr(Without(items, Str(b)) + [Str(a)]));
    PutPutSame(o, allow, Arr(Without(items, Str(b))), Arr(Without(items, Str(b)) + [Str(a)]));
  }

  lemma {:induction false} WithoutKeeps(items: seq<Json>, v: Json, w: Json)
    requires v != w
    ensures v in Without(items, w) <==> v in items
  {
    if items != [] { WithoutKeeps(items[1..], v, w); }
  }

  lemma EntryThenFlag(o: Fields, entries: Path, a: string, b: string)
    requires a != b
    ensures WithoutEntry(WithEnabled(o, entries, a), entries, b) == WithEnabled(WithoutEntry(o, entries, b), entries, a)
  {
    SiblingsIncomparable(entries, a, b);
    hide Get, Put, Delete, Comparable;
    DeletePutCommute(o, EnabledPath(entries, a), Bool(true), EntryPath(entries, b));
    GetPutOther(o, EnabledPath(entries, a), Bool(true), EntryPath(entries, b));
  }

  lemma FlagThenAllowed(o: Fields, allow: Path, entries: Path, a: string, b: string)
    requires !Comparable(allow, EnabledPath(entries, a))
    ensures WithoutAllowed(WithEnabled(o, entries, a), allow, b) == WithEnabled(WithoutAllowed(o, allow, b), entries, a)
  {
    hide Get, Put, Comparable, Without;
    var flag := EnabledPath(entries, a);
    ComparableSym(allow, flag);
    GetPutOther(o, flag, Bool(true), allow);
    ItemsFromGet(Put(o, flag, Bool(true)), o, allow);
    PutPutCommute(o, flag, Bool(true), allow, Arr(Without(Items(o, allow), Str(b))));
  }

  lemma EntryThenAllowed(o: Fields, allow: Path, entries: Path, a: string, b: string)
    requires !Comparable(allow, EntryPath(entries, b))
    ensures WithoutEntry(WithAllowed(o, allow, a), entries, b) == WithAllowed(WithoutEntry(o, entries, b), allow, a)
  {
    hide Get, Put, Delete, Comparable;
    var items := Items(o, allow) + [Str(a)];
    DeletePutCommute(o, allow, Arr(items), EntryPath(entries, b));
    GetPutOther(o, allow, Arr(items), EntryPath(entries, b));
    GetDeleteOther(o, allow, EntryPath(entries, b));
    ItemsFromGet(Delete(o, EntryPath(entries, b)), o, allow);
  }

  /** Main result on two plugins: merging one and dropping another commute. */
  lemma MergeAndDropCommute(o: Fields, allow: Path, entries: Path, a: string, b: string)
    requires a != b
    requires !Comparable(allow, EnabledPath(entries, a)) && !Comparable(allow, EntryPath(entries, b))
    ensures Removed(Merged(o, allow, entries, a), allow, entries, b) ==
            Merged(Removed(o, allow, entries, b), allow, entries, a)
  {
    hide WithAllowed, WithEnabled, WithoutAllowed, WithoutEntry, Comparable;
    var oa := WithAllowed(o, allow, a);
    var ob := WithoutAllowed(o, allow, b);
    FlagThenAllowed(oa, allow, entries, a, b);
    AllowedCommute(o, allow, a, b);
    EntryThenFlag(WithAllowed(ob, allow, a), entries, a, b);
    EntryThenAllowed(ob, allow, entries, a, b);
  }

  /** So pruning a retired plugin after merging an active one never costs the active one its trust. */
  lemma DropKeepsOthers(o: Fields, allow: Path, entries: Path, a: string, b: string)
    requires a != b
    requires !Comparable(allow, EnabledPath(entries, a)) && !Comparable(allow, EntryPath(entries, b))
    ensures var r := Removed(Merged(o, allow, entries, a), allow, entries, b);
            Allows(r, allow, a) && Enables(r, entries, a) && !Allows(r, allow, b) && !HasEntry(r, entries, b)
  {
    MergeAndDropCommute(o, allow, entries, a, b);
    hide Removed, Merged, Comparable, Enables, Allows, HasEntry;
    MergeTrusts(Removed(o, allow, entries, b), allow, entries, a);
    RemovalDistrusts(Merged(o, allow, entries, a), allow, entries, b);
  }
}
