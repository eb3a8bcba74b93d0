/**
 When a removal undoes a merge, for all pairs of managed paths, also where one of them lies on
 the way to the other.
 */
module Inverse {
  import opened Text
  import opened Json
  import opened AllowList

  /** Objects nested along a path, with nothing else in them. */
  function Nest(keys: seq<string>): Fields {
    if keys == [] then map[] else map[keys[0] := Obj(Nest(keys[1..]))]
  }

  /** The entries are an object without the id. */
  ghost predicate Ready(o: Fields, entries: Path, id: string) {
    Get(o, entries).Some? && Get(o, entries).value.Obj? && !HasEntry(o, entries, id)
  }

  /** The exact condition. Where the allow-list path leads to the entries, the merge overwrites
      what is there and the removal leaves the bare way; where it leads into the id's own entry,
      the array goes with the entry. */
  ghost predicate Undoable(o: Fields, allow: Path, entries: Path, id: string) {
    if allow <= entries then Get(o, allow) == Some(Obj(Nest(entries[|allow|..])))
    else if EntryPath(entries, id) <= allow then Ready(o, entries, id)
    else Prepared(o, allow, entries, id)
  }

  // ---- the allow-list inside the id's own entry -----------------------------------------------

  /** A write below the entries leaves them an object. */
  lemma EntriesStay(o: Fields, entries: Path, s: seq<string>, v: Json)
    requires s != []
    ensures Get(Put(o, entries + s, v), entries).Some? && Get(Put(o, entries + s, v), entries).value.Obj?
  {
    GetPutAbove(o, entries, v, s);
  }

  lemma WithoutEntryDeletes(o: Fields, entries: Path, id: string)
    ensures WithoutEntry(o, entries, id) == Delete(o, EntryPath(entries, id))
  {
    if !HasEntry(o, entries, id) { DeleteAbsent(o, EntryPath(entries, id)); }
  }

  /** One of the edits below the id's entry, or none. */
  ghost predicate EditsBelow(o: Fields, u: Fields, e: Path) {
    u == o || exists s: seq<string>, v: Json :: u == Put(o, e + s, v)
  }

  lemma EditForgotten(o: Fields, u: Fields, entries: Path, id: string)
    requires EditsBelow(o, u, EntryPath(entries, id)) && Get(o, entries).Some? && Get(o, entries).value.Obj?
    ensures Get(u, entries).Some? && Get(u, entries).value.Obj?
    ensures Delete(u, EntryPath(entries, id)) == Delete(o, EntryPath(entries, id))
  {
    if u != o {
      var s: seq<string>, v: Json :| u == Put(o, EntryPath(entries, id) + s, v);
      hide Get, Put, Delete;
      assert EntryPath(entries, id) + s == entries + ([id] + s);
      EntriesStay(o, entries, [id] + s, v);
      DeleteForgetsPut(o, entries, id, s, v);
    }
  }

  lemma AllowedBelow(o: Fields, allow: Path, entries: Path, id: string)
    requires EntryPath(entries, id) <= allow
    ensures EditsBelow(o, WithAllowed(o, allow, id), EntryPath(entries, id))
    ensures EditsBelow(o, WithoutAllowed(o, allow, id), EntryPath(entries, id))
  {
    var e := EntryPath(entries, id);
    var s := allow[|e|..];
    assert allow == e + s;
    hide Put, Get, Without;
    assert WithAllowed(o, allow, id) == o ||
             WithAllowed(o, allow, id) == Put(o, e + s, Arr(Items(o, allow) + [Str(id)]));
    assert WithoutAllowed(o, allow, id) == o ||
             WithoutAllowed(o, allow, id) == Put(o, e + s, Arr(Without(Items(o, allow), Str(id))));
  }

  lemma FlagBelow(o: Fields, entries: Path, id: string)
    ensures EditsBelow(o, WithEnabled(o, entries, id), EntryPath(entries, id))
    ensures Get(WithEnabled(o, entries, id), entries).Some? && Get(WithEnabled(o, entries, id), entries).value.Obj?
  {
    FlagBelowEntry(entries, id);
    hide Put, Get;
    assert WithEnabled(o, entries, id) == Put(o, EntryPath(entries, id) + [ENABLED], Bool(true));
    assert EnabledPath(entries, id) == entries + [id, ENABLED];
    EntriesStay(o, entries, [id, ENABLED], Bool(true));
  }

  lemma InsideEntry(o: Fields, allow: Path, entries: Path, id: string)
    requires EntryPath(entries, id) <= allow
    ensures Removed(Merged(o, allow, entries, id), allow, entries, id) == o <==> Ready(o, entries, id)
  {
    var e := EntryPath(entries, id);
    var a := WithAllowed(o, allow, id);
    var m := Merged(o, allow, entries, id);
    var n := WithoutAllowed(m, allow, id);
    var r := Removed(m, allow, entries, id);
    AllowedBelow(o, allow, entries, id);
    FlagBelow(a, entries, id);
    AllowedBelow(m, allow, entries, id);
    WithoutEntryDeletes(n, entries, id);
    RemovalDistrusts(m, allow, entries, id);
    assert m == WithEnabled(a, entries, id) && r == WithoutEntry(n, entries, id);
    hide Put, Get, Delete, WithAllowed, WithoutAllowed, WithEnabled, WithoutEntry, EditsBelow, Merged, Removed, Without;
    EditForgotten(m, n, entries, id);
    DeleteKeepsObject(n, entries, id);
    if Ready(o, entries, id) {
      EditForgotten(o, a, entries, id);
      EditForgotten(a, m, entries, id);
      DeleteAbsent(o, e);
    }
  }

  // ---- the allow-list on the way to the entries ------------------------------------------------------

  /** A write below a value that is no object replaces the value. */
  lemma {:induction false} PutBelowLeaf(o: Fields, p: Path, r: Path, v: Json)
    requires Get(o, p).Some? && !Get(o, p).value.Obj?
    ensures Put(o, p + r, v) == Put(o, p, Obj(Put(map[], r, v)))
    decreases |p|
  {
    assert (p + r)[0] == p[0] && (p + r)[1..] == p[1..] + r;
    if |p| > 1 {
      PutBelowLeaf(o[p[0]].fields, p[1..], r, v);
    } else {
      assert (p + r)[1..] == r;
    }
  }

  lemma {:induction false} DeleteBelowPut(o: Fields, p: Path, g: Fields, d: Path)
    ensures Delete(Put(o, p, Obj(g)), p + d) == Put(o, p, Obj(Delete(g, d)))
    decreases |p|
  {
    assert (p + d)[0] == p[0] && (p + d)[1..] == p[1..] + d;
    if |p| > 1 {
      DeleteBelowPut(Child(o, p[0]), p[1..], g, d);
    } else {
      assert (p + d)[1..] == d;
    }
  }

  /** Writing the flag into nothing and deleting the entry leaves the bare way. */
  lemma {:induction false} BareWay(keys: seq<string>, id: string)
    ensures Delete(Put(map[], keys + [id, ENABLED], Bool(true)), keys + [id]) == Nest(keys)
  {
    if keys == [] {
      assert [] + [id, ENABLED] == [id, ENABLED] && [] + [id] == [id];
    } else {
      assert (keys + [id, ENABLED])[0] == keys[0] && (keys + [id, ENABLED])[1..] == keys[1..] + [id, ENABLED];
      assert (keys + [id])[0] == keys[0] && (keys + [id])[1..] == keys[1..] + [id];
      BareWay(keys[1..], id);
    }
  }

  lemma AllowedIsArray(o: Fields, allow: Path, id: string)
    ensures var a := WithAllowed(o, allow, id);
            && Get(a, allow).Some? && Get(a, allow).value.Arr?
            && forall v: Json :: Put(a, allow, v) == Put(o, allow, v)
  {
    var items := Arr(Items(o, allow) + [Str(id)]);
    GetPutSame(o, allow, items);
    forall v: Json ensures Put(WithAllowed(o, allow, id), allow, v) == Put(o, allow, v) {
      PutPutSame(o, allow, items, v);
    }
  }

  lemma OnTheWay(o: Fields, allow: Path, entries: Path, id: string)
    requires allow <= entries
    ensures Removed(Merged(o, allow, entries, id), allow, entries, id) == Put(o, allow, Obj(Nest(entries[|allow|..])))
  {
    var keys := entries[|allow|..];
    var e, flag := EntryPath(entries, id), EnabledPath(entries, id);
    var a := WithAllowed(o, allow, id);
    var m := Merged(o, allow, entries, id);
    assert e == allow + (keys + [id]) && flag == allow + (keys + [id, ENABLED]);
    MergeTrusts(o, allow, entries, id);
    AllowedIsArray(o, allow, id);
    assert Comparable(allow, flag);
    WithoutEntryDeletes(m, entries, id);
    assert WithoutAllowed(m, allow, id) == m;
    hide Put, Get, Delete, WithAllowed, Comparable, Nest;
    var g := Put(map[], keys + [id, ENABLED], Bool(true));
    PutBelowLeaf(a, allow, keys + [id, ENABLED], Bool(true));
    DeleteBelowPut(o, allow, g, keys + [id]);
    BareWay(keys, id);
  }

  /** Main result on undoing: whatever the tree and the paths, removal after merge gives back the
      original tree exactly when it was undoable. */
  lemma RemovalUndoesMerge(o: Fields, allow: Path, entries: Path, id: string)
    ensures Removed(Merged(o, allow, entries, id), allow, entries, id) == o <==> Undoable(o, allow, entries, id)
  {
    var e := EntryPath(entries, id);
    hide Removed, Merged, Get, Put, Nest;
    if allow <= entries {
      var way := Obj(Nest(entries[|allow|..]));
      OnTheWay(o, allow, entries, id);
      GetPutSame(o, allow, way);
      if Get(o, allow) == Some(way) { PutPresent(o, allow, way); }
    } else if e <= allow {
      InsideEntry(o, allow, entries, id);
    } else {
      NeitherOnTheWay(allow, entries, id);
      ApartRemovalUndoesMerge(o, allow, entries, id);
    }
  }

  lemma NeitherOnTheWay(allow: Path, entries: Path, id: string)
    requires !(allow <= entries) && !(EntryPath(entries, id) <= allow)
    ensures !Comparable(allow, EntryPath(entries, id))
  {
  }

  // ---- concrete trees ---------------------------------------------------------------------------------

  /** A merge into nothing is not undone: the two containers stay. */
  lemma EmptyIsNotGivenBack(id: string)
    ensures var allow: Path, entries: Path := ["plugins", "allow"], ["plugins", "entries"];
            Removed(Merged(map[], allow, entries, id), allow, entries, id) != map[]
  {
    var allow: Path, entries: Path := ["plugins", "allow"], ["plugins", "entries"];
    RemovalUndoesMerge(map[], allow, entries, id);
    assert !(allow <= entries) by { assert allow[1] != entries[1]; }
    assert !(EntryPath(entries, id) <= allow) by { assert |EntryPath(entries, id)| == 3; }
    hide Removed, Merged;
  }

  /** With the allow-list at the entries themselves the id ends up enabled but not allowed. */
  lemma OnePathForBoth(id: string)
    ensures !Allows(Merged(map[], ["plugins"], ["plugins"], id), ["plugins"], id)
    ensures Enables(Merged(map[], ["plugins"], ["plugins"], id), ["plugins"], id)
  {
    MergeTrusts(map[], ["plugins"], ["plugins"], id);
    assert Comparable(["plugins"], EnabledPath(["plugins"], id));
    hide Allows, Enables, Merged;
  }

  /** An array inside the id's own entry comes and goes with the entry. */
  lemma ArrayInEntry(id: string)
    ensures var o: Fields := map["e" := Obj(map[])];
            Removed(Merged(o, ["e", id, "x"], ["e"], id), ["e", id, "x"], ["e"], id) == o
  {
    var o: Fields := map["e" := Obj(map[])];
    var allow: Path, entries: Path := ["e", id, "x"], ["e"];
    RemovalUndoesMerge(o, allow, entries, id);
    EntryReads(o, entries, id);
    assert Get(o, entries) == Some(Obj(map[]));
    assert EntryPath(entries, id) <= allow && !(allow <= entries);
    assert Ready(o, entries, id);
    hide Removed, Merged;
  }
}
