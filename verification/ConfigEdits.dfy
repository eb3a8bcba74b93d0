/**
 The walk along a dotted path and the edits at its end (`walkObject` and its callers), as
 loops that change the nested maps in place.
 */
module ConfigEdits {
  import opened Text
  import opened Json
  import opened AllowList
  import opened ConfigTree

  /** The tree once every key on the way holds an object. */
  function Materialized(o: Fields, keys: seq<string>): Fields
    decreases |keys|
  {
    if keys == [] then o else o[keys[0] := Obj(Materialized(Child(o, keys[0]), keys[1..]))]
  }

  ghost predicate HoldsObject(o: Fields, p: Path) {
    Get(o, p).Some? && Get(o, p).value.Obj?
  }

  lemma {:induction false} MaterializedSnoc(o: Fields, keys: seq<string>, k: string)
    ensures Materialized(o, keys + [k]) ==
            var v := Materialized(o, keys);
            if HoldsObject(v, keys + [k]) then v else Put(v, keys + [k], Obj(map[]))
    decreases |keys|
  {
    if keys == [] {
      assert keys + [k] == [k] && [k][1..] == [];
    } else {
      assert (keys + [k])[0] == keys[0] && (keys + [k])[1..] == keys[1..] + [k];
      MaterializedSnoc(Child(o, keys[0]), keys[1..], k);
    }
  }

  /** Materialising the way does not matter to a later write at its end, or to a read there. */
  lemma {:induction false} PutMaterialized(o: Fields, keys: seq<string>, r: Path, v: Json)
    ensures Put(Materialized(o, keys), keys + r, v) == Put(o, keys + r, v)
    ensures Get(Materialized(o, keys), keys + r) == Get(o, keys + r)
    decreases |keys|
  {
    if keys == [] {
      assert keys + r == r;
    } else {
      assert (keys + r)[0] == keys[0] && (keys + r)[1..] == keys[1..] + r;
      PutMaterialized(Child(o, keys[0]), keys[1..], r, v);
    }
  }

  lemma {:induction false} MaterializedPresent(o: Fields, keys: seq<string>, k: string)
    requires Get(o, keys + [k]).Some?
    ensures Materialized(o, keys) == o
    decreases |keys|
  {
    if keys != [] {
      assert (keys + [k])[0] == keys[0] && (keys + [k])[1..] == keys[1..] + [k];
      MaterializedPresent(o[keys[0]].fields, keys[1..], k);
    }
  }

  /** A key of a reached node holds a map exactly when the tree holds an object there. */
  lemma MapUnderKey(ns: Store, keys: seq<string>, m: nat, k: string)
    requires m < |ns| && Reach(ns, 0, keys) == Some(m)
    ensures k in ns[m] && ns[m][k].Sub? <==> HoldsObject(ValueOf(ns, 0), keys + [k])
    ensures k in ns[m] && ns[m][k].Sub? <==> Reach(ns, 0, keys + [k]).Some?
  {
    ReadAt(ns, 0, keys, m, k);
    ReachSnoc(ns, 0, keys, k);
  }

  lemma ArrayUnderKey(ns: Store, keys: seq<string>, m: nat, k: string)
    requires m < |ns| && Reach(ns, 0, keys) == Some(m)
    ensures Items(ValueOf(ns, 0), keys + [k]) ==
            if k in ns[m] && ns[m][k].Leaf? && ns[m][k].v.Arr? then ns[m][k].v.items else []
  {
    ReadAt(ns, 0, keys, m, k);
  }

  lemma SameItems(o: Fields, keys: seq<string>, leaf: string)
    ensures Items(Materialized(o, keys), keys + [leaf]) == Items(o, keys + [leaf])
    ensures Items(o, keys + [leaf]) != [] ==> Get(o, keys + [leaf]).Some?
  {
    PutMaterialized(o, keys, [leaf], Null);
    hide Materialized, Get;
  }

  lemma LeafValue(ns: Store, v: Json)
    ensures SlotValue(ns, Leaf(v)) == v
  {
  }

  lemma WithAllowedIs(o: Fields, path: Path, id: string)
    ensures WithAllowed(o, path, id) ==
            if Str(id) in Items(o, path) then o else Put(o, path, Arr(Items(o, path) + [Str(id)]))
  {
    hide Items, Put;
  }

  lemma WalkStart(ns: Store, o: Fields)
    ensures 0 < |ns| && Reach(ns, 0, []) == Some(0) && Materialized(o, []) == o
  {
  }

  lemma WalkStopped(ns: Store, path: Path, i: nat)
    requires i < |path| && Reach(ns, 0, path[..i]).None?
    ensures Reach(ns, 0, path[..|path| - 1]).None?
  {
    assert path[..|path| - 1][..i] == path[..i];
    ReachLonger(ns, path[..|path| - 1], i);
  }

  class Config {
    var nodes: Store

    ghost function Value(): Fields
      reads this
    {
      ValueOf(nodes, 0)
    }

    /** The map under a key, put there if the key holds no map: `next, ok := cur[k].(map…)`. */
    method ObjectAt(cur: nat, k: string, ghost keys: seq<string>) returns (next: nat)
      requires Reach(nodes, 0, keys) == Some(cur)
      modifies this
      ensures next < |nodes| && Reach(nodes, 0, keys + [k]) == Some(next)
      ensures HoldsObject(old(Value()), keys + [k]) ==> nodes == old(nodes)
      ensures Value() == if HoldsObject(old(Value()), keys + [k]) then old(Value())
                         else Put(old(Value()), keys + [k], Obj(map[]))
    {
      ReadAt(nodes, 0, keys, cur, k);
      ReachSnoc(nodes, 0, keys, k);
      if k in nodes[cur] && nodes[cur][k].Sub? {
        next := nodes[cur][k].id;
      } else {
        ghost var before := nodes;
        AppendWellFormed(nodes);
        AppendedUnseen(nodes, 0);
        AppendedReach(nodes, 0, keys);
        next := |nodes|;
        nodes := nodes + [map[]];
        ghost var middle := nodes;
        AssignWellFormed(middle, cur, k, Sub(next));
        nodes := nodes[cur := nodes[cur][k := Sub(next)]];
        AssignIsPut(middle, nodes, keys, cur, k, Sub(next));
        ReachSnoc(nodes, 0, keys, k);
        EmptyNode(nodes, next);
      }
    }

    /** `walkObject`: the container at the end of the path and the last key. */
    method WalkObject(path: Path, create: bool) returns (parent: Option<nat>, leaf: string)
      modifies if create then {this} else {}
      ensures create ==> parent.Some? && Value() == Materialized(old(Value()), path[..|path| - 1])
      ensures !create ==> nodes == old(nodes)
      ensures !create ==> (parent.Some? <==> Reach(nodes, 0, path[..|path| - 1]).Some?)
      ensures parent.Some? ==>
                parent.value < |nodes| && leaf == path[|path| - 1] && Reach(nodes, 0, path[..|path| - 1]) == parent
    {
      hide *;
      ghost var o := Value();
      var cur := 0;
      var i := 0;
      WalkStart(nodes, o);
      assert path[..0] == [];
      while i < |path| - 1
        invariant 0 <= i <= |path| - 1
        invariant 0 <= cur < |nodes| && Reach(nodes, 0, path[..i]) == Some(cur)
        invariant !create ==> nodes == old(nodes)
        invariant create ==> Value() == Materialized(o, path[..i])
      {
        var p := path[i];
        assert path[..i + 1] == path[..i] + [p];
        MapUnderKey(nodes, path[..i], cur, p);
        MaterializedSnoc(o, path[..i], p);
        ReachSnoc(nodes, 0, path[..i], p);
        ValueIs();
        if p in nodes[cur] && nodes[cur][p].Sub? {
          cur := nodes[cur][p].id;
        } else if !create {
          WalkStopped(nodes, path, i + 1);
          return None, "";
        } else {
          cur := ObjectAt(cur, p, path[..i]);
        }
        i := i + 1;
      }
      return Some(cur), path[|path| - 1];
    }

    lemma ValueIs()
      ensures Value() == ValueOf(nodes, 0)
    {
    }

    /** `allowListContains`. */
    method AllowListContains(path: Path, id: string) returns (found: bool)
      ensures found <==> Allows(Value(), path, id)
    {
      var parent, leaf := WalkObject(path, false);
      ghost var keys := path[..|path| - 1];
      assert path == keys + [path[|path| - 1]];
      if parent.None? {
        NothingThere(nodes, 0, keys, path[|path| - 1]);
        return false;
      }
      ReadAt(nodes, 0, keys, parent.value, leaf);
      var node := nodes[parent.value];
      if !(leaf in node && node[leaf].Leaf? && node[leaf].v.Arr?) { return false; }
      found := Contains(node[leaf].v.items, id);
    }

    /** `entryEnabled`. */
    method EntryEnabled(path: Path, id: string) returns (enabled: bool)
      ensures enabled <==> Enables(Value(), path, id)
    {
      var parent, leaf := WalkObject(path, false);
      ghost var keys := path[..|path| - 1];
      assert path == keys + [path[|path| - 1]];
      assert path + [id, ENABLED] == (path + [id]) + [ENABLED];
      if parent.None? {
        assert (path + [id])[..|path| - 1] == keys;
        ReachLonger(nodes, path + [id], |path| - 1);
        NothingThere(nodes, 0, path + [id], ENABLED);
        return false;
      }
      var p := parent.value;
      ReachSnoc(nodes, 0, keys, leaf);
      if !(leaf in nodes[p] && nodes[p][leaf].Sub?) {
        assert (path + [id])[..|path|] == path;
        ReachLonger(nodes, path + [id], |path|);
        NothingThere(nodes, 0, path + [id], ENABLED);
        return false;
      }
      var entries := nodes[p][leaf].id;
      ReachSnoc(nodes, 0, path, id);
      if !(id in nodes[entries] && nodes[entries][id].Sub?) {
        NothingThere(nodes, 0, path + [id], ENABLED);
        return false;
      }
      var entry := nodes[entries][id].id;
      ReadAt(nodes, 0, path + [id], entry, ENABLED);
      enabled := ENABLED in nodes[entry] && nodes[entry][ENABLED] == Leaf(Bool(true));
    }

    /** `ensureAllowListEntry`. */
    method EnsureAllowListEntry(path: Path, id: string)
      modifies this
      ensures Value() == WithAllowed(old(Value()), path, id)
    {
      hide *;
      ghost var o := Value();
      ghost var keys := path[..|path| - 1];
      assert path == keys + [path[|path| - 1]];
      WithAllowedIs(o, path, id);
      var parent, leaf := WalkObject(path, true);
      ValueIs();
      var p := parent.value;
      ArrayUnderKey(nodes, keys, p, leaf);
      SameItems(o, keys, leaf);
      var cur :=
        if leaf in nodes[p] && nodes[p][leaf].Leaf? && nodes[p][leaf].v.Arr? then nodes[p][leaf].v.items else [];
      var found := Contains(cur, id);
      if found {
        MaterializedPresent(o, keys, leaf);
        return;
      }
      var s := Leaf(Arr(cur + [Str(id)]));
      ghost var before := nodes;
      AssignWellFormed(nodes, p, leaf, s);
      nodes := nodes[p := nodes[p][leaf := s]];
      AssignIsPut(before, nodes, keys, p, leaf, s);
      LeafValue(nodes, s.v);
      PutMaterialized(o, keys, [leaf], s.v);
      ValueIs();
    }

    /** The map of one plugin below the entries, with every map on the way materialised. */
    method EntryObject(path: Path, id: string) returns (entry: nat)
      modifies this
      ensures entry < |nodes| && Reach(nodes, 0, path + [id]) == Some(entry)
      ensures Value() == Materialized(old(Value()), path + [id])
    {
      ghost var o := Value();
      ghost var keys := path[..|path| - 1];
      assert path == keys + [path[|path| - 1]];
      hide Get, Put, Reach, ValueOf, Materialized, HoldsObject;
      var parent, leaf := WalkObject(path, true);
      MaterializedSnoc(o, keys, leaf);
      var entries := ObjectAt(parent.value, leaf, keys);
      assert Value() == Materialized(o, path);
      MaterializedSnoc(o, path, id);
      entry := ObjectAt(entries, id, path);
    }

    /** `ensureEntryEnabled`. */
    method EnsureEntryEnabled(path: Path, id: string)
      modifies this
      ensures Value() == WithEnabled(old(Value()), path, id)
    {
      ghost var o := Value();
      hide Get, Put, Reach, ValueOf, Materialized;
      var entry := EntryObject(path, id);
      ghost var before := nodes;
      AssignWellFormed(nodes, entry, ENABLED, Leaf(Bool(true)));
      nodes := nodes[entry := nodes[entry][ENABLED := Leaf(Bool(true))]];
      AssignIsPut(before, nodes, path + [id], entry, ENABLED, Leaf(Bool(true)));
      PutMaterialized(o, path + [id], [ENABLED], Bool(true));
      assert path + [id, ENABLED] == (path + [id]) + [ENABLED];
    }

    /** `removeAllowListEntry`. */
    method RemoveAllowListEntry(path: Path, id: string) returns (removed: bool)
      modifies this
      ensures Value() == WithoutAllowed(old(Value()), path, id)
      ensures removed <==> Allows(old(Value()), path, id)
    {
      var parent, leaf := WalkObject(path, false);
      ghost var keys := path[..|path| - 1];
      assert path == keys + [path[|path| - 1]];
      if parent.None? {
        NothingThere(nodes, 0, keys, path[|path| - 1]);
        return false;
      }
      var p := parent.value;
      ReadAt(nodes, 0, keys, p, leaf);
      if !(leaf in nodes[p] && nodes[p][leaf].Leaf? && nodes[p][leaf].v.Arr?) { return false; }
      var arr := nodes[p][leaf].v.items;
      assert Items(Value(), path) == arr;
      hide Get, Put, Reach, ValueOf, Without;
      var filtered;
      filtered, removed := FilterOut(arr, id);
      if !removed { return; }
      var s := Leaf(Arr(filtered));
      ghost var before := nodes;
      AssignWellFormed(nodes, p, leaf, s);
      nodes := nodes[p := nodes[p][leaf := s]];
      AssignIsPut(before, nodes, keys, p, leaf, s);
    }

    /** `removeEntriesEntry`. */
    method RemoveEntriesEntry(path: Path, id: string) returns (removed: bool)
      modifies this
      ensures Value() == WithoutEntry(old(Value()), path, id)
      ensures removed <==> HasEntry(old(Value()), path, id)
    {
      var parent, leaf := WalkObject(path, false);
      ghost var keys := path[..|path| - 1];
      assert path == keys + [path[|path| - 1]];
      if parent.None? {
        ReachLonger(nodes, path, |path| - 1);
        NothingThere(nodes, 0, path, id);
        return false;
      }
      var p := parent.value;
      ReachSnoc(nodes, 0, keys, leaf);
      if !(leaf in nodes[p] && nodes[p][leaf].Sub?) {
        NothingThere(nodes, 0, path, id);
        return false;
      }
      var entries := nodes[p][leaf].id;
      ReadAt(nodes, 0, path, entries, id);
      if id !in nodes[entries] { return false; }
      ghost var before := nodes;
      RemoveWellFormed(nodes, entries, id);
      nodes := nodes[entries := nodes[entries] - {id}];
      RemoveIsDelete(before, nodes, path, entries, id);
      removed := true;
    }
  }

  /** The search loop of `allowListContains` and `ensureAllowListEntry`. */
  method Contains(items: seq<Json>, id: string) returns (found: bool)
    ensures found <==> Str(id) in items
  {
    var i := 0;
    while i < |items|
      invariant 0 <= i <= |items| && Str(id) !in items[..i]
    {
      if items[i].Str? && items[i].s == id { return true; }
      i := i + 1;
    }
    return false;
  }

  /** The filter loop of `removeAllowListEntry`. */
  method FilterOut(arr: seq<Json>, id: string) returns (filtered: seq<Json>, removed: bool)
    ensures filtered == Without(arr, Str(id)) && (removed <==> Str(id) in arr)
  {
    filtered := [];
    removed := false;
    var i := 0;
    assert arr[..0] == [];
    while i < |arr|
      invariant 0 <= i <= |arr|
      invariant filtered == Without(arr[..i], Str(id))
      invariant removed <==> Str(id) in arr[..i]
    {
      assert arr[..i + 1] == arr[..i] + [arr[i]];
      WithoutAppend(arr[..i], [arr[i]], Str(id));
      WithoutOne(arr[i], Str(id));
      if arr[i].Str? && arr[i].s == id {
        removed := true;
      } else {
        filtered := filtered + [arr[i]];
      }
      i := i + 1;
    }
    assert arr[..i] == arr;
  }

  lemma WithoutOne(v: Json, w: Json)
    ensures Without([v], w) == if v == w then [] else [v]
  {
    assert [v][1..] == [];
  }

  lemma EmptyNode(ns: Store, n: nat)
    requires n < |ns| && ns[n] == map[]
    ensures ValueOf(ns, n) == map[]
  {
  }

  /** A walk that is stopped stays stopped. */
  lemma {:induction false} ReachLonger(ns: Store, keys: seq<string>, i: nat)
    requires i <= |keys| && Reach(ns, 0, keys[..i]).None?
    ensures Reach(ns, 0, keys).None?
    decreases |keys| - i
  {
    if i == |keys| {
      assert keys[..i] == keys;
    } else {
      assert keys[..i + 1] == keys[..i] + [keys[i]];
      ReachSnoc(ns, 0, keys[..i], keys[i]);
      ReachLonger(ns, keys, i + 1);
    }
  }
}
