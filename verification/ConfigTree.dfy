/**
 The config as the program edits it: nested maps, changed in place.

 Every JSON object is a node of a store; a key holds a plain value or the index of the node
 below it, so that an edit to a node is seen through every path to it, as with Go maps. The
 walk and the edits are the program's loops over such nodes, proved against the edits on values.
 */
module ConfigTree {
  import opened Text
  import opened Json

  datatype Slot = Leaf(v: Json) | Sub(id: nat)

  type Node = map<string, Slot>

  ghost predicate Edge(ns: seq<Node>, n: int, k: string) {
    0 <= n < |ns| && k in ns[n] && ns[n][k].Sub?
  }

  /** Children come after their parents, no node has two parents, and objects are always nodes. */
  ghost predicate WellFormed(ns: seq<Node>) {
    && ns != []
    && (forall n, k :: 0 <= n < |ns| && k in ns[n] ==>
          if ns[n][k].Sub? then n < ns[n][k].id < |ns| else !ns[n][k].v.Obj?)
    && (forall n, k, m, l :: Edge(ns, n, k) && Edge(ns, m, l) && ns[n][k] == ns[m][l] ==> n == m && k == l)
  }

  /** The maps of one config: a tree without sharing, its root first. */
  type Store = ns: seq<Node> | WellFormed(ns) witness [map[]]

  ghost function ValueOf(ns: Store, n: nat): Fields
    requires n < |ns|
    decreases |ns| - n
  {
    map k | k in ns[n] :: if ns[n][k].Leaf? then ns[n][k].v else Obj(ValueOf(ns, ns[n][k].id))
  }

  /** The node reached from `n` along keys that hold nodes. */
  ghost function Reach(ns: Store, n: nat, keys: seq<string>): Option<nat>
    requires n < |ns|
    ensures Reach(ns, n, keys).Some? ==> n <= Reach(ns, n, keys).value < |ns|
    decreases |keys|
  {
    if keys == [] then Some(n)
    else if keys[0] in ns[n] && ns[n][keys[0]].Sub? then Reach(ns, ns[n][keys[0]].id, keys[1..])
    else None
  }

  lemma {:induction false} ReachSnoc(ns: Store, n: nat, keys: seq<string>, k: string)
    requires n < |ns|
    ensures Reach(ns, n, keys + [k]) ==
            match Reach(ns, n, keys)
            case None => None
            case Some(m) => if k in ns[m] && ns[m][k].Sub? then Some(ns[m][k].id) else None
    decreases |keys|
  {
    if keys == [] {
      assert keys + [k] == [k];
    } else {
      assert (keys + [k])[0] == keys[0] && (keys + [k])[1..] == keys[1..] + [k];
      if keys[0] in ns[n] && ns[n][keys[0]].Sub? { ReachSnoc(ns, ns[n][keys[0]].id, keys[1..], k); }
    }
  }

  /** Without shared nodes there is one way to every node. */
  lemma {:induction false} OnePath(ns: Store, n: nat, p: seq<string>, q: seq<string>)
    requires n < |ns|
    requires Reach(ns, n, p).Some? && Reach(ns, n, p) == Reach(ns, n, q)
    ensures p == q
    decreases |p|
  {
    if p == [] || q == [] {
      if p != [] { Descends(ns, n, p); }
      if q != [] { Descends(ns, n, q); }
    } else {
      var p0, q0 := p[..|p| - 1], q[..|q| - 1];
      assert p == p0 + [p[|p| - 1]] && q == q0 + [q[|q| - 1]];
      ReachSnoc(ns, n, p0, p[|p| - 1]);
      ReachSnoc(ns, n, q0, q[|q| - 1]);
      OnePath(ns, n, p0, q0);
    }
  }

  lemma Descends(ns: Store, n: nat, p: seq<string>)
    requires n < |ns| && p != [] && Reach(ns, n, p).Some?
    ensures Reach(ns, n, p).value > n
  {
  }

  ghost predicate Outside(ns: Store, n: nat, m: nat)
    requires n < |ns|
  {
    forall q :: Reach(ns, n, q) != Some(m)
  }

  lemma OutsideBelow(ns: Store, n: nat, m: nat, k: string)
    requires n < |ns| && Outside(ns, n, m) && k in ns[n] && ns[n][k].Sub?
    ensures n != m && Outside(ns, ns[n][k].id, m)
  {
    assert Reach(ns, n, []) == Some(n);
    forall q ensures Reach(ns, ns[n][k].id, q) != Some(m) {
      assert ([k] + q)[0] == k && ([k] + q)[1..] == q;
      assert Reach(ns, n, [k] + q) == Reach(ns, ns[n][k].id, q);
    }
  }

  /** A change to a node is not seen where that node cannot be reached. */
  lemma {:induction false} Unseen(ns: Store, us: Store, n: nat, m: nat)
    requires n < |ns| && m < |ns| == |us| && us == ns[m := us[m]]
    requires Outside(ns, n, m)
    ensures ValueOf(us, n) == ValueOf(ns, n)
    decreases |ns| - n
  {
    assert Reach(ns, n, []) == Some(n);
    forall k | k in ns[n] && ns[n][k].Sub? ensures ValueOf(us, ns[n][k].id) == ValueOf(ns, ns[n][k].id) {
      OutsideBelow(ns, n, m, k);
      Unseen(ns, us, ns[n][k].id, m);
    }
  }

  ghost function SlotValue(ns: Store, s: Slot): Json
    requires (s.Sub? ==> s.id < |ns|)
  {
    if s.Leaf? then s.v else Obj(ValueOf(ns, s.id))
  }

  lemma SiblingOutside(ns: Store, n: nat, keys: seq<string>, m: nat, l: string)
    requires n < |ns| && keys != [] && Reach(ns, n, keys) == Some(m)
    requires l in ns[n] && ns[n][l].Sub? && l != keys[0]
    ensures Outside(ns, ns[n][l].id, m)
  {
    forall q ensures Reach(ns, ns[n][l].id, q) != Some(m) {
      assert ([l] + q)[0] == l && ([l] + q)[1..] == q;
      if Reach(ns, ns[n][l].id, q) == Some(m) { OnePath(ns, n, keys, [l] + q); }
    }
  }

  /** Seen from above, a change below one key is a change of that key's value. */
  lemma PathUpdate(ns: Store, us: Store, n: nat, keys: seq<string>, m: nat)
    requires n < |ns| && keys != [] && Reach(ns, n, keys) == Some(m)
    requires m != n && |us| == |ns| && us == ns[m := us[m]]
    ensures ns[n][keys[0]].id < |us|
    ensures ValueOf(ns, n)[keys[0]] == Obj(ValueOf(ns, ns[n][keys[0]].id))
    ensures ValueOf(us, n) == ValueOf(ns, n)[keys[0] := Obj(ValueOf(us, ns[n][keys[0]].id))]
  {
    assert us[n] == ns[n];
    forall l | l in ns[n] && l != keys[0] && ns[n][l].Sub?
      ensures ValueOf(us, ns[n][l].id) == ValueOf(ns, ns[n][l].id)
    {
      SiblingOutside(ns, n, keys, m, l);
      Unseen(ns, us, ns[n][l].id, m);
    }
  }

  /** The object at a path of keys, and an object put there. */
  ghost function FieldsAt(o: Fields, keys: seq<string>): Fields
    decreases |keys|
  {
    if keys == [] then o else FieldsAt(Child(o, keys[0]), keys[1..])
  }

  ghost function Graft(o: Fields, keys: seq<string>, f: Fields): Fields
    decreases |keys|
  {
    if keys == [] then f else o[keys[0] := Obj(Graft(Child(o, keys[0]), keys[1..], f))]
  }

  /** Main frame result: whatever is done to a reached node is seen at its path, and nowhere else. */
  lemma {:induction false} NodeIsGraft(ns: Store, us: Store, n: nat, keys: seq<string>, m: nat)
    requires n < |ns| && Reach(ns, n, keys) == Some(m)
    requires |us| == |ns| && us == ns[m := us[m]]
    ensures Reach(us, n, keys) == Some(m)
    ensures FieldsAt(ValueOf(ns, n), keys) == ValueOf(ns, m)
    ensures ValueOf(us, n) == Graft(ValueOf(ns, n), keys, ValueOf(us, m))
    decreases |keys|
  {
    if keys != [] {
      var c := ns[n][keys[0]].id;
      if keys[1..] != [] { Descends(ns, c, keys[1..]); }
      assert us[n] == ns[n];
      NodeIsGraft(ns, us, c, keys[1..], m);
      PathUpdate(ns, us, n, keys, m);
      hide ValueOf;
    }
  }

  lemma {:induction false} GraftPut(o: Fields, keys: seq<string>, k: string, v: Json)
    ensures Put(o, keys + [k], v) == Graft(o, keys, FieldsAt(o, keys)[k := v])
    decreases |keys|
  {
    if keys == [] {
      assert keys + [k] == [k];
    } else {
      assert (keys + [k])[0] == keys[0] && (keys + [k])[1..] == keys[1..] + [k];
      GraftPut(Child(o, keys[0]), keys[1..], k, v);
    }
  }

  lemma {:induction false} GraftDelete(o: Fields, keys: seq<string>, k: string)
    requires Get(o, keys + [k]).Some?
    ensures Delete(o, keys + [k]) == Graft(o, keys, FieldsAt(o, keys) - {k})
    decreases |keys|
  {
    if keys == [] {
      assert keys + [k] == [k];
    } else {
      assert (keys + [k])[0] == keys[0] && (keys + [k])[1..] == keys[1..] + [k];
      GraftDelete(Child(o, keys[0]), keys[1..], k);
    }
  }

  lemma ValueAt(ns: Store, n: nat)
    requires n < |ns|
    ensures ValueOf(ns, n).Keys == ns[n].Keys
    ensures forall k :: k in ns[n] ==>
              (ns[n][k].Sub? ==> ns[n][k].id < |ns|) && ValueOf(ns, n)[k] == SlotValue(ns, ns[n][k])
  {
  }

  lemma NodeUpdate(ns: Store, us: Store, n: nat, k: string, s: Slot)
    requires n < |ns| && us == ns[n := ns[n][k := s]]
    requires s.Sub? ==> s.id < |us|
    ensures ValueOf(us, n) == ValueOf(ns, n)[k := SlotValue(us, s)]
  {
    ValueAt(ns, n);
    ValueAt(us, n);
    forall l | l in ns[n] && l != k ensures us[n][l] == ns[n][l] && SlotValue(us, us[n][l]) == SlotValue(ns, ns[n][l]) {
      if ns[n][l].Sub? {
        ChildrenOutside(ns, n, l);
        Unseen(ns, us, ns[n][l].id, n);
      }
    }
    hide ValueOf, SlotValue;
    assert us[n] == ns[n][k := s];
    var a, b := ValueOf(us, n), ValueOf(ns, n)[k := SlotValue(us, s)];
    assert a.Keys == b.Keys;
    forall l | l in a ensures a[l] == b[l] {
      if l != k { assert l in ns[n]; }
    }
  }

  lemma ChildrenOutside(ns: Store, n: nat, l: string)
    requires n < |ns| && l in ns[n] && ns[n][l].Sub?
    ensures Outside(ns, ns[n][l].id, n)
  {
  }

  /** Assigning a key of a reached node is a `Put` at its path. */
  lemma AssignIsPut(ns: Store, us: Store, keys: seq<string>, m: nat, k: string, s: Slot)
    requires Reach(ns, 0, keys) == Some(m)
    requires us == ns[m := ns[m][k := s]]
    ensures Reach(us, 0, keys) == Some(m)
    ensures s.Sub? ==> s.id < |us|
    ensures ValueOf(us, 0) == Put(ValueOf(ns, 0), keys + [k], SlotValue(us, s))
  {
    assert us[m][k] == s;
    NodeIsGraft(ns, us, 0, keys, m);
    NodeUpdate(ns, us, m, k, s);
    GraftPut(ValueOf(ns, 0), keys, k, SlotValue(us, s));
  }

  /** Removing a key of a reached node is a `Delete` at its path. */
  lemma RemoveIsDelete(ns: Store, us: Store, keys: seq<string>, m: nat, k: string)
    requires Reach(ns, 0, keys) == Some(m)
    requires us == ns[m := ns[m] - {k}] && k in ns[m]
    ensures ValueOf(us, 0) == Delete(ValueOf(ns, 0), keys + [k])
  {
    NodeIsGraft(ns, us, 0, keys, m);
    ReadAt(ns, 0, keys, m, k);
    NodeRemove(ns, us, m, k);
    GraftDelete(ValueOf(ns, 0), keys, k);
  }

  lemma NodeRemove(ns: Store, us: Store, n: nat, k: string)
    requires n < |ns| && us == ns[n := ns[n] - {k}]
    ensures ValueOf(us, n) == ValueOf(ns, n) - {k}
  {
    ValueAt(ns, n);
    ValueAt(us, n);
    forall l | l in us[n] ensures us[n][l] == ns[n][l] && SlotValue(us, us[n][l]) == SlotValue(ns, ns[n][l]) {
      if ns[n][l].Sub? {
        ChildrenOutside(ns, n, l);
        Unseen(ns, us, ns[n][l].id, n);
      }
    }
    hide ValueOf, SlotValue;
    var a, b := ValueOf(us, n), ValueOf(ns, n) - {k};
    assert a.Keys == b.Keys;
    forall l | l in a ensures a[l] == b[l] { assert l in us[n]; }
  }

  /** Reading a key of a reached node reads the tree at its path. */
  lemma {:induction false} ReadAt(ns: Store, n: nat, keys: seq<string>, m: nat, k: string)
    requires n < |ns| && Reach(ns, n, keys) == Some(m)
    ensures k in ns[m] && ns[m][k].Sub? ==> ns[m][k].id < |ns|
    ensures Get(ValueOf(ns, n), keys + [k]) == if k in ns[m] then Some(SlotValue(ns, ns[m][k])) else None
    decreases |keys|
  {
    ValueAt(ns, n);
    if keys == [] {
      assert keys + [k] == [k];
    } else {
      assert (keys + [k])[0] == keys[0] && (keys + [k])[1..] == keys[1..] + [k];
      ReadAt(ns, ns[n][keys[0]].id, keys[1..], m, k);
    }
  }

  /** Where the walk is stopped by something that is no object, the tree holds nothing. */
  lemma {:induction false} NothingThere(ns: Store, n: nat, keys: seq<string>, k: string)
    requires n < |ns| && Reach(ns, n, keys).None?
    ensures Get(ValueOf(ns, n), keys + [k]) == None
    decreases |keys|
  {
    ValueAt(ns, n);
    assert (keys + [k])[0] == keys[0] && (keys + [k])[1..] == keys[1..] + [k];
    if keys[0] in ns[n] && ns[n][keys[0]].Sub? { NothingThere(ns, ns[n][keys[0]].id, keys[1..], k); }
  }

  // ---- new nodes -----------------------------------------------------------------------------

  lemma {:induction false} AppendedUnseen(ns: Store, n: nat)
    requires n < |ns| && WellFormed(ns + [map[]])
    ensures ValueOf(ns + [map[]], n) == ValueOf(ns, n)
    decreases |ns| - n
  {
    var us := ns + [map[]];
    assert us[n] == ns[n];
    forall k | k in ns[n] && ns[n][k].Sub? ensures ValueOf(us, ns[n][k].id) == ValueOf(ns, ns[n][k].id) {
      AppendedUnseen(ns, ns[n][k].id);
    }
  }

  lemma {:induction false} AppendedReach(ns: Store, n: nat, keys: seq<string>)
    requires n < |ns| && WellFormed(ns + [map[]])
    ensures Reach(ns + [map[]], n, keys) == Reach(ns, n, keys)
    decreases |keys|
  {
    assert (ns + [map[]])[n] == ns[n];
    if keys != [] && keys[0] in ns[n] && ns[n][keys[0]].Sub? { AppendedReach(ns, ns[n][keys[0]].id, keys[1..]); }
  }

  lemma AppendWellFormed(ns: Store)
    ensures WellFormed(ns + [map[]])
  {
    var us := ns + [map[]];
    forall n, k | 0 <= n < |us| && k in us[n]
      ensures n < |ns| && us[n] == ns[n] && if us[n][k].Sub? then n < us[n][k].id < |us| else !us[n][k].v.Obj?
    {
    }
    forall n, k, m, l | Edge(us, n, k) && Edge(us, m, l) && us[n][k] == us[m][l] ensures n == m && k == l {
      assert Edge(ns, n, k) && Edge(ns, m, l);
    }
  }

  /** An assignment of a leaf, or of a node nobody points to yet, keeps the store well formed. */
  lemma AssignWellFormed(ns: Store, m: nat, k: string, s: Slot)
    requires m < |ns|
    requires if s.Sub? then m < s.id < |ns| && forall n, l :: Edge(ns, n, l) ==> ns[n][l] != s else !s.v.Obj?
    ensures WellFormed(ns[m := ns[m][k := s]])
  {
    var us := ns[m := ns[m][k := s]];
    forall a, p, b, q | Edge(us, a, p) && Edge(us, b, q) && us[a][p] == us[b][q] ensures a == b && p == q {
      if !(a == m && p == k) { assert Edge(ns, a, p); }
      if !(b == m && q == k) { assert Edge(ns, b, q); }
    }
  }

  lemma RemoveWellFormed(ns: Store, m: nat, k: string)
    requires m < |ns|
    ensures WellFormed(ns[m := ns[m] - {k}])
  {
    var us := ns[m := ns[m] - {k}];
    forall a, p, b, q | Edge(us, a, p) && Edge(us, b, q) && us[a][p] == us[b][q] ensures a == b && p == q {
      assert Edge(ns, a, p) && Edge(ns, b, q);
    }
  }
}
