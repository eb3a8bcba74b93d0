/**
 JSON trees edited along dotted paths: the values, the edits, and the laws they obey.

 The injector trusts a plugin by putting its id into an array at one path and an `enabled`
 flag below another. The edits are specified with `Get`, `Put` and `Delete` on paths.
 */
module Json {
  import opened Text

  datatype Json =
    | Null
    | Bool(b: bool)
    | Number(text: string)
    | Str(s: string)
    | Arr(items: seq<Json>)
    | Obj(fields: map<string, Json>)

  type Fields = map<string, Json>

  /** A dotted path, split at its dots; splitting never gives the empty sequence. */
  type Path = p: seq<string> | p != [] witness [""]

  // ---- reading and editing ---------------------------------------------------------------

  function Get(o: Fields, p: Path): Option<Json>
    decreases |p|
  {
    if p[0] !in o then None
    else if |p| == 1 then Some(o[p[0]])
    else if o[p[0]].Obj? then Get(o[p[0]].fields, p[1..])
    else None
  }

  /** The object under a key; a missing or other value counts as an empty one. */
  function Child(o: Fields, k: string): Fields {
    if k in o && o[k].Obj? then o[k].fields else map[]
  }

  /** Writes `v` at the end of the path, materialising objects on the way. */
  function Put(o: Fields, p: Path, v: Json): Fields
    decreases |p|
  {
    if |p| == 1 then o[p[0] := v]
    else o[p[0] := Obj(Put(Child(o, p[0]), p[1..], v))]
  }

  function Delete(o: Fields, p: Path): Fields
    decreases |p|
  {
    if |p| == 1 then o - {p[0]}
    else if p[0] in o && o[p[0]].Obj? then o[p[0] := Obj(Delete(o[p[0]].fields, p[1..]))]
    else o
  }

  predicate Comparable(p: Path, q: Path) {
    p <= q || q <= p
  }

  // ---- the laws ------------------------------------------------------------------------------

  lemma ComparableTail(p: Path, q: Path)
    requires |p| > 1 && |q| > 1 && p[0] == q[0]
    ensures Comparable(p, q) <==> Comparable(p[1..], q[1..])
  {
    assert p == [p[0]] + p[1..] && q == [q[0]] + q[1..];
  }

  lemma {:induction false} GetPutSame(o: Fields, p: Path, v: Json)
    ensures Get(Put(o, p, v), p) == Some(v)
    decreases |p|
  {
    if |p| > 1 { GetPutSame(Child(o, p[0]), p[1..], v); }
  }

  /** Below the written value, reading continues inside it. */
  lemma {:induction false} GetPutBelow(o: Fields, p: Path, v: Json, r: Path)
    ensures Get(Put(o, p, v), p + r) == if v.Obj? then Get(v.fields, r) else None
    decreases |p|
  {
    assert (p + r)[0] == p[0] && (p + r)[1..] == p[1..] + r;
    if |p| > 1 {
      GetPutBelow(Child(o, p[0]), p[1..], v, r);
    } else {
      assert (p + r)[1..] == r;
    }
  }

  /** Above the written value there are only objects. */
  lemma {:induction false} GetPutAbove(o: Fields, p: Path, v: Json, r: Path)
    ensures Get(Put(o, p + r, v), p).Some? && Get(Put(o, p + r, v), p).value.Obj?
    decreases |p|
  {
    assert (p + r)[0] == p[0] && (p + r)[1..] == p[1..] + r;
    if |p| > 1 { GetPutAbove(Child(o, p[0]), p[1..], v, r); }
  }

  lemma {:induction false} GetPutOther(o: Fields, p: Path, v: Json, q: Path)
    requires !Comparable(p, q)
    ensures Get(Put(o, p, v), q) == Get(o, q)
    decreases |p|
  {
    if p[0] == q[0] {
      if |p| > 1 && |q| > 1 {
        ComparableTail(p, q);
        GetPutOther(Child(o, p[0]), p[1..], v, q[1..]);
        GetOfNothing(q[1..]);
      }
    }
  }

  lemma GetOfNothing(q: Path)
    ensures Get(map[], q) == None
  {
  }

  lemma {:induction false} PutPutSame(o: Fields, p: Path, v: Json, w: Json)
    ensures Put(Put(o, p, v), p, w) == Put(o, p, w)
    decreases |p|
  {
    if |p| > 1 { PutPutSame(Child(o, p[0]), p[1..], v, w); }
  }

  lemma {:induction false} PutPresent(o: Fields, p: Path, v: Json)
    requires Get(o, p) == Some(v)
    ensures Put(o, p, v) == o
    decreases |p|
  {
    if |p| > 1 { PutPresent(o[p[0]].fields, p[1..], v); }
  }

  /** An edit only replaces the value under its first key, and looks at nothing else. */
  function PutAt(o: Fields, p: Path, v: Json): Json {
    if |p| == 1 then v else Obj(Put(Child(o, p[0]), p[1..], v))
  }

  lemma PutIsLocal(o: Fields, p: Path, v: Json, k: string, w: Json)
    ensures Put(o, p, v) == o[p[0] := PutAt(o, p, v)]
    ensures k != p[0] ==> PutAt(o[k := w], p, v) == PutAt(o, p, v)
  {
    hide Put;
    assert k != p[0] ==> Child(o[k := w], p[0]) == Child(o, p[0]);
    PutStep(o, p, v);
  }

  lemma PutStep(o: Fields, p: Path, v: Json)
    ensures Put(o, p, v) == o[p[0] := PutAt(o, p, v)]
  {
  }

  lemma {:induction false} PutPutCommute(o: Fields, p: Path, v: Json, q: Path, w: Json)
    requires !Comparable(p, q)
    ensures Put(Put(o, p, v), q, w) == Put(Put(o, q, w), p, v)
    decreases |p|
  {
    hide Put, Comparable;
    var x, y := PutAt(o, p, v), PutAt(o, q, w);
    PutStep(o, p, v);
    PutStep(o, q, w);
    PutStep(o[p[0] := x], q, w);
    PutStep(o[q[0] := y], p, v);
    if p[0] == q[0] {
      NeitherEnds(p, q);
      var c := Child(o, p[0]);
      PutPutCommute(c, p[1..], v, q[1..], w);
      assert Child(o[p[0] := x], p[0]) == Put(c, p[1..], v) && Child(o[p[0] := y], p[0]) == Put(c, q[1..], w);
    } else {
      PutIsLocal(o, q, w, p[0], x);
      PutIsLocal(o, p, v, q[0], y);
    }
  }

  lemma NeitherEnds(p: Path, q: Path)
    requires !Comparable(p, q) && p[0] == q[0]
    ensures |p| > 1 && |q| > 1 && !Comparable(p[1..], q[1..])
  {
    if |p| > 1 && |q| > 1 { ComparableTail(p, q); }
  }

  lemma {:induction false} DeletePutCommute(o: Fields, p: Path, v: Json, q: Path)
    requires !Comparable(p, q)
    ensures Delete(Put(o, p, v), q) == Put(Delete(o, q), p, v)
    decreases |p|
  {
    hide Put, Comparable;
    PutStep(o, p, v);
    PutStep(Delete(o, q), p, v);
    if p[0] == q[0] {
      NeitherEnds(p, q);
      DeletePutCommute(Child(o, p[0]), p[1..], v, q[1..]);
      DeleteOfNothing(q[1..]);
    } else {
      assert Child(Delete(o, q), p[0]) == Child(o, p[0]);
    }
  }

  lemma DeleteOfNothing(q: Path)
    ensures Delete(map[], q) == map[]
  {
  }

  lemma {:induction false} GetDeleteOther(o: Fields, p: Path, q: Path)
    requires !Comparable(p, q)
    ensures Get(Delete(o, q), p) == Get(o, p)
    decreases |p|
  {
    if p[0] == q[0] {
      ComparableTail(p, q);
      if p[0] in o && o[p[0]].Obj? { GetDeleteOther(o[p[0]].fields, p[1..], q[1..]); }
    }
  }

  lemma {:induction false} GetDeleteSame(o: Fields, p: Path)
    ensures Get(Delete(o, p), p) == None
    decreases |p|
  {
    if |p| > 1 && p[0] in o && o[p[0]].Obj? { GetDeleteSame(o[p[0]].fields, p[1..]); }
  }

  lemma {:induction false} DeleteAbsent(o: Fields, p: Path)
    requires Get(o, p) == None
    ensures Delete(o, p) == o
    decreases |p|
  {
    if |p| > 1 && p[0] in o && o[p[0]].Obj? { DeleteAbsent(o[p[0]].fields, p[1..]); }
  }

  lemma {:induction false} EntryReads(o: Fields, q: Path, k: string)
    ensures Get(o, q + [k]) ==
            if Get(o, q).Some? && Get(o, q).value.Obj? && k in Get(o, q).value.fields
            then Some(Get(o, q).value.fields[k]) else None
    decreases |q|
  {
    assert (q + [k])[0] == q[0] && (q + [k])[1..] == q[1..] + [k];
    if |q| > 1 {
      if q[0] in o && o[q[0]].Obj? { EntryReads(o[q[0]].fields, q[1..], k); }
    } else {
      assert (q + [k])[1..] == [k];
    }
  }

  /** A deletion forgets what was written at or below the key. */
  lemma {:induction false} DeleteForgetsPut(o: Fields, q: Path, k: string, s: seq<string>, v: Json)
    requires Get(o, q).Some? && Get(o, q).value.Obj?
    ensures Delete(Put(o, q + [k] + s, v), q + [k]) == Delete(o, q + [k])
    decreases |q|
  {
    var p := q + [k] + s;
    assert p[0] == q[0] && p[1..] == q[1..] + [k] + s && (q + [k])[0] == q[0] && (q + [k])[1..] == q[1..] + [k];
    var c := o[q[0]].fields;
    if |q| > 1 {
      DeleteForgetsPut(c, q[1..], k, s, v);
    } else {
      assert p[1..] == [k] + s && (q + [k])[1..] == [k];
      KeyForgotten(c, k, s, v);
    }
  }

  lemma KeyForgotten(c: Fields, k: string, s: seq<string>, v: Json)
    ensures Delete(Put(c, [k] + s, v), [k]) == Delete(c, [k])
  {
    PutStep(c, [k] + s, v);
    hide Put;
    assert Put(c, [k] + s, v) - {k} == c - {k};
  }

  /** Deleting a key right after writing below it gives the tree back, if the key was absent and
      its container was an object. */
  lemma DeleteUndoesPut(o: Fields, q: Path, k: string, r: Path, v: Json)
    requires Get(o, q).Some? && Get(o, q).value.Obj? && k !in Get(o, q).value.fields
    ensures Delete(Put(o, q + [k] + r, v), q + [k]) == o
  {
    hide Put, Delete;
    EntryReads(o, q, k);
    DeleteForgetsPut(o, q, k, r, v);
    DeleteAbsent(o, q + [k]);
  }

  // ---- the allow-list and the entries ------------------------------------------------------------

  const ENABLED := "enabled"

  /** The array at a path; anything else counts as an empty one. */
  function Items(o: Fields, p: Path): seq<Json> {
    match Get(o, p)
    case Some(Arr(items)) => items
    case _ => []
  }

  /** `allowListContains`. */
  predicate Allows(o: Fields, allow: Path, id: string) {
    Str(id) in Items(o, allow)
  }

  /** `entryEnabled`. */
  predicate Enables(o: Fields, entries: Path, id: string) {
    Get(o, entries + [id, ENABLED]) == Some(Bool(true))
  }

  /** `entriesHas`. */
  predicate HasEntry(o: Fields, entries: Path, id: string) {
    Get(o, entries + [id]).Some?
  }

  /** `ensureAllowListEntry`. */
  function WithAllowed(o: Fields, allow: Path, id: string): Fields {
    if Allows(o, allow, id) then o else Put(o, allow, Arr(Items(o, allow) + [Str(id)]))
  }

  /** `ensureEntryEnabled`. */
  function WithEnabled(o: Fields, entries: Path, id: string): Fields {
    Put(o, entries + [id, ENABLED], Bool(true))
  }

  function Merged(o: Fields, allow: Path, entries: Path, id: string): Fields {
    WithEnabled(WithAllowed(o, allow, id), entries, id)
  }

  function Without(items: seq<Json>, v: Json): seq<Json> {
    if items == [] then [] else (if items[0] == v then [] else [items[0]]) + Without(items[1..], v)
  }

  /** `removeAllowListEntry`. */
  function WithoutAllowed(o: Fields, allow: Path, id: string): Fields {
    if Allows(o, allow, id) then Put(o, allow, Arr(Without(Items(o, allow), Str(id)))) else o
  }

  /** `removeEntriesEntry`. */
  function WithoutEntry(o: Fields, entries: Path, id: string): Fields {
    if HasEntry(o, entries, id) then Delete(o, entries + [id]) else o
  }

  function Removed(o: Fields, allow: Path, entries: Path, id: string): Fields {
    WithoutEntry(WithoutAllowed(o, allow, id), entries, id)
  }
}
