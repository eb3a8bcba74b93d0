/**
 Two plugins of one tool: neither a merge nor a removal of one changes what the config says
 of the other, nor whether the config can be read.
 */
module Siblings {
  import opened Json
  import opened AllowList
  import opened ConfigFile

  /** Different ids at the same two paths, with the allow-list apart from both entries. */
  predicate AreSiblings(a: Place, b: Place) {
    && a.id != b.id && a.allow == b.allow && a.entries == b.entries
    && !Comparable(a.allow, EntryPath(a.entries, a.id)) && !Comparable(a.allow, EntryPath(a.entries, b.id))
  }

  /** What a config says of one plugin. */
  datatype Standing = Standing(allowed: bool, entered: bool, enabled: bool)

  function StandingOf(o: Fields, at: Place): Standing {
    Standing(Allows(o, at.allow, at.id), HasEntry(o, at.entries, at.id), Enables(o, at.entries, at.id))
  }

  lemma SiblingPaths(a: Place, b: Place)
    requires AreSiblings(a, b)
    ensures !Comparable(a.allow, EnabledPath(a.entries, a.id)) && !Comparable(a.allow, EnabledPath(a.entries, b.id))
    ensures !Comparable(EnabledPath(a.entries, a.id), EntryPath(a.entries, b.id))
    ensures !Comparable(EnabledPath(a.entries, a.id), EnabledPath(a.entries, b.id))
    ensures !Comparable(EntryPath(a.entries, b.id), EntryPath(a.entries, a.id))
    ensures !Comparable(EntryPath(a.entries, b.id), EnabledPath(a.entries, a.id))
  {
    FlagBelowEntry(a.entries, a.id);
    FlagBelowEntry(a.entries, b.id);
    IncomparableBelow(a.allow, EntryPath(a.entries, a.id), [ENABLED]);
    IncomparableBelow(a.allow, EntryPath(a.entries, b.id), [ENABLED]);
    var k := |a.entries|;
    DifferenceIncomparable(EnabledPath(a.entries, a.id), EntryPath(a.entries, b.id), k);
    DifferenceIncomparable(EnabledPath(a.entries, a.id), EnabledPath(a.entries, b.id), k);
    DifferenceIncomparable(EntryPath(a.entries, b.id), EntryPath(a.entries, a.id), k);
    DifferenceIncomparable(EntryPath(a.entries, b.id), EnabledPath(a.entries, a.id), k);
  }

  lemma SameGets(o: Fields, u: Fields, at: Place)
    requires Get(o, EntryPath(at.entries, at.id)) == Get(u, EntryPath(at.entries, at.id))
    requires Get(o, EnabledPath(at.entries, at.id)) == Get(u, EnabledPath(at.entries, at.id))
    requires Str(at.id) in Items(o, at.allow) <==> Str(at.id) in Items(u, at.allow)
    ensures StandingOf(o, at) == StandingOf(u, at)
  {
  }

  /** Main result on neighbours, first half: merging one plugin leaves the other's standing alone. */
  lemma MergeKeepsStanding(o: Fields, a: Place, b: Place)
    requires AreSiblings(a, b)
    ensures StandingOf(Merged(o, a.allow, a.entries, a.id), b) == StandingOf(o, b)
  {
    SiblingPaths(a, b);
    hide *;
    var m := Merged(o, a.allow, a.entries, a.id);
    SiblingsShare(a, b);
    MergeFrame(o, a.allow, a.entries, a.id, EntryPath(a.entries, b.id));
    MergeFrame(o, a.allow, a.entries, a.id, EnabledPath(a.entries, b.id));
    MergeKeepsOrder(o, a.allow, a.entries, a.id);
    SameGets(m, o, b);
  }

  lemma SiblingsShare(a: Place, b: Place)
    requires AreSiblings(a, b)
    ensures a.id != b.id && a.allow == b.allow && a.entries == b.entries
    ensures Str(a.id) != Str(b.id)
    ensures !Comparable(a.allow, EntryPath(a.entries, b.id))
  {
  }

  lemma SiblingsSym(a: Place, b: Place)
    ensures AreSiblings(a, b) <==> AreSiblings(b, a)
  {
  }

  /** Second half: so does removing one. */
  lemma RemovalKeepsStanding(o: Fields, a: Place, b: Place)
    requires AreSiblings(a, b)
    ensures StandingOf(Removed(o, b.allow, b.entries, b.id), a) == StandingOf(o, a)
  {
    SiblingPaths(a, b);
    SiblingsShare(a, b);
    hide Comparable, AreSiblings, Get, Put, Delete, Without, StandingOf, Allows, HasEntry, Enables;
    var n := WithoutAllowed(o, b.allow, b.id);
    var items := Items(o, b.allow);
    var r := Removed(o, b.allow, b.entries, b.id);
    WithoutKeeps(items, Str(a.id), Str(b.id));
    PutItems(o, b.allow, Without(items, Str(b.id)));
    GetPutOther(o, b.allow, Arr(Without(items, Str(b.id))), EntryPath(a.entries, a.id));
    GetPutOther(o, b.allow, Arr(Without(items, Str(b.id))), EnabledPath(a.entries, a.id));
    ComparableSym(b.allow, EntryPath(b.entries, b.id));
    GetDeleteOther(n, b.allow, EntryPath(b.entries, b.id));
    ItemsFromGet(Delete(n, EntryPath(b.entries, b.id)), n, b.allow);
    ComparableSym(EntryPath(b.entries, b.id), EntryPath(a.entries, a.id));
    ComparableSym(EntryPath(b.entries, b.id), EnabledPath(a.entries, a.id));
    GetDeleteOther(n, EntryPath(a.entries, a.id), EntryPath(b.entries, b.id));
    GetDeleteOther(n, EnabledPath(a.entries, a.id), EntryPath(b.entries, b.id));
    SameGets(r, o, a);
  }
}
