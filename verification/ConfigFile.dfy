/**
 The config file on disk: the merge with its backup, swap, read-back and rollback, the
 removal with its three ways out, and the drop of a retired plugin.

 Every write is recorded, so that "at every point" means every recorded state. The disk may
 fail a write, and the swap may leave bytes nobody asked for.
 */
module ConfigFile {
  import opened Text
  import opened Json
  import opened AllowList
  import opened Outcomes

  /** JSON text: parsing fails on anything that is no object; printing reads back. */
  datatype Codec = Codec(parse: string -> Option<Fields>, print_: Fields -> string)

  ghost predicate Faithful(c: Codec) {
    forall o: Fields :: c.parse(c.print_(o)) == Some(o)
  }

  /** A plugin's place in a config: the two paths and its id. */
  datatype Place = Place(allow: Path, entries: Path, id: string)

  predicate Trusted(o: Fields, at: Place) {
    Allows(o, at.allow, at.id) && Enables(o, at.entries, at.id)
  }

  /** `pluginInConfig` on a parsed config. */
  predicate Listed(o: Fields, at: Place) {
    Allows(o, at.allow, at.id) || HasEntry(o, at.entries, at.id)
  }

  /** `verifyMarshalRoundTrip`. */
  predicate Verified(c: Codec, bytes: string, topKeys: set<string>, at: Place) {
    match c.parse(bytes)
    case None => false
    case Some(o) => topKeys <= o.Keys && Trusted(o, at)
  }

  /** `classifyPluginAllowList`. */
  function ClassifyConfig(live: Option<string>, c: Codec, at: Place): State {
    match live
    case None => Drifted
    case Some(raw) =>
      match c.parse(raw)
      case None => Drifted
      case Some(o) => if Trusted(o, at) then Identical else Drifted
  }

  /** What can go wrong while the file is merged; `swapped` is what a bad swap leaves in it. */
  datatype Faults = Faults(read: bool, mkdir: bool, backup: bool, swap: bool,
                           swapped: Option<string>, readBack: bool, rollback: bool)

  const NO_FAULTS := Faults(false, false, false, false, None, false, false)

  datatype MergeError =
    | ReadFailed | Unparseable | CheckFailed | NoDirectory | NoBackup | SwapFailed
    | RolledBack | RollbackFailed | NothingToRollBack

  /** How far the error let the merge get. */
  predicate BeforeSwap(e: MergeError) {
    e.ReadFailed? || e.Unparseable? || e.CheckFailed? || e.NoDirectory? || e.NoBackup? || e.SwapFailed?
  }

  datatype Snapshot = Snapshot(live: Option<string>, bak: Option<string>)

  datatype Removal = Restored | MergedOut | NothingToRemove | Failed

  /** The tree a merge starts from: an absent file counts as an empty object. */
  function Original(live: Option<string>, c: Codec): Option<Fields> {
    if live.None? then Some(map[]) else c.parse(live.value)
  }

  /** The bytes a merge wants to write. */
  function Wanted(o: Fields, c: Codec, at: Place): string {
    c.print_(Merged(o, at.allow, at.entries, at.id))
  }

  function Next(live: Option<string>, c: Codec, at: Place): Option<string> {
    var o := Original(live, c);
    if o.None? then None else Some(Wanted(o.value, c, at))
  }

  /** The bytes pass the verification for a merge that started from `live`. */
  predicate Passes(bytes: string, live: Option<string>, c: Codec, at: Place) {
    Original(live, c).Some? && Verified(c, bytes, Original(live, c).value.Keys, at)
  }

  /** The config parses and the merged bytes pass the check before the write. */
  predicate Mergeable(live: Option<string>, c: Codec, at: Place) {
    Next(live, c, at).Some? && Passes(Next(live, c, at).value, live, c, at)
  }

  predicate NeedsBackup(live: Option<string>, c: Codec, at: Place) {
    live.Some? && live != Next(live, c, at)
  }

  /** The merge gets as far as writing the sidecar. */
  predicate BacksUp(live: Option<string>, c: Codec, at: Place, f: Faults) {
    !f.read && Mergeable(live, c, at) && !f.mkdir && NeedsBackup(live, c, at) && !f.backup
  }

  /** The merge gets as far as replacing the config. */
  predicate ReachesSwap(live: Option<string>, c: Codec, at: Place, f: Faults) {
    !f.read && Mergeable(live, c, at) && !f.mkdir && !(NeedsBackup(live, c, at) && f.backup) && !f.swap
  }

  /** What the swap leaves in the config. */
  function AfterSwap(live: Option<string>, c: Codec, at: Place, f: Faults): Option<string> {
    if f.swapped.Some? then f.swapped else Next(live, c, at)
  }

  /** The config can be read back and passes the verification. */
  predicate ReadsBack(live: Option<string>, c: Codec, at: Place, f: Faults) {
    !f.readBack && AfterSwap(live, c, at, f).Some? && Passes(AfterSwap(live, c, at, f).value, live, c, at)
  }

  predicate InReach(s: Snapshot, original: Option<string>) {
    original.None? || s.live == original || s.bak == original
  }

  /** The original bytes, or the merged ones, verified and with the original beside them. */
  predicate GoodBytes(s: Snapshot, original: Option<string>, c: Codec, at: Place) {
    || s.live == original
    || (s.live.Some? && s.live == Next(original, c, at) && Passes(s.live.value, original, c, at) &&
           InReach(s, original))
  }

  /** Merged bytes that read back faithfully pass exactly when the two paths are apart. */
  lemma FaithfulMergeVerifies(o: Fields, c: Codec, at: Place)
    ensures Faithful(c) ==>
              (Verified(c, Wanted(o, c, at), o.Keys, at) <==> !Comparable(at.allow, EnabledPath(at.entries, at.id)))
  {
    MergeTrusts(o, at.allow, at.entries, at.id);
    MergeKeepsTopKeys(o, at);
    hide Comparable, Allows, Enables, Merged;
  }

  lemma {:induction false} PutKeepsKeys(o: Fields, p: Path, v: Json)
    ensures o.Keys <= Put(o, p, v).Keys
  {
  }

  lemma MergeKeepsTopKeys(o: Fields, at: Place)
    ensures o.Keys <= Merged(o, at.allow, at.entries, at.id).Keys
  {
    PutKeepsKeys(o, at.allow, Arr(Items(o, at.allow) + [Str(at.id)]));
    PutKeepsKeys(WithAllowed(o, at.allow, at.id), at.entries + [at.id, ENABLED], Bool(true));
  }

  /** A faithful codec merges every config that parses, exactly when the two paths are apart. */
  lemma FaithfulMergeable(live: Option<string>, c: Codec, at: Place)
    ensures Faithful(c) ==>
              (Mergeable(live, c, at) <==>
                  Original(live, c).Some? && !Comparable(at.allow, EnabledPath(at.entries, at.id)))
  {
    if Original(live, c).Some? {
      var o := Original(live, c).value;
      FaithfulMergeVerifies(o, c, at);
      hide Verified, Wanted, Comparable;
      assert Next(live, c, at) == Some(Wanted(o, c, at));
    }
  }

  lemma MergeErrors(live: Option<string>, c: Codec, at: Place, f: Faults)
    ensures forall e: MergeError :: BeforeSwap(e) <==> !e.RolledBack? && !e.RollbackFailed? && !e.NothingToRollBack?
    ensures Original(live, c).None? || f.read ==> !ReachesSwap(live, c, at, f) && !BacksUp(live, c, at, f)
    ensures live.None? ==> Original(live, c).Some?
    ensures f == NO_FAULTS ==> f == Faults(false, false, false, false, None, false, false)
  {
    hide Passes, Wanted;
  }

  /** What the verification asks: the bytes parse, no top-level key of the original is lost, and the id is
      allowed and enabled. */
  lemma PassesMeans(bytes: string, live: Option<string>, c: Codec, at: Place)
    ensures Passes(bytes, live, c, at) <==>
              && Original(live, c).Some? && c.parse(bytes).Some?
              && (forall k :: k in Original(live, c).value ==> k in c.parse(bytes).value)
              && Str(at.id) in Items(c.parse(bytes).value, at.allow)
              && Get(c.parse(bytes).value, at.entries + [at.id, "enabled"]) == Some(Bool(true))
  {
    hide Get, Items;
  }

  /** The conditions of a merge in terms of the tree it starts from and the bytes it wants to write. */
  lemma MergeOf(live: Option<string>, c: Codec, at: Place, f: Faults, o: Fields, next: string)
    requires Original(live, c) == Some(o)
    requires next == c.print_(WithEnabled(WithAllowed(o, at.allow, at.id), at.entries, at.id))
    ensures Next(live, c, at) == Some(next)
    ensures forall bytes: string :: Passes(bytes, live, c, at) <==> Verified(c, bytes, o.Keys, at)
    ensures forall s: Snapshot :: s.live == live || s.bak == live ==> InReach(s, live)
    ensures forall s: Snapshot :: InReach(s, live) || live.None? ==>
              (s.live == Some(next) && Verified(c, next, o.Keys, at)) || s.live == live ==> GoodBytes(s, live, c, at)
    ensures live.None? ==> forall s: Snapshot :: InReach(s, live)
    ensures var onDisk := if f.swapped.Some? then f.swapped.value else next;
            var backup := live.Some? && live.value != next;
            var swaps := !f.read && Verified(c, next, o.Keys, at) && !f.mkdir && !(backup && f.backup) && !f.swap;
            && AfterSwap(live, c, at, f) == Some(onDisk)
            && (ReadsBack(live, c, at, f) <==> !f.readBack && Verified(c, onDisk, o.Keys, at))
            && (ReachesSwap(live, c, at, f) <==> swaps)
            && (BacksUp(live, c, at, f) <==>
                   !f.read && Verified(c, next, o.Keys, at) && !f.mkdir && backup && !f.backup)
    ensures Faithful(c) ==> (Verified(c, next, o.Keys, at) <==> !Comparable(at.allow, EnabledPath(at.entries, at.id)))
  {
    FaithfulMergeVerifies(o, c, at);
    hide Verified, Comparable, Faithful;
    assert next == Wanted(o, c, at);
  }

  datatype RemovalFaults = RemovalFaults(read: bool, readBackup: bool, write: bool, dropped: bool)

  const NO_REMOVAL_FAULTS := RemovalFaults(false, false, false, true)

  /** The backup is from before the install: it parses and does not trust the id. */
  predicate CleanBackup(bytes: string, c: Codec, at: Place) {
    && c.parse(bytes).Some?
    && !Allows(c.parse(bytes).value, at.allow, at.id)
    && !Enables(c.parse(bytes).value, at.entries, at.id)
  }

  /** No config, or one that neither allows nor enables the id. */
  predicate Distrusted(live: Option<string>, c: Codec, at: Place) {
    live.Some? ==> CleanBackup(live.value, c, at)
  }

  /** Whether an edit finds anything of the plugin to take out. */
  predicate Touches(o: Fields, at: Place) {
    Allows(o, at.allow, at.id) || HasEntry(WithoutAllowed(o, at.allow, at.id), at.entries, at.id)
  }

  /** The two files after a removal, and what it was. */
  function Withdraw(s: Snapshot, c: Codec, at: Place, f: RemovalFaults): (Snapshot, Removal) {
    var cleaned := if f.dropped then None else s.bak;
    if f.read then (s, Failed)
    else if s.live.None? then (s.(bak := cleaned), NothingToRemove)
    else if s.bak.Some? && !f.readBackup && CleanBackup(s.bak.value, c, at) then
      if f.write then (s, Failed) else (Snapshot(s.bak, cleaned), Restored)
    else match c.parse(s.live.value)
      case None => (s, Failed)
      case Some(o) =>
        if !Touches(o, at) then (s.(bak := cleaned), NothingToRemove)
        else if f.write then (s, Failed)
        else (Snapshot(Some(c.print_(Removed(o, at.allow, at.entries, at.id))), cleaned), MergedOut)
  }

  /** The removal restores the backup. */
  predicate TakesBackup(s: Snapshot, c: Codec, at: Place, f: RemovalFaults) {
    !f.read && s.live.Some? && s.bak.Some? && !f.readBackup && CleanBackup(s.bak.value, c, at) && !f.write
  }

  /** What a config that parses says at a path. */
  function ReadsAt(live: Option<string>, c: Codec, p: Path): Option<Json> {
    if live.None? || c.parse(live.value).None? then None else Get(c.parse(live.value).value, p)
  }

  /** The frame of a removal: a path apart from the two managed ones reads as before if and only if
      no backup is taken, or the backup agrees there. */
  lemma RemovalKeepsTheRest(s: Snapshot, c: Codec, at: Place, f: RemovalFaults, p: Path)
    requires Faithful(c) && s.live.Some? && c.parse(s.live.value).Some?
    requires !Comparable(at.allow, p) && !Comparable(EntryPath(at.entries, at.id), p)
    ensures ReadsAt(Withdraw(s, c, at, f).0.live, c, p) == ReadsAt(s.live, c, p) <==>
              !TakesBackup(s, c, at, f) || ReadsAt(s.bak, c, p) == ReadsAt(s.live, c, p)
  {
    var o := c.parse(s.live.value).value;
    RemovalFrame(o, at.allow, at.entries, at.id, p);
    hide Get, Removed, CleanBackup, Touches, Comparable;
    var r := Removed(o, at.allow, at.entries, at.id);
    assert c.parse(c.print_(r)) == Some(r);
  }

  /** An edit the user made since the install is lost with the snapshot. */
  lemma RestoreForgetsEdits(c: Codec, at: Place, k: string, v: Json)
    requires Faithful(c)
    ensures var s := Snapshot(Some(c.print_(map[k := v])), Some(c.print_(map[])));
            && ReadsAt(s.live, c, [k]) == Some(v)
            && ReadsAt(Withdraw(s, c, at, NO_REMOVAL_FAULTS).0.live, c, [k]) == None
  {
    GetOfNothing(at.allow);
    GetOfNothing(at.entries + [at.id, ENABLED]);
    assert c.parse(c.print_(map[])) == Some(map[]) && c.parse(c.print_(map[k := v])) == Some(map[k := v]);
    assert CleanBackup(c.print_(map[]), c, at);
  }

  /** Step by step, the two edits are the removal, and "changed" says whether the id was there. */
  lemma RemovalChanges(o: Fields, at: Place)
    ensures var a := WithoutAllowed(o, at.allow, at.id);
            && Removed(o, at.allow, at.entries, at.id) ==
               (if HasEntry(a, at.entries, at.id) then WithoutEntry(a, at.entries, at.id) else a)
            && (!Allows(o, at.allow, at.id) && !HasEntry(a, at.entries, at.id) ==>
                  Removed(o, at.allow, at.entries, at.id) == o)
  {
  }

  // ---- a merge and then a removal -----------------------------------------------------------------

  /** The two files after a failure-free merge, made only where the config does not trust the id yet. */
  function AfterMerge(s: Snapshot, c: Codec, at: Place): Snapshot {
    if ClassifyConfig(s.live, c, at) == Identical || !Mergeable(s.live, c, at) then s
    else Snapshot(Next(s.live, c, at), if BacksUp(s.live, c, at, NO_FAULTS) then s.live else s.bak)
  }

  /** Whether a removal after the merge gives the config back: byte for byte from the sidecar, if it was
      there and did not trust the id. One that trusted the id already loses it; one that cannot be
      merged stays as it is, unless there is an older sidecar to restore or something to take out. */
  predicate GivenBack(s: Snapshot, c: Codec, at: Place) {
    if ClassifyConfig(s.live, c, at) == Identical then false
    else if Mergeable(s.live, c, at) then s.live.Some? && CleanBackup(s.live.value, c, at)
    else if s.live.None? then true
    else if s.bak.Some? && CleanBackup(s.bak.value, c, at) then s.bak == s.live
    else c.parse(s.live.value).None? || !Touches(c.parse(s.live.value).value, at)
  }

  lemma UntouchedIsDistrusted(o: Fields, at: Place)
    requires !Touches(o, at)
    ensures !Allows(o, at.allow, at.id) && !Enables(o, at.entries, at.id)
  {
    NoEntryNoFlag(o, at.entries, at.id);
    hide Allows, HasEntry, Enables;
  }

  /** What a removal prints is clean, and not the bytes it started from if there was something to take out. */
  lemma RemovalShows(o: Fields, c: Codec, at: Place)
    requires Faithful(c)
    ensures CleanBackup(c.print_(Removed(o, at.allow, at.entries, at.id)), c, at)
    ensures Touches(o, at) ==>
              forall raw: string :: c.parse(raw) == Some(o) ==>
                c.print_(Removed(o, at.allow, at.entries, at.id)) != raw
  {
    RemovalDistrusts(o, at.allow, at.entries, at.id);
    RemovalChanges(o, at);
    hide Allows, HasEntry, Enables, Removed;
    var r := Removed(o, at.allow, at.entries, at.id);
    assert c.parse(c.print_(r)) == Some(r);
  }

  lemma UnmergedGivesBack(s: Snapshot, c: Codec, at: Place)
    requires Faithful(c) && AfterMerge(s, c, at) == s
    requires ClassifyConfig(s.live, c, at) == Identical || !Mergeable(s.live, c, at)
    ensures Withdraw(s, c, at, NO_REMOVAL_FAULTS).0.live == s.live <==> GivenBack(s, c, at)
  {
    if s.live.Some? && c.parse(s.live.value).Some? {
      var o := c.parse(s.live.value).value;
      RemovalShows(o, c, at);
      if !Touches(o, at) { UntouchedIsDistrusted(o, at); }
    }
    hide Mergeable, Touches, Allows, HasEntry, Enables, Removed;
  }

  lemma MergedGivesBack(s: Snapshot, c: Codec, at: Place)
    requires Faithful(c) && Mergeable(s.live, c, at) && ClassifyConfig(s.live, c, at) != Identical
    ensures Withdraw(AfterMerge(s, c, at), c, at, NO_REMOVAL_FAULTS).0.live == s.live <==> GivenBack(s, c, at)
  {
    var o := Original(s.live, c).value;
    var m := Merged(o, at.allow, at.entries, at.id);
    RemovalShows(m, c, at);
    hide Touches, Allows, HasEntry, Enables, Removed, Merged;
    assert c.parse(c.print_(m)) == Some(m);
  }

  /** Main result on coming and going: after a failure-free merge and removal the config has its bytes
      back if and only if it was given back in the sense above. */
  lemma RemovalGivesBack(s: Snapshot, c: Codec, at: Place)
    requires Faithful(c)
    ensures Withdraw(AfterMerge(s, c, at), c, at, NO_REMOVAL_FAULTS).0.live == s.live <==> GivenBack(s, c, at)
  {
    hide Withdraw, GivenBack, Mergeable, ClassifyConfig, Faithful;
    if ClassifyConfig(s.live, c, at) == Identical || !Mergeable(s.live, c, at) {
      UnmergedGivesBack(s, c, at);
    } else {
      MergedGivesBack(s, c, at);
    }
  }

  /** A config that was not there stays once a merge has made it. */
  lemma AbsentDoesNotComeBack(bak: Option<string>, c: Codec, at: Place)
    requires Faithful(c) && !Comparable(at.allow, EnabledPath(at.entries, at.id))
    ensures Withdraw(AfterMerge(Snapshot(None, bak), c, at), c, at, NO_REMOVAL_FAULTS).0.live.Some?
  {
    RemovalGivesBack(Snapshot(None, bak), c, at);
    FaithfulMergeable(None, c, at);
    hide Withdraw, AfterMerge, Mergeable, Comparable;
  }

  /** An empty config that is there comes back, though the two edits alone would leave the containers. */
  lemma EmptyComesBack(bak: Option<string>, c: Codec, at: Place)
    requires Faithful(c) && !Comparable(at.allow, EnabledPath(at.entries, at.id))
    ensures var s := Snapshot(Some(c.print_(map[])), bak);
            Withdraw(AfterMerge(s, c, at), c, at, NO_REMOVAL_FAULTS).0.live == s.live
  {
    var s := Snapshot(Some(c.print_(map[])), bak);
    RemovalGivesBack(s, c, at);
    FaithfulMergeable(s.live, c, at);
    GetOfNothing(at.allow);
    GetOfNothing(at.entries + [at.id, ENABLED]);
    assert c.parse(c.print_(map[])) == Some(map[]);
    hide Withdraw, AfterMerge, Mergeable, Comparable;
  }

  lemma {:induction false} DeleteBelowKeepsKeys(o: Fields, p: Path)
    requires |p| > 1
    ensures Delete(o, p).Keys == o.Keys
  {
  }

  lemma RemovalKeepsTopKeys(o: Fields, at: Place)
    ensures o.Keys <= Removed(o, at.allow, at.entries, at.id).Keys
  {
    PutKeepsKeys(o, at.allow, Arr(Without(Items(o, at.allow), Str(at.id))));
    DeleteBelowKeepsKeys(WithoutAllowed(o, at.allow, at.id), at.entries + [at.id]);
  }

  class ConfigFiles {
    var live: Option<string>
    var bak: Option<string>
    ghost var trace: seq<Snapshot>

    constructor (live: Option<string>, bak: Option<string>)
      ensures this.live == live && this.bak == bak
    {
      this.live, this.bak := live, bak;
      trace := [];
    }

    method WriteLive(content: string)
      modifies this
      ensures live == Some(content) && bak == old(bak)
      ensures trace == old(trace) + [Snapshot(live, bak)]
    {
      live := Some(content);
      trace := trace + [Snapshot(live, bak)];
    }

    method WriteBackup(content: string)
      modifies this
      ensures bak == Some(content) && live == old(live)
      ensures trace == old(trace) + [Snapshot(live, bak)]
    {
      bak := Some(content);
      trace := trace + [Snapshot(live, bak)];
    }

    /** `mergePluginAllowList`. */
    method MergePluginAllowList(c: Codec, at: Place, f: Faults) returns (err: Option<MergeError>)
      modifies this
      // Success means the read-back passed, whatever the swap wrote.
      ensures err.None? ==> live.Some? && Passes(live.value, old(live), c, at)
      // An error leaves the original bytes, unless the rollback itself fails or there was no file.
      ensures err.Some? && old(live).Some? && !f.rollback ==> live == old(live)
      ensures err.None? ==> !f.readBack
      // Exactly when it succeeds, rolls back, fails to, or has nothing to go back to.
      ensures err.None? <==> ReachesSwap(old(live), c, at, f) && ReadsBack(old(live), c, at, f)
      ensures err.Some? && !BeforeSwap(err.value) <==>
                ReachesSwap(old(live), c, at, f) && !ReadsBack(old(live), c, at, f)
      ensures err == Some(NothingToRollBack) <==> err.Some? && !BeforeSwap(err.value) && old(live).None?
      ensures err == Some(RollbackFailed) <==> err.Some? && !BeforeSwap(err.value) && old(live).Some? && f.rollback
      ensures err == Some(RolledBack) <==> err.Some? && !BeforeSwap(err.value) && old(live).Some? && !f.rollback
      // What is left in the two files.
      ensures live == if err.Some? && (BeforeSwap(err.value) || err.value.RolledBack?) then old(live)
                else AfterSwap(old(live), c, at, f)
      ensures bak == if BacksUp(old(live), c, at, f) then old(live) else old(bak)
      // At every point the original bytes are in one of the two files, unless nothing was to change.
      ensures |old(trace)| <= |trace|
      ensures forall k :: |old(trace)| <= k < |trace| ==>
                InReach(trace[k], old(live)) || old(live) == Next(old(live), c, at)
      // A swap that writes what it was given only ever shows the original or the verified merged bytes.
      ensures f.swapped.None? ==>
                forall k :: |old(trace)| <= k < |trace| ==> GoodBytes(trace[k], old(live), c, at)
      // Without faults the merge goes through exactly when the config parses and the paths are apart.
      ensures f == NO_FAULTS && Faithful(c) ==>
                (err.None? <==> Original(old(live), c).Some? && !Comparable(at.allow, EnabledPath(at.entries, at.id)))
      ensures f == NO_FAULTS && err.None? ==> live == Next(old(live), c, at)
      // A config that does not parse is never touched.
      ensures Original(old(live), c).None? ==> live == old(live) && bak == old(bak) && trace == old(trace)
    {
      hide *;
      MergeErrors(live, c, at, f);
      if f.read { return Some(ReadFailed); }
      var originalBytes := live;
      var parsed := Original(live, c);
      if parsed.None? { return Some(Unparseable); }
      var obj := parsed.value;
      var originalTopKeys := obj.Keys;
      obj := WithAllowed(obj, at.allow, at.id);
      obj := WithEnabled(obj, at.entries, at.id);
      var next := c.print_(obj);
      MergeOf(live, c, at, f, parsed.value, next);
      if !Verified(c, next, originalTopKeys, at) { return Some(CheckFailed); }
      if f.mkdir { return Some(NoDirectory); }
      if originalBytes.Some? && originalBytes.value != next {
        if f.backup { return Some(NoBackup); }
        WriteBackup(originalBytes.value);
      }
      if f.swap { return Some(SwapFailed); }
      WriteLive(if f.swapped.Some? then f.swapped.value else next);
      if f.readBack || !Verified(c, live.value, originalTopKeys, at) {
        if originalBytes.None? { return Some(NothingToRollBack); }
        if f.rollback { return Some(RollbackFailed); }
        WriteLive(originalBytes.value);
        return Some(RolledBack);
      }
      err := None;
    }

    method DropBackup(ok: bool)
      modifies this
      ensures live == old(live) && bak == (if ok then None else old(bak))
    {
      if ok { bak := None; }
    }

    /** `removePluginAllowListEntry`: restore the backup if it is from before the install, else edit. */
    method RemovePluginEntry(c: Codec, at: Place, f: RemovalFaults) returns (r: Removal)
      requires Faithful(c)
      modifies this
      ensures (Snapshot(live, bak), r) == Withdraw(Snapshot(old(live), old(bak)), c, at, f)
      // Whichever way out was taken, the id is no longer trusted.
      ensures !r.Failed? ==> Distrusted(live, c, at)
      ensures r.Failed? ==> live == old(live)
      // A restore gives back the bytes saved before the install.
      ensures r.Restored? ==> old(live).Some? && live == old(bak) && live.Some? && CleanBackup(live.value, c, at)
      // An edit removes the id and nothing else.
      ensures r.MergedOut? ==>
                && old(live).Some? && c.parse(old(live).value).Some?
                && live == Some(c.print_(Removed(c.parse(old(live).value).value, at.allow, at.entries, at.id)))
      ensures r.NothingToRemove? ==> live == old(live)
      // Without faults it fails only on a config it cannot parse and has no clean backup for.
      ensures f == NO_REMOVAL_FAULTS ==>
                (r.Failed? <==> old(live).Some? && c.parse(old(live).value).None? &&
                                !(old(bak).Some? && CleanBackup(old(bak).value, c, at)))
    {
      if f.read { return Failed; }
      if live.None? {
        DropBackup(f.dropped);
        return NothingToRemove;
      }
      var cur := live.value;
      if bak.Some? && !f.readBackup && CleanBackup(bak.value, c, at) {
        if f.write { return Failed; }
        WriteLive(bak.value);
        DropBackup(f.dropped);
        return Restored;
      }
      var parsed := c.parse(cur);
      if parsed.None? { return Failed; }
      var obj := parsed.value;
      RemovalDistrusts(obj, at.allow, at.entries, at.id);
      RemovalChanges(obj, at);
      var changed := Allows(obj, at.allow, at.id);
      obj := WithoutAllowed(obj, at.allow, at.id);
      if HasEntry(obj, at.entries, at.id) {
        obj := WithoutEntry(obj, at.entries, at.id);
        changed := true;
      }
      hide Allows, HasEntry, Enables, WithoutAllowed, WithoutEntry;
      if !changed {
        DropBackup(f.dropped);
        return NothingToRemove;
      }
      if f.write { return Failed; }
      assert c.parse(c.print_(obj)) == Some(obj);
      WriteLive(c.print_(obj));
      DropBackup(f.dropped);
      return MergedOut;
    }

    /** `dropPluginFromConfig`: edits the live config of a running tool, leaving the backup alone. */
    method DropPlugin(c: Codec, at: Place, writeFails: bool) returns (failed: bool)
      modifies this
      ensures bak == old(bak) && (failed || writeFails ==> live == old(live))
      ensures !failed ==> live.Some? ==> c.parse(live.value).Some? && !Listed(c.parse(live.value).value, at)
      ensures !failed && old(live).Some? ==>
                && c.parse(old(live).value).Some?
                && (live == old(live) ||
                    live == Some(c.print_(Removed(c.parse(old(live).value).value, at.allow, at.entries, at.id))))
      // A config that does not list the id is not written.
      ensures old(live).Some? && c.parse(old(live).value).Some? && !Listed(c.parse(old(live).value).value, at) ==>
                !failed && live == old(live) && trace == old(trace)
      ensures old(live).Some? && c.parse(old(live).value).None? ==> failed
      ensures Faithful(c) && !writeFails && (old(live).Some? ==> c.parse(old(live).value).Some?) ==> !failed
    {
      if live.None? { return false; }
      var parsed := c.parse(live.value);
      if parsed.None? { return true; }
      var obj := parsed.value;
      var topKeys := obj.Keys;
      RemovalDistrusts(obj, at.allow, at.entries, at.id);
      RemovalChanges(obj, at);
      RemovalKeepsTopKeys(obj, at);
      assert !Allows(obj, at.allow, at.id) ==> WithoutAllowed(obj, at.allow, at.id) == obj;
      var changed := Allows(obj, at.allow, at.id);
      obj := WithoutAllowed(obj, at.allow, at.id);
      if HasEntry(obj, at.entries, at.id) {
        obj := WithoutEntry(obj, at.entries, at.id);
        changed := true;
      }
      hide Allows, HasEntry, Enables, WithoutAllowed, WithoutEntry;
      if !changed { return false; }
      var next := c.print_(obj);
      assert Faithful(c) ==> c.parse(next) == Some(obj);
      var check := c.parse(next);
      if check.None? || !(topKeys <= check.value.Keys) || Listed(check.value, at) { return true; }
      if writeFails { return true; }
      WriteLive(next);
      return false;
    }
  }
}
