# Skill injector: model and proofs

`skillinject` keeps an agent skill installed in the tools it finds on a host. A tick compares what
the manifest asks for with the files on disk and writes the differences: skill copies, a marked
block inside heartbeat files that belong to the user, plugin files, an entry in a tool's JSON
config, gated skill copies, and the removal of surfaces an older manifest installed. A dry run
(`Plan`) reports the same without writing; an uninstall takes everything back.

The model follows the program's parts. Code that changes something step by step is a method over
a mutable field or a loop; each is proved equal to a specification function, and the properties
are proved about those functions.

| files | part of the program |
|---|---|
| `Text`, `BlockScan`, `Render`, `Splice` | byte strings; the block scanner, a rendered block, the splice |
| `Heartbeat`, `HeartbeatRuns`, `Coexist` | one heartbeat file: classify, write, strip; runs; an older binary beside this one |
| `MuseShell`, `Muse`, `MuseStability`, `MuseReads` | the frontmatter rewrite, its shell reference, rewriting twice, and what it reads and prints |
| `Json`, `AllowList`, `Inverse`, `Siblings` | the merge of a plugin into a JSON config and its inverse, on values |
| `ConfigTree`, `ConfigEdits` | the same edits as in-place changes of nested maps |
| `ConfigFile` | backup, swap, read-back, rollback; removal; drop |
| `Paths`, `Gated`, `GatedRun` | cleaned paths and containment; gated tools |
| `Retired`, `RetiredList` | retired plugins; the retired list |
| `World`, `Steps`, `Frames`, `Preview`, `Settle`, `Ticks`, `Installed` | a tick as a list of steps over a file store: frames, dry run, settling, safety, what is installed in the end |
| `Manifest`, `Directives`, `Surfaces`, `Ownership` | from a manifest to its steps: what the hashes of a block cover, which row asks for which step, who owns a shared heartbeat file |
| `Promises`, `Takeback`, `Reports` | from the rows of a manifest and the files on disk: what a tick and an uninstall deliver, take away, never touch, and report |
| `Uninstall`, `OnDisk` | an uninstall over the store; a user's text over whole histories |
| `Host` | the imperative tick and uninstall over the store |

Conventions. A string is a sequence of bytes, one `char` each. A cleaned absolute path is the
list of its components. The store maps the path a file resolves to (`Env.canon`) to its content.
The hash is an unknown function that yields 64 lowercase hex digits, and the JSON codec a partial
parser whose printer reads back (`ConfigFile.Faithful`; a top-level `null` counts as the empty
object). What was fetched, which directories exist, which files are symlinks, and which files
refuse to be read (`unreadable`) or written (`locked`) are inputs of a tick. A row that carries
only an error has the state `Absent`, where the program leaves the state empty.

Seven claims one might expect turn out to hold only under a condition, and the exact condition is
proved instead, with a concrete input on which the plain claim fails:

* The merge leaves the id allowed and enabled if and only if neither managed path is a prefix of
  the other (`AllowList.MergeTrusts`); otherwise the check before the write refuses it
  (`Inverse.OnePathForBoth`).
* The two in-place edits, the merge of an id and its removal, cancel on a tree if and only if one of
  three conditions holds, by how the paths lie (`Inverse.RemovalUndoesMerge`). Apart, both containers
  have to be there, of the right kind and without the id; with the array inside the id's own entry,
  only the entries; with the array on the way to the entries, where the program refuses the merge
  before any write, nothing but the bare way may stand there. The edits leave two containers in an
  empty tree (`Inverse.EmptyIsNotGivenBack`); `Inverse.ArrayInEntry` is a tree they restore. On disk
  the removal edits the config only when there is no sidecar to restore.
* On disk, a failure-free merge and removal give a config that can be merged its bytes back if and
  only if it was there and neither allowed nor enabled the id (`ConfigFile.RemovalGivesBack`, and
  over the store `Uninstall.PluginComesAndGoes`). So an empty config comes back
  (`ConfigFile.EmptyComesBack`), while a config the merge had to make stays
  (`ConfigFile.AbsentDoesNotComeBack`).
* Where no step disturbs another, except that two may want the same bytes in one file, and nothing
  fails, a dry run reports the rows of the next tick if and only if every config that still has to
  be merged parses and has its two paths apart, and every file that two surfaces want is as wanted
  already (`Preview.PlanAgrees`). For any other config it announces a rewrite and the tick reports
  an error (`Preview.UnparseableDisagrees`); for a shared file it announces two writes and the tick
  makes one (`Preview.SharedCopyDisagrees`).
* One tick settles the store if and only if cutting the second and further blocks of a heartbeat
  file, and the blocks of a retired one, leaves no complete block behind (`Ticks.OneTickSettles`).
  `HeartbeatRuns.OneStripMayNotSuffice` is a text for which one cut is not enough.
* Taking a plugin out of a config leaves every other path as it reads if and only if no backup is
  restored, or the backup agrees there (`ConfigFile.RemovalKeepsTheRest`): an edit made since the
  install is lost with the snapshot (`ConfigFile.RestoreForgetsEdits`).

* A tick touches each heartbeat file in one step only if and only if no tool writes, through a
  relative path, a file that a retired entry names (`Ownership.HeartbeatsAreOwned`): the collector of
  active heartbeats (retired.go:186-197) skips relative paths, which the tick (skillinject.go:336)
  does write. `Ownership.RelativeHeartbeatIsStripped` is a manifest whose block is written and
  stripped in every tick.

## Model

| member | source | states |
|---|---|---|
| BlockScan.FindMarkers | reconcile.go:159-195 | the scan loop, with its three resume rules and its early exit, returns exactly the declared blocks; each turn moves the position forward |
| BlockScan.BlocksAreTheCompleteBlocks | reconcile.go:131-195 | the blocks of a text are all complete blocks and nothing else (a header with no other begin token in it, then the first end token after it with no begin token before it), ascending and disjoint |
| BlockScan.PatternMatchIsGreedy | reconcile.go:121-129 | every match of the header pattern at a position closes at the same place, and the one with the maximal hex run is the longest: the direct reading the scan uses |
| BlockScan.NothingAfterBreak | reconcile.go:174-178 | when no end token follows a header, no complete block starts there or later, so that stopping the scan loses none |
| BlockScan.ResumeAt | reconcile.go:170-173 | a begin token inside a header: nothing is lost by resuming at it |
| BlockScan.ResumeAtBody | reconcile.go:179-182 | a begin token before the end token: nothing is lost by resuming at it |
| BlockScan.NextBlock | reconcile.go:183-192 | otherwise the next complete block is the one found, and the scan goes on at its end |
| BlockScan.HeaderAtSound | reconcile.go:121-129 | a header that is found matches the pattern |
| BlockScan.HeaderAtComplete | reconcile.go:121-129 | and every match with the maximal hex run is found |
| BlockScan.BlockAtSound | reconcile.go:152-192 | a block that is found is complete |
| BlockScan.BlockAtComplete | reconcile.go:152-192 | and every complete block is found |
| BlockScan.NoBlockInside | reconcile.go:152-192 | no block starts inside another |
| Render.ScanDistributes | reconcile.go:301-303 | for any text before, any delimiter-free body, and any text after that does not start with a newline, the blocks are those before, the rendered one with its exact hash and `r`, and the shifted ones after |
| Render.RenderRestValid | reconcile.go:301-303 | the begin comment that is written reads back its own `r=` |
| Splice.SpliceMarker | reconcile.go:283-295 | the first block becomes the new one, the others go, and every byte outside the blocks stays, in order |
| Splice.OrphanIsKept | reconcile.go:152-182 | from a begin token that starts no complete block up to the next begin token or the end of the file no byte is ever covered by a block, so none is deleted |
| Heartbeat.UserFile.Classify | state.go:119-135 | absent without a block, drifted with several or with other hashes, identical with exactly one that carries both |
| Heartbeat.UserFile.WriteMarker | reconcile.go:241-276 | the whole new content: the block alone, the block behind frontmatter and body, or the first block replaced and the rest cut |
| Heartbeat.UserFile.StripMarkerFile | uninstall.go:246-274 | every complete block is cut, everything else stays, and the file stays too |
| Heartbeat.TicksConverge | state.go:119-135 | from any content, more ticks than the file has bytes lead to exactly one block with the wanted hashes, and from then on nothing is written |
| Heartbeat.OneWriteSettles | reconcile.go:255-274 | with at most one block one tick is enough |
| Heartbeat.WriteShrinksRest | reconcile.go:283-295 | while several blocks are left every write strictly shortens the text after the first, even when a cut joins an open begin token to a stray end token |
| Heartbeat.BaseTrims | reconcile.go:262-273 | what a first block is appended to is the user's text, up to its final newlines |
| Heartbeat.BaseHasNoBlock | reconcile.go:262-273 | appending never makes a block out of the user's text |
| Heartbeat.UserFile.Reconcile | skillinject.go:439-451 | classify, and write unless there is nothing to do |
| Heartbeat.BaseKeepsText | reconcile.go:262-273 | frontmatter and body come first, and only the final newlines are replaced |
| HeartbeatRuns.RoundTrip | uninstall.go:246-274 | after any run of installs, with any directives, and strips that ends in a strip, a text that held no block is back up to its final newlines, its frontmatter still first, no block left |
| HeartbeatRuns.RunReachable | reconcile.go:241-276 | all a run can ever leave in the file: the start, its base, or the base and one block |
| HeartbeatRuns.BaseIdempotent | reconcile.go:373-379 | installing again after a strip puts the block back in the same place |
| HeartbeatRuns.WriteKeepsUserBytes | reconcile.go:278-295 | a write is the user's kept bytes, in order, around the block |
| HeartbeatRuns.StripsConverge | uninstall.go:258-266 | repeated strips reach a text without a block |
| HeartbeatRuns.OneStripMayNotSuffice | uninstall.go:266 | a text with one block whose strip leaves a new complete block |
| HeartbeatRuns.FrontmatterCanAppear | reconcile.go:369 | without frontmatter to start with, the newlines an install adds can close an open fence |
| Coexist.TwoWritersSettle | zz_mixed_binary_test.go:25-53 | on a text without a begin token, any interleaving with the older writer makes at most two writes; once this release has ticked neither writes again and the block left holds the body literally |
| Coexist.OldReadsBlock | reconcile.go:106-119 | the older writer finds this release's block and reads its `hash=` |
| MuseShell.AwkPrintsDescription | testdata/muse_frontmatter.sh:14-44 | the awk program, run record by record, prints the declared description |
| Muse.SplitRecords | skillformat.go:91-107 | the lines are awk's records, the offsets where each starts |
| Muse.OffsetsAreTails | skillformat.go:80-85 | cutting at an offset is `tail -n +N` |
| Muse.ExtractDescription | skillformat.go:132-172 | the three-state loop returns what awk prints |
| Muse.FusedTr | skillformat.go:197-218 | the one loop is the three `tr` passes: delete, map, squeeze |
| Muse.NormalizeMuseDescription | skillformat.go:183-230 | the staged pipeline: clean, unquote, default, cap, escape |
| Muse.MuseSkillMD | skillformat.go:52-86 | the Go rewrite gives the shell pipeline's bytes on every input |
| MuseStability.UnescapeUndoesEscape | skillformat.go:183-230 | unescaping a printed description returns the text that was escaped |
| MuseStability.DescriptionIsPlain | skillformat.go:197-230 | the description is one control-free line of at most 1024 bytes |
| MuseStability.RewriteShape | skillformat.go:70-86 | the rewritten file is the header and, byte for byte, the body after the closing fence; the printed description takes at most 2048 bytes and reads back as the text that was escaped |
| MuseStability.RewriteSettles | skillformat.go:52-86 | for a control-free name two rewrites reach a fixed point, and one does if and only if the description has no two adjacent spaces |
| MuseReads.PlainReads | skillformat.go:132-172 | a plain description on one line is its trimmed text up to the first comment |
| MuseReads.QuotedReads | skillformat.go:132-172 | a quoted one keeps its quotes and what looks like a comment |
| MuseReads.BlockReads | skillformat.go:157-172 | a block scalar starts empty and takes the lines that follow |
| MuseReads.ContinuationReads | skillformat.go:143-156 | an indented line is trimmed and joined by one space, without its comment only in a plain scalar; an empty line adds nothing |
| MuseReads.BlockIndicatorIs | skillformat.go:115-117 | a sign with indicators is a block scalar, also with a comment after blanks but not with one right behind |
| MuseReads.SingleQuotesGo | skillformat.go:212-215 | unquoting undoes single quotes around a text with its quotes doubled |
| MuseReads.EscapedSpaceReads | skillformat.go:205-211 | an escaped newline or tab in double quotes is read as a space |
| MuseReads.CleanedIs | skillformat.go:184-201 | a cleaned description has no double, leading or trailing space and no control character, and one like that is kept |
| MuseReads.TrByte | skillformat.go:186-198 | byte by byte: tabs and newlines become spaces, other control characters go, the rest stays |
| MuseReads.CappedIs | skillformat.go:220-226 | at most 1024 bytes are kept; a longer text is cut to 1020 bytes, back to before its last space, and ends in three dots |
| MuseReads.NameStandsIn | skillformat.go:217-219 | without a description the name stands in |
| MuseReads.TailIsRest | skillformat.go:70-75 | the body starts right after the newline of the last line before it |
| AllowList.MergeTrusts | plugin_allowlist.go:304-353 | the merge always enables the id, and allows it exactly when neither managed path is a prefix of the other |
| AllowList.MergeFrame | plugin_allowlist.go:262-353 | every path not comparable to the managed ones reads as before, even where an intermediate value was replaced by an object |
| AllowList.MergeKeepsOrder | plugin_allowlist.go:304-317 | other ids keep their places; the array grows at its end, only when the id is new |
| AllowList.MergeIdempotent | plugin_allowlist.go:304-353 | merging again changes nothing |
| AllowList.RemovalDistrusts | uninstall.go:365-406 | whatever the tree and the paths, the id ends neither allowed nor enabled nor listed |
| AllowList.ApartRemovalUndoesMerge | uninstall.go:365-406 | with the allow-list path apart from the id's entry, removal after merge gives back the tree if and only if both containers were there, of the right kind and without the id |
| Inverse.RemovalUndoesMerge | uninstall.go:365-406 | when the two in-place edits cancel: the exact condition for all trees and all pairs of paths, also where one lies on the way to the other |
| Inverse.OnTheWay | uninstall.go:365-406 | with the allow-list path on the way to the entries, the two edits together would leave the bare way, whatever stood there; the check before the write refuses such a merge |
| Inverse.InsideEntry | uninstall.go:365-406 | with the allow-list path inside the id's own entry, everything goes with the entry |
| Inverse.EmptyIsNotGivenBack | plugin_allowlist.go:262-280 | the two edits, without a sidecar, leave two containers in an empty tree |
| Inverse.OnePathForBoth | plugin_allowlist.go:224-241 | with one path for both, the merged tree enables the id and does not allow it |
| Inverse.ArrayInEntry | uninstall.go:392-406 | an array inside the id's entry comes and goes with the entry |
| AllowList.RemovalFrame | uninstall.go:365-406 | every path not comparable to the two managed ones reads as before a removal |
| AllowList.MergeAndDropCommute | skillinject.go:388-394 | merging one plugin and dropping another commute |
| AllowList.DropKeepsOthers | retired.go:501-558 | pruning a retired id after the merge leaves the active one allowed and enabled |
| Siblings.MergeKeepsStanding | plugin_allowlist.go:304-353 | a merge of one plugin leaves unchanged whether another is allowed, entered and enabled |
| Siblings.RemovalKeepsStanding | uninstall.go:365-406 | so does a removal |
| ConfigTree.AssignIsPut | plugin_allowlist.go:304-353 | assigning a key of a nested map in place is a write at the path that reaches the map, and is seen nowhere else |
| ConfigTree.RemoveIsDelete | uninstall.go:392-406 | deleting a key in place is a deletion at that path |
| ConfigTree.OnePath | plugin_allowlist.go:262-280 | no map of a parsed config is reached in two ways |
| ConfigEdits.Config.WalkObject | plugin_allowlist.go:262-280 | the walk returns the container at the end of the path; with `create` it leaves the tree with exactly the missing objects put in, without it the tree is untouched and it fails exactly when the way ends |
| ConfigEdits.Config.AllowListContains | plugin_allowlist.go:282-302 | whether the id is in the array at the path |
| ConfigEdits.Config.EntryEnabled | plugin_allowlist.go:319-334 | whether the entry's flag is true |
| ConfigEdits.Config.EnsureAllowListEntry | plugin_allowlist.go:304-317 | the in-place edit is the declared one |
| ConfigEdits.Config.EnsureEntryEnabled | plugin_allowlist.go:336-353 | the in-place edit is the declared one |
| ConfigEdits.Config.RemoveAllowListEntry | uninstall.go:365-388 | the in-place edit is the declared one; it says whether it changed anything |
| ConfigEdits.Config.RemoveEntriesEntry | uninstall.go:392-406 | the in-place edit is the declared one; it says whether it changed anything |
| ConfigFile.ConfigFiles.MergePluginAllowList | plugin_allowlist.go:103-256 | at every recorded point the live file is the original or the verified merged bytes, with the original in the sidecar when they differ; exactly when it succeeds (the swap was reached, the file could be read back and passed the verification), rolls back, fails to roll back, or had nothing to go back to; an error leaves the original bytes unless the rollback itself fails; what is left in both files; a config that does not parse is never touched; without faults it succeeds exactly when the config parses and the paths are apart |
| ConfigFile.FaithfulMergeVerifies | plugin_allowlist.go:224-241 | merged bytes pass the verification exactly when the two paths are apart |
| ConfigFile.PassesMeans | plugin_allowlist.go:224-241 | bytes pass the verification exactly when they parse, keep every top-level key of the original, and allow and enable the id |
| ConfigFile.ConfigFiles.RemovePluginEntry | uninstall.go:286-361 | every outcome but an error leaves a config that neither allows nor enables the id, whichever of the three ways out was taken and whatever the backup held; a restore gives back the saved bytes; when it fails |
| ConfigFile.ConfigFiles.DropPlugin | retired.go:501-558 | on success the id is listed nowhere and nothing else changed; a config that does not list the id, or does not parse, is never written; the sidecar is left alone |
| ConfigFile.RemovalKeepsTheRest | uninstall.go:305-361 | a path apart from the two managed ones reads as before a removal if and only if no backup is taken, or the backup agrees there |
| ConfigFile.RestoreForgetsEdits | uninstall.go:309-323 | a config with an edit made since the install, which the restored snapshot loses |
| ConfigFile.RemovalGivesBack | uninstall.go:305-361 | after a failure-free merge and removal a config that could be merged has its bytes back if and only if it was there and neither allowed nor enabled the id; one that trusted the id already never has; one that was not merged stays as it was unless an older sidecar is restored or it lists the id |
| ConfigFile.EmptyComesBack | plugin_allowlist.go:162-172 | an empty config that is there comes back byte for byte from the sidecar |
| ConfigFile.AbsentDoesNotComeBack | plugin_allowlist.go:162-172 | a config that was not there is left behind by the removal |
| Uninstall.PluginComesAndGoes | uninstall.go:286-361 | the same over the file store, for the config step of a tick and the removal of an uninstall |
| Paths.PathWithinIsComponentPrefix | manifest.go:431-438 | the string test holds exactly for the directory itself and, unless it is `/`, for the paths that extend it by components |
| Paths.PathTextReadsBack | manifest.go:441-449 | a cleaned absolute path written out reads back as itself |
| Paths.TildeIsHome | manifest.go:441-449 | `~` is the home directory and `~/...` lies below it |
| Paths.RelativeExpandsToNothing | manifest.go:441-449 | exactly the paths that start neither with `/` nor with `~/`, and are not `~`, are relative |
| Paths.DotsGoUp | manifest.go:441-449 | `.` and empty parts stay, `..` goes up and stays at the root |
| Paths.JoinPart | manifest.go:441-449 | joining goes part by part |
| Surfaces.PlacesAre | manifest.go:441-449 | where the manifest's absolute, `~/` and relative paths lead |
| Gated.ParseGatedMarker | gated.go:153-182 | the loop accepts a marker exactly when every line that says something is an entry and no key is set twice, and then returns the two known values |
| Gated.MarkerReads | gated.go:153-182 | a marker as the installer writes it declares its directory and its format |
| Gated.TwiceIsMalformed | gated.go:153-182 | a key that is set twice spoils the marker |
| Gated.CommentIsIgnored | gated.go:153-182 | a comment says nothing |
| Gated.NoEntryIsMalformed | gated.go:153-182 | a line that is neither a comment nor an entry spoils the marker |
| Gated.MarkerPathIs | gated.go:92-102 | a row has a marker exactly when it names a path strictly inside `~/.pilot` |
| Gated.TargetIs | gated.go:220-246 | a row has a target exactly when its names are plain, its root lies strictly inside the home directory and its skills directory inside the root; which file that is |
| Gated.TargetStrictlyInside | gated.go:220-246 | an accepted row's skill file lies strictly inside its root, which lies strictly inside the home directory, so the final escape check can never fail |
| Gated.MarkerStrictlyInside | gated.go:92-102 | an accepted marker path lies strictly inside `~/.pilot` |
| GatedRun.InactiveTouchesNothing | gated.go:271-398 | while the marker does not attest this skills directory and format, neither an install nor an uninstall changes a file, and what is reported depends on no file but the marker |
| GatedRun.NoLinkNoDetour | gated.go:418-437 | without a symlink on the way below the root a path resolves, component by component, below the root |
| GatedRun.ActiveStaysInside | gated.go:271-398 | the root of an active row lies strictly inside the home directory, and a file it writes or deletes is its skill file, which lies strictly below the root after symlinks are resolved |
| GatedRun.GateWritesWhen | gated.go:271-330 | a row writes its copy, and only that, if and only if its marker is a readable regular file strictly inside `~/.pilot` that declares this row's resolved directory and format, root and way are in order, the copy is no other tool's, and it is not there with the wanted hash |
| GatedRun.UngateRemovesWhen | gated.go:337-398 | an uninstall deletes the copy, and only that, if and only if the same marker conditions hold and the copy is there and can be deleted |
| Retired.FilesGoOnlyWhenClear | retired.go:336-389 | if a file of a plugin with an allow-list goes, the config does not list the id afterwards; a config that does not parse is never written |
| Retired.OneStepFinishes | retired.go:336-389 | once the config can be read, one failure-free step removes the id and every file, and the next one reports nothing |
| Retired.NeutralizedAtMostOnce | retired.go:400-423 | over a run in which the user edits the config at every turn but it never parses, each file is reported as neutralised at most once |
| Retired.NeutralizedOnce | retired.go:400-423 | one pass reports a file at most once, not at all if it holds its stub, and leaves the stub in it |
| Retired.DeletedFrame | retired.go:378-386 | exactly the files that were present and can be removed go |
| RetiredList.CollectRetired | retired.go:202-270 | the nested loops with their `seen` map return the declared lists: entries in order, unresolved and active ones skipped, each key once |
| RetiredList.PickedFrom | retired.go:210-267 | whatever is listed comes from an entry that resolves and is not active |
| RetiredList.PickedOnce | retired.go:210-267 | nothing is listed twice |
| RetiredList.EntryIsPicked | retired.go:210-267 | every entry that resolves and is not active is listed, itself or a twin with its key |
| RetiredList.PickedIs | retired.go:210-267 | an item is listed if and only if some entry is the first of its key to resolve to it |
| RetiredList.MarkersAreRetired | retired.go:212-221 | no retired heartbeat is an active one, after symlinks are resolved, and none is listed twice |
| RetiredList.PluginsAreRetired | retired.go:222-251 | no retired plugin has an active id, and none is listed twice |
| RetiredList.PluginFilesInside | retired.go:231-241 | its files lie strictly inside a directory that carries its id and is not active |
| RetiredList.HelperStrictlyInside | retired.go:252-267 | helpers are deleted only strictly inside `~/.pilot`, and never an active one |
| Frames.StepFrame | skillinject.go:276-394 | a step of a tick writes nothing but its own files and its config |
| Frames.UndisturbedView | skillinject.go:388-394 | a step that shares at most a config with another, for a sibling plugin, leaves all that the other looks at unchanged |
| Frames.PreviewWritesNothing | skillinject.go:181-191 | a step of a dry run changes nothing |
| Preview.PlanAgrees | skillinject.go:181-191 | a dry run changes no file, and its rows are those of the next failure-free tick if and only if every config that has to be merged can be and every file that two surfaces want is as wanted already |
| Preview.UnparseableDisagrees | skillinject.go:518-535 | a config that does not parse: a rewrite is announced, an error reported |
| Preview.SharedCopyDisagrees | skillinject.go:315-330 | two tools with one skill copy: two writes are announced, one is made |
| Settle.StepOnce | skillinject.go:308-396 | every surface but a heartbeat is done after one go |
| Ticks.TicksSettle | skillinject.go:257-396 | if nothing fails and no two steps disturb one another (`Peaceful`; two may want the same bytes in one file), then from any files more ticks than the longest file has bytes reach a store that further ticks leave unchanged |
| Ticks.OneTickSettles | skillinject.go:257-396 | under the same hypotheses one tick is enough if and only if the cuts it makes leave no block behind |
| Ticks.TidyFilesCutClean | retired.go:302-315 | in particular with at most one block per heartbeat file and no begin token left in a retired one |
| Ticks.LastOwnerWins | skillinject.go:315-330 | two rows that want different bytes in one file: the last one wins and the store settles at once, though every tick rewrites the file twice |
| Installed.FixedMeansInstalled | skillinject.go:257-396 | a failure-free tick of steps that do not disturb one another leaves the store alone if and only if every surface is as wanted: files of ours with the wanted hash, one block with the wanted hashes in each heartbeat, plugins trusted, gated copies in place, retired surfaces gone |
| Installed.TicksInstall | skillinject.go:257-396 | and from any files, that is where such ticks lead |
| Installed.BeatStillIs | state.go:119-135 | a heartbeat is left alone exactly when it holds one block with the wanted hashes |
| Ticks.TickRetiresSafely | retired.go:336-423 | in a tick of steps that do not disturb one another, with any failures (a file that refuses to be read is taken to be there, `Refusable`), if a file of a retired plugin with an allow-list goes, the config does not list the plugin when the tick ends |
| Ticks.TickRetires | retired.go:336-389 | once the config can be read, one failure-free tick of steps that do not disturb one another removes id and files, with no rows after |
| Ticks.TickSparesUnreadable | retired.go:501-558 | no tick writes a config that cannot be read or parsed, whatever fails |
| Ticks.TickKeepsTrust | skillinject.go:388-394 | after a failure-free tick of steps that do not disturb one another an active plugin is allowed and enabled, whatever was merged or dropped beside it |
| Directives.HashSeesRef | reconcile.go:197-209 | the `r=` of a block covers its body: for any two bodies some hash tells them apart |
| Directives.HashesSeeSkill | reconcile.go:197-209 | both hashes cover the skill: for any two skill bodies some hash tells both fields apart |
| Directives.DirectiveIs | reconcile.go:197-220 | `hash=` is the short hash of the skill body alone, `r=` that of the skill's hash and the whole rendered block, and the body is the template rendered for the tool's own copy |
| Directives.TemplateEditShips | reconcile.go:197-209 | a file settled for one rendering, once the tool renders another whose covered text does not collide, is rewritten by the next tick, and holds one block with the new body literally in it |
| Surfaces.StepsAreRows | skillinject.go:257-397 | the steps of a tick are exactly those some row of the manifest asks for, spelled out from the manifest: helpers, copies of the tools that are there, heartbeats (written by the first tool that renders in the file), plugin files and configs of the tools that get that far, gated rows, and the first retired entry of each key that no active row has, a plugin with all its files, its config and its stubs |
| Surfaces.StepsInOrder | skillinject.go:276-396 | helpers, tools, gated rows, retired heartbeats, plugins, helpers, in this order |
| Surfaces.ToolInOrder | skillinject.go:308-375 | a tool's copy comes first, then its heartbeat, then its plugin's files and its config; nothing for a tool that is not there |
| Surfaces.DisabledManagesNothing | retired.go:277-286 | a disabled host does what a manifest that manages nothing would make it do |
| Promises.HelperArrives | skillinject.go:276-306 | a helper whose body could be fetched is there after a failure-free tick |
| Promises.CopyArrives | skillinject.go:315-330 | so is the skill copy of every tool whose root directory is there, at the path its layout says |
| Promises.PluginFileArrives | skillinject.go:458-498 | so is every file of a plugin whose tool gets that far, if it stays inside the plugin's directory |
| Promises.PluginIsTrusted | skillinject.go:367-374 | and that plugin is allowed and enabled in its config, if the config could be read and the two paths are apart |
| Promises.TrustsAreRows | skillinject.go:308-374 | a tick edits a config for a plugin exactly when its tool is there with a heartbeat whose block is written for it or for a tool before it, and the plugin has an allow-list at that place |
| Promises.HeartbeatArrives | skillinject.go:331-351 | with at most one block in the file, a tick leaves exactly one with the hashes of this skill and rendering, and unless it was there already, with the rendered body literally in it |
| Promises.GateArrives | gated.go:271-330 | after a tick a gated copy holds the skill in its format if the marker names the row and it stands; if not, the file in that place is as before |
| Promises.RetiredHeartbeatIsStripped | retired.go:302-315 | a retired heartbeat file loses its blocks |
| Promises.RetiredHelperGoes | retired.go:326-332 | a retired helper is deleted |
| Promises.RetiredFilesGoSafely | retired.go:336-389 | from the entry and the disk: in a tick with any failures, if a file strictly inside the entry's directory goes and the entry names a config, that config lists the id at neither of the entry's paths when the tick ends |
| Promises.RetiredPluginGoes | retired.go:336-389 | from the entry and the disk: if nothing fails and the config parses, one tick takes the id out of it and deletes every such file |
| Promises.RetiredPluginIsSilenced | retired.go:400-423 | while the config does not parse, every file with a stub holds its stub |
| Promises.TickTouchesOnlyNamed | skillinject.go:257-397 | whatever fails, real or dry, a file that no row of the manifest names is as before |
| Promises.SidecarIsBeside | plugin_allowlist.go:66 | the sidecar stands beside the config, under its name with one suffix |
| Ownership.HeartbeatsAreOwned | skillinject.go:257-351 | however many tools share a heartbeat file and whatever is retired, each heartbeat file is touched in one step of a tick only, if and only if no tool that beats has a relative heartbeat path that resolves to a retired one |
| Ownership.ToolsHearts | skillinject.go:308-351 | the tools write each heartbeat file once, and exactly the files in which an installed tool with a rendered heartbeat beats |
| Ownership.RetiredKeys | retired.go:186-221 | the heartbeat files a tick strips are exactly those named by an entry that resolves and is not active |
| Ownership.RelativeHeartbeatIsStripped | retired.go:186-197 | a tool with a relative heartbeat path that is retired under its absolute one: written and stripped in one tick |
| Ownership.StepBeatsValid | reconcile.go:207-220 | every block a tick wants to write is free of delimiters and has hex hashes |
| Ownership.ManifestIsPeaceful | skillinject.go:198-397 | if the other surfaces of a manifest are apart, siblings in one config, or copies of the same bytes in one file (`Orderly`), then no step of its tick disturbs another, but for such copies, if and only if no tool writes a retired heartbeat through a relative path |
| Ownership.ManifestSettles | skillinject.go:198-397 | so the failure-free ticks of an orderly manifest that writes no retired heartbeat settle, with the exact conditions for one tick and for the dry run |
| Host.Machine.Tick | skillinject.go:198-397 | the imperative tick, real or dry, enabled or disabled, leaves exactly the files and rows of the manifest's steps in their order |
| Host.Machine.ReconcileTools | skillinject.go:308-375 | the loop over the tools with its maps of owners: steps, files and rows |
| Host.Machine.ReconcileTool | skillinject.go:309-374 | one tool: skipped, skill copy, owned, failed or written heartbeat, plugin |
| Host.Machine.ReconcileHelpers | skillinject.go:276-306 | the loop over the helpers |
| Host.Machine.ReconcileMarker | skillinject.go:430-453 | classify a heartbeat and write its block |
| Host.Machine.ReconcilePluginFiles | skillinject.go:458-498 | one row per plugin file; names that leave the directory and failed fetches are errors and stop nothing |
| Host.Machine.ReconcilePluginAllowList | skillinject.go:518-535 | classify a config and merge the plugin into it |
| Host.Machine.ReconcilePlugin | skillinject.go:367-374 | the files, and then the allow-list if the plugin has one |
| Host.Machine.ReconcileGatedTools | skillinject.go:379-386 | the loop over the gated rows, with the skill copies the tools own |
| Host.Machine.ReconcileGatedTool | gated.go:271-330 | marker, row, target, owner, attestation and links, in this order, and then the file |
| Host.Machine.ActiveSurfaces | retired.go:190-210 | the loops that gather what the manifest still manages |
| Host.Machine.PruneWhileDisabled | retired.go:277-286 | a host in disabled mode only prunes, and skips nothing |
| Host.Machine.ApplyRetired | retired.go:302-332 | markers, plugins, helpers, in this order |
| Host.Machine.ApplyRetiredPlugin | retired.go:336-389 | config first, then the files that were there at the start |
| Host.Machine.NeutralizeRetiredPlugin | retired.go:400-423 | each file with a stub is overwritten unless it holds it already |
| Host.Machine.DeleteFiles | retired.go:378-386 | one row per file; one that cannot be removed stays |
| Host.Machine.RemovePluginEntry | uninstall.go:286-361 | the config and its sidecar after the removal |
| Host.Machine.RemoveGatedTool | gated.go:337-398 | nothing while the tool is inactive, else the one file |
| Host.Machine.UninstallPluginFiles | uninstall.go:154-171 | the loop over a plugin's files; a name that leaves the directory is reported, not removed |
| Host.Machine.UninstallTool | uninstall.go:126-185 | skill copy, heartbeat whether or not there is a template, plugin files, config |
| Host.Machine.UninstallTools | uninstall.go:126-185 | the loop over the tools, installed or not |
| Host.Machine.UninstallHelpers | uninstall.go:119-123 | the loop over the helpers |
| Host.Machine.UninstallGatedTools | uninstall.go:187-191 | the loop over the gated rows |
| Host.Machine.ReportRetired | retired.go:446-453 | how retired rows are reported by an uninstall |
| Host.Machine.UninstallAll | uninstall.go:99-199 | the imperative uninstall leaves exactly the declared files and report |
| Uninstall.UninstallDeletes | uninstall.go:225-238 | after a failure-free uninstall no owned file of the manifest is left |
| Uninstall.UninstallCreatesNothing | uninstall.go:99-199 | no uninstall creates a file, whatever fails |
| Uninstall.UninstallDistrusts | uninstall.go:286-361 | after a failure-free uninstall every plugin whose config could be read, and whose config and sidecar no surface but its siblings touches (`OnlySiblings`), is neither allowed nor enabled: restoring a backup for one plugin cannot bring back another |
| Uninstall.UninstallRetires | uninstall.go:193-199 | a failure-free uninstall takes a retired plugin out of a config that could be read when it began, deletes its files and has nothing left to report for it, whatever was restored before, if nothing but siblings touches that config (`OnlyRetires`) |
| Uninstall.UngateDeletes | gated.go:337-398 | a gated skill copy is deleted exactly when its marker attests it, its root is there, no symlink is on the way and it is a regular file |
| Uninstall.PruningCreatesNothing | skillinject.go:208-227 | pruning, all that a disabled host does, never adds a file |
| Takeback.UndosAreRows | uninstall.go:99-191 | an uninstall takes back exactly what some row asks for: every helper, and of every tool, there or not, its copy, its heartbeat, its plugin files (or a report for a name that leaves the directory) and its config, and every gated row |
| Takeback.UndosInOrder | uninstall.go:99-191 | helpers first, then tools, then gated rows |
| Takeback.HelperIsRemoved | uninstall.go:119-123 | no helper of the manifest is left after a failure-free uninstall |
| Takeback.CopyIsRemoved | uninstall.go:126-132 | nor the skill copy of any tool |
| Takeback.PluginFileIsRemoved | uninstall.go:154-171 | nor a plugin file that stays inside the plugin's directory |
| Takeback.PluginIsDistrusted | uninstall.go:177-183 | every plugin of the manifest whose config could be read, and is touched only for its siblings (`OnlySiblingsOf`), ends neither allowed nor enabled, and its sidecar is gone |
| Takeback.GatedCopyIsRemoved | gated.go:337-398 | a gated copy goes if the marker names the row and it stands; if not, the file in that place is as before |
| Takeback.RetiredPluginIsRemoved | uninstall.go:193-199 | a retired entry's id is out of a config that parsed when the uninstall began, and every file of the entry is gone |
| Takeback.RetiredFilesAreRemovedSafely | uninstall.go:193-199 | whatever else fails, if a file of the entry that no other row takes back goes, its config lists the id at neither path |
| Takeback.UninstallTouchesOnlyNamed | uninstall.go:99-199 | whatever fails, a file that no row of the manifest names is as before |
| Reports.OwnRowTells | state.go:96-106 | the row of a file of ours says what happened to the file, and why |
| Reports.BeatRowTells | state.go:119-135 | so does that of a heartbeat |
| Reports.TrustRowTells | skillinject.go:518-535 | and of a config: left alone exactly when it trusts the id, trusted after a write, as before after an error |
| Reports.GateRowTells | gated.go:271-330 | a gated row reports a write exactly when its copy changes |
| Reports.BrokenGateRowTells | gated.go:271-300 | a row whose marker path or target is out of order is an error that names it; one without a marker says nothing |
| Reports.UnplugRowsTell | retired.go:336-423 | a removal row of a retired plugin means that the id is out, or the file gone |
| Reports.DropRowTells | uninstall.go:225-238 | what an uninstall reports of a file of ours |
| Reports.UnblockRowTells | uninstall.go:246-274 | of a heartbeat |
| Reports.DistrustRowTells | uninstall.go:286-361 | of a config: restored is the sidecar byte for byte |
| Reports.UngateRowTells | gated.go:337-398 | of a gated row |
| Reports.BrokenUngateRowTells | gated.go:337-370 | of a gated row that is out of order |
| Reports.RetiredRowTells | retired.go:446-453 | of a retired surface |
| OnDisk.UserTextComesBack | uninstall.go:99-199 | a user's text without a complete block survives any history of ticks and uninstalls, of changing manifests in which the file is an active heartbeat, a retired one or not listed, and with any failures; one failure-free uninstall of a manifest that lists it, active or retired, then brings it back: same bytes up to the final newlines, frontmatter first, no block left. Asked is only that no manifest puts another kind of surface into the file |
| OnDisk.UninstallText | uninstall.go:126-199 | on a heartbeat file an uninstall, with any failures, amounts to strips, and to at least one if it is failure-free and the file is listed |
| OnDisk.HeartbeatsMark | skillinject.go:331-351 | the heartbeat steps of any manifest meet what is asked |

## Left out

- Coexist.TwoWritersSettle: the older writer's `$` expansion is an arbitrary function; on a fresh text it is never applied.
- ConfigEdits.Config.WalkObject: ends at the parsed tree; the file protocol in `ConfigFile` uses the edits on values, which these methods are proved to equal.
- Host.Machine.Tick: does not return the names of the tools it skipped, and starts when everything has been fetched. The manifest, the bodies and the rendered templates are inputs; a failed fetch of the manifest or of the skill body, which ends a tick early, is not modelled, nor is the cache that is written beside a tick.
- Host.Machine.UninstallAll: takes the loaded manifest; falling back to the cached one is not modelled, nor is the removal of directories left empty.
- Host.Machine.ReconcileHelpers: a helper whose bytes are current but whose file mode is not counts as identical.
- Host.Machine.DeleteFiles: an owned path that is itself a symlink is written and deleted at its target, where the program replaces or removes the link; so for every file of ours, and a dangling link does not count as present. A directory in the place of a file of ours is modelled for gated copies only.
- Host.Machine.ApplyRetiredPlugin: does not remove the install directory that is left empty.
- Host.Machine.UninstallTool: does not remove the skill and plugin directories that are left empty.
- Host.Machine.RemoveGatedTool: does not remove the entrypoint directory that is left empty.
- Ticks.TicksSettle: the failures of a tick (`unreadable`, `locked`) are absent here; what failures may do is in `Ticks.TickRetiresSafely` and in the file protocol.
- Ownership.ManifestIsPeaceful: two surfaces of different kinds in one file are outside, and so are two of one kind that want different bytes in one file: helpers, skill copies or plugin files with one path, or gated rows with one target. For the first three `Ticks.LastOwnerWins` says what happens.
- Ownership.ManifestSettles: leaves out the same manifests.
- Host.Machine.ReconcilePluginAllowList: a config that is itself a symlink is written at its target, where the program renames a new file over the link.
- Host.Machine.RemovePluginEntry: the same for a removal.
- Host.Machine.ReconcileGatedTool: a skill path that is neither a file nor a directory is not modelled.
- GatedRun.ActiveStaysInside: takes it that a name that is no symlink resolves below its parent (`World.Coherent`). Opening the root and the check for symlinks happen at one moment; a link that is swapped in between is not modelled.
- Symlink resolution is a given function on paths (`canonicalPath` and its loop are not modelled); it does not change during a tick, and neither do the directories.
- Creating parent directories, pruning empty ones, temporary files and file modes.
- HTTP, proxies, signatures, key files and the manifest fetcher (`manifest.go`, `proxy.go`).
- Template execution: a rendered heartbeat is any text that passes the delimiter check.
- JSON text: parsing, printing, number formats and the two decoders the program uses share one codec.
- The limit on line length of the scanner that reads a gated marker, which a marker of at most 4096 bytes cannot reach.
- In the shell reference: NUL bytes and the newlines command substitution drops, which a description cannot contain.
- Notes, hashes and error texts of report rows, `Counts`, logging, the ticker and the settings file (the mode is an input).
