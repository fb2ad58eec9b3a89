# Verified models of BitBake's stateful core and of some in-place tools

This project models, in Dafny, code from the OpenBMC tree whose correctness depends on state that several functions share, and proves what that code is for.

| files | what they model |
|---|---|
| `WatchTable.dfy`, `Paths.dfy`, `WatchRuns.dfy`, `WatchSteps.dfy`, `WatchClock.dfy`, `WatchExample.dfy`, `WatchMishaps.dfy` | pyinotify's table of watches, kept in step with a file system that is only seen through queued events; whole runs, what a minute of memory means for them, and some that go wrong |
| `AutoAdd.dfy` | recursive auto-add: create events that queue simulated create events |
| `InotifyBuffer.dfy`, `PrintedEvents.dfy`, `Coalescing.dfy` | the decoder of the kernel's event buffer; events as they are printed, and coalescing by that |
| `CowDict.dfy`, `CowViews.dfy`, `CowWrites.dfy`, `CowRuns.dfy` | copy-on-write dictionaries: layers on a heap, what each layer shows, and runs of operations against overlays |
| `BackRefCodec.dfy` | the back-reference codec for signature data between processes |
| `MergeProtocol.dfy` | the cache that many processes save to and one merges, under shared and exclusive locks |
| `CacheClients.dfy` | the code parser's cache and the checksum cache, which rely on it |
| `VirtualNames.dfy` | printer and parser of virtual recipe file names |
| `RecipeCache.dfy` | the recipe cache, saved in one file per class and loaded again |
| `ChecksumLists.dfy`, `RecipeValidity.dfy` | which cached recipes are still good: checked and clean names, times, existence flags |
| `TasksBetween.dfy` | the tasks between two tasks: a backtracking search over one shared chain |
| `FifoFraming.dfy` | messages framed by NULs, fed in arbitrary chunks |
| `DeepMerge.dfy` | the deep merge of YAML settings, in place |
| `Patching.dfy`, `SolidPrefixes.dfy`, `Relocation.dfy`, `RelocatedTexts.dfy`, `Overruns.dfy`, `ElfLayout.dfy`, `SampleElf.dfy`, `WideSample.dfy` | the SDK relocator: substitution, path sections, a moving file cursor, texts that fit and texts that do not, ELF headers as they are laid out, and two concrete files |
| `SstatePruning.dfy` | pruning the shared state cache in two passes |
| `Sequences.dfy` | splitting, joining, stripping and the like, as Python does them |

Code that updates state is a class or a method with loops, proved against a function of the old state; what the code is for is then proved about that function as lemmas over all inputs, runs or interleavings. `dafny verify dfyconfig.toml` checks everything.

## What the proofs found

Where a natural expectation of the code is false, lemmas say for which inputs it holds, exactly, and show an input for which it does not.

- The merge of checksum entries means to keep the newer one but tests the list of dictionaries instead of the dictionary, so the incoming entry always wins (`FileChecksums.OlderReplacesNewer`, `FileChecksums.NewestWinsExactly`). Entries stay sound all the same.
- A mutable value set where any layer has a plain attribute of that key stays hidden (`CowViews.HiddenMutable`, `CowViews.ExecShowsExactly`), and reverting a key that the layer holds in both forms can bring its own hidden value to light instead of the base's (`CowRuns.HiddenComesBack`, `CowRuns.RevertExactly`).
- A watch added by a create event goes to whatever has the path by then. If the directory on the path was renamed away and replaced meanwhile, the move still queued takes the new watch along to a path that is not its own (`ReplacedDirectories.ReplacedDirectory`). If a directory that was watched already was moved to the path, its watch is renewed there, and its own move event marks that right path unknown (`WatchMishaps.RenewedWatch`). `WatchTableRuns.TakeOnCourse` says exactly when all goes well.
- A clean-up that falls between the two halves of a move more than a minute after the first makes the moved watch wrong (`WatchClock.SplitMoveExactly`).
- Coalescing compares events as they are printed: an event without a name and one named by two apostrophes count as one (`InotifyBuffer.TwinDropped`, `InotifyBuffer.CoalescedExactly`). It also drops the second of two moves of one directory, which leaves its watch at the first destination (`WatchMishaps.RepeatedMove`, `WatchTableRuns.ReadOnCourse`).
- A rename leaves the watch table wrong when a moved directory has watched descendants and it, or one of the two parents, is not watched, unless it was moved from an unwatched into an auto-adding directory and the walk over it repairs its watches (`WatchMishaps.UntrackedRename`, `WatchTableRuns.MoveAgreesExactly`). The walk does not help a directory that is watched itself: its own move event marks it unknown right after (`WatchTableRuns.MovedInSelf`).
- The relocator raises an exception when `.sysdirs` comes without `.sysdirslen`, because the name it initializes is spelled differently (`Overruns.RaisedExactly`, `SampleElf.RaisedWithoutLengths`). It notices a directory list that outgrows its section only at the end of the file (`Overruns.OverrunExactly`); elsewhere it reports success over a byte that belongs to nobody (`SampleElf.DoneButOverrun`).
- A prefix that contains the placeholder grows with every run (`Patching.PrefixWithPlaceholderGrows`, `SolidPrefixes.AlwaysTwiceExactly`).
- An answer of the code parser's cache comes without the executed variables that parsing would have found (`CodeParser.CachedLacksExecs`, `CodeParser.CodeParserCache.ParsePython`).
- Pruning by stamps together with orphans can leave orphans, unlike pruning of duplicates (`SstatePruning.StampsLeaveOrphans`, `SstatePruning.StampsExactly`).
- A message on the FIFO that raises an exception stays in the buffer and raises again (`FifoFraming.RaisesAgain`, `FifoFraming.DrainSplits`).
- A list of checksum files is not cut into its items when a name holds a flag followed by a space (`ChecksumLists.SplitName`, `ChecksumLists.ListDecodesExactly`).
- A virtual name does not decode when a file name looks like one of its prefixes (`VirtualNames.MistakenFile`, `VirtualNames.RoundTripExactly`), and a variant with an empty multiconfig is not the name that printing gives (`VirtualNames.EmptyMulticonfig`, `VirtualNames.VariantAgreesExactly`).
- An array of infos that lacks a class comes back short, and its recipe is then rejected (`RecipeStore.ShortExactly`, `RecipeValidity.ShortIsNotFresh`).

## Model

| member | source | states |
|---|---|---|
| WatchTableRuns.RunAgrees | poky/bitbake/lib/pyinotify.py:658-798 | renames, creations, deletions, the reading and handling of events with the watches they add, coalescing and clean-ups, in any order: if moves are tracked, no event that coalescing drops changes a path, clean-ups drop no record still needed, and added watches stay where they are and disturb no other, then whenever nothing is queued every watch stores the path its inode has in the tree of that moment |
| WatchTableRuns.RunOnCourse | poky/bitbake/lib/pyinotify.py:658-798 | at every moment of such a run, the table that the queued events are going to leave agrees with the tree as it is now |
| WatchTableRuns.TakeOnCourse | poky/bitbake/lib/pyinotify.py:670-756 | handling the next event keeps this if and only if what is still queued leaves the watches just added at their paths, and the other watches go where they would have gone |
| WatchTableRuns.AddsExactly | poky/bitbake/lib/pyinotify.py:681-687 | watches added or renewed late, at the paths that lead to their inodes now, leave a right table if and only if nothing queued moves those paths and the watches not added go where they would have gone |
| WatchTableRuns.OthersGo | poky/bitbake/lib/pyinotify.py:681-687 | the other watches do go there when no event queued is of a watch that changed its path |
| WatchTableRuns.ReadOnCourse | poky/bitbake/lib/pyinotify.py:1225-1242 | reading events keeps the table on course if and only if what coalescing drops changes no path |
| WatchTableRuns.IdleReads | poky/bitbake/lib/pyinotify.py:1225-1242 | coalescing does no harm as long as every event dropped does nothing at its turn, as creations, events without effect and the end of a watch already gone |
| WatchTableRuns.CleanOnCourse | poky/bitbake/lib/pyinotify.py:658-668 | a clean-up keeps the table on course if and only if no path depends on what it drops |
| WatchTableRuns.NotTakenStays | poky/bitbake/lib/pyinotify.py:770-786 | an added watch stays where it is when no MOVE_SELF in the queue is of a directory on its path when its turn comes |
| WatchTableRuns.QuietAdds | poky/bitbake/lib/pyinotify.py:670-716 | while no move is queued, no watch added by an event goes wrong |
| WatchTableRuns.CleanInTime | poky/bitbake/lib/pyinotify.py:658-668 | a clean-up changes no outcome when no second half of a move is queued, or no record is older than a minute |
| WatchClock.RecordedNow | poky/bitbake/lib/pyinotify.py:718-744 | each half of a move is recorded with the clock reading of its event, and all other records stay as they are |
| WatchClock.KeptExactly | poky/bitbake/lib/pyinotify.py:658-668 | a clean-up keeps a record, as it is, if and only if it is at most sixty seconds old, and changes no watch |
| WatchClock.CleanByClock | poky/bitbake/lib/pyinotify.py:658-668 | over a run that starts without records: a clean-up does no harm if it comes within sixty seconds, by the clock readings of the run, of the handling of every MOVED_FROM whose MOVED_TO is still queued and of every MOVED_TO that a queued MOVE_SELF will ask for |
| WatchClock.SplitMoveExactly | poky/bitbake/lib/pyinotify.py:658-798 | a clean-up between the halves of a tracked move: the table is right in the end if and only if it came within sixty seconds of the first half |
| WatchSteps.CreateAddsExactly | poky/bitbake/lib/pyinotify.py:677-687 | an event of a directory made adds watches if and only if the watch on its parent has auto-add and a filter that lets its path pass |
| WatchSteps.MovedToAddsExactly | poky/bitbake/lib/pyinotify.py:745-755 | so does an event of a directory moved in, if its cookie is not known |
| WatchSteps.FlagsKept | poky/bitbake/lib/pyinotify.py:681-687 | watches added inherit filter and auto-add, and all others keep theirs |
| WatchSteps.QueuedExactly | poky/bitbake/lib/pyinotify.py:693-712 | the entries of a new directory are queued if and only if it got a descriptor |
| WatchSteps.DrainedIsRun | poky/bitbake/lib/pyinotify.py:1244-1271 | draining the queue is a run of single steps, with what is queued meanwhile handled last |
| WatchSteps.ProcessedOnCourse | poky/bitbake/lib/pyinotify.py:1244-1271 | so the whole processing of events keeps the table on course |
| ReplacedDirectories.ReplacedDirectory | poky/bitbake/lib/pyinotify.py:681-691 | a run that goes wrong: a directory is made, its parent renamed and replaced before the create event is handled; the watch is added to the directory that now has the path, and nothing queued makes its path true |
| ReplacedDirectories.SmoothSoFar | poky/bitbake/lib/pyinotify.py:681-691 | up to that event the run is legal, every move in it tracked |
| ReplacedDirectories.FollowsTheOther | poky/bitbake/lib/pyinotify.py:770-786 | the MOVE_SELF still queued takes the new watch to the path of the directory that was made |
| WatchMishaps.RenewedWatch | poky/bitbake/lib/pyinotify.py:670-797 | another run that goes wrong, every move tracked: a directory is made and removed, a watched one is moved to its place, and then the create event renews its watch at the new path, which MOVE_SELF marks unknown |
| WatchMishaps.RepeatedMove | poky/bitbake/lib/pyinotify.py:1225-1242 | with coalescing, a directory moved twice in one batch stays at the first destination, its second MOVE_SELF being dropped |
| WatchMishaps.UntrackedRename | poky/bitbake/lib/pyinotify.py:787-797 | a directory that is watched while its parent is not has a wrong path after a rename |
| WatchTableRuns.FromRecorded | poky/bitbake/lib/pyinotify.py:718-726 | MOVED_FROM puts the true path of the moved inode on record, and changes nothing where the parent is not watched |
| WatchTableRuns.ToRecorded | poky/bitbake/lib/pyinotify.py:728-744 | MOVED_TO in a watched directory records the true new path under the source path, if its cookie is known |
| WatchTableRuns.MoveAgreesExactly | poky/bitbake/lib/pyinotify.py:718-798 | one rename, its events handled at once, keeps table and tree in agreement if and only if it was tracked (a watch inside the moved subtree implies watches on the moved inode and on both parents), or was a move from an unwatched into an auto-adding directory, not watched itself, in which only directories that the filter lets pass are watched |
| WatchTableRuns.MovedInExactly | poky/bitbake/lib/pyinotify.py:745-755 | the second case alone: the walk over the moved directory repairs everything inside, unless it has a watch itself or one that is not on a directory the filter lets pass |
| WatchTableRuns.RenewedExactly | poky/bitbake/lib/pyinotify.py:745-755 | the walk renews a watch inside exactly if it is on a directory that the filter lets pass |
| WatchTableRuns.MovedInSelf | poky/bitbake/lib/pyinotify.py:787-797 | a directory moved in that is watched itself is marked unknown although the walk has just found its path |
| WatchTableRuns.MoveSelfRebases | poky/bitbake/lib/pyinotify.py:770-786 | with its record at hand MOVE_SELF gives the moved watch and every watch below it its new true path, and leaves all other watches alone |
| WatchTableRuns.MoveAgrees | poky/bitbake/lib/pyinotify.py:718-798 | a tracked rename with the events it sends keeps the agreement |
| WatchTableRuns.OtherAgrees | poky/bitbake/lib/pyinotify.py:807-816 | a creation or a deletion with the event it sends keeps the agreement of the watches that are there, the descriptor of a deleted inode being dropped |
| WatchTableRuns.UnknownPathWrong | poky/bitbake/lib/pyinotify.py:787-797 | without a move record the moved watch is left with a path that is not its own |
| WatchTableRuns.UnwatchedMove | poky/bitbake/lib/pyinotify.py:718-798 | a move of a subtree without watches changes no true path of a watched inode |
| Paths.BelowExactly | poky/bitbake/lib/pyinotify.py:776-784 | the prefix test with the separator appended holds exactly for proper descendants, so /ab is not below /a |
| Paths.RebasedPath | poky/bitbake/lib/pyinotify.py:783-786 | cutting the old prefix off and joining the rest to the destination is the path below the destination |
| Paths.PathStrInjective | poky/bitbake/lib/pyinotify.py:770-772 | two stored paths are equal only if all their components are |
| Paths.NormPathStored | poky/bitbake/lib/pyinotify.py:723-726 | normalizing a path that is stored changes nothing |
| Paths.ChildPath | poky/bitbake/lib/pyinotify.py:723-726 | joining a name to a directory and normalizing is the path of the child |
| Paths.NormPathResolves | poky/bitbake/lib/pyinotify.py:723-726 | a slash or a dot at the end is dropped, and two dots take the last name along |
| WatchTable.SysProcessEvent.AddWatches | poky/bitbake/lib/pyinotify.py:746-755 | the loop over the found directories has the effect of adding them one after another |
| WatchTable.SysProcessEvent.ProcessMoveSelf | poky/bitbake/lib/pyinotify.py:758-798 | the loop over all watches rebases each by the prefix rule, in any order of iteration |
| WatchTable.SysProcessEvent.ProcessEvents | poky/bitbake/lib/pyinotify.py:1244-1271 | drains the queue, with the create events that handling queues, and cleans up: the table becomes what these steps, each with its clock reading and the answers of the system, make of it |
| AutoAdd.Notifier.ProcessEvents | poky/bitbake/lib/pyinotify.py:1244-1271 | draining ends with an empty queue although events queue more events, every auto-adding watch is served, old watches stay and every new one is justified |
| AutoAdd.Complete | poky/bitbake/lib/pyinotify.py:670-716 | when the queue is empty every directory reached from a watched one through directories that are not excluded is watched |
| AutoAdd.Sound | poky/bitbake/lib/pyinotify.py:670-716 | every watch lies below one of the old watches, with nothing excluded on the way |
| AutoAdd.Dropped | poky/bitbake/lib/pyinotify.py:670-716 | an event that adds no watch can be dropped, and dropping it lowers the total of the announced subtrees |
| AutoAdd.AddedWeight | poky/bitbake/lib/pyinotify.py:670-716 | once the new watch is there, the total is that of the rest of the queue and of the announced subtree |
| AutoAdd.StaysUniform | poky/bitbake/lib/pyinotify.py:682-687 | new watches inherit the filter and the auto-add flag |
| AutoAdd.JustifiedTransitive | poky/bitbake/lib/pyinotify.py:670-716 | justification of new watches composes over steps |
| AutoAdd.Notifier.ProcessCreate | poky/bitbake/lib/pyinotify.py:670-716 | one create event: the new directory is watched and its entries are queued behind everything else, or nothing changes at all; the total weight falls, and what was served or queued stays so |
| AutoAdd.Notifier.WatchCreated | poky/bitbake/lib/pyinotify.py:681-716 | the new directory is watched and what it lists is queued, each listed directory being then served |
| AutoAdd.Notifier.ListDir | poky/bitbake/lib/pyinotify.py:694-716 | queues exactly the entries announced, behind what was there; every listed directory is then watched or queued, and the total grows by no more than the entries weigh |
| AutoAdd.AnnouncedExactly | poky/bitbake/lib/pyinotify.py:697-712 | announced are exactly the files and directories listed whose paths are not watched yet, each with its kind |
| AutoAdd.Notifier.AddWatch | poky/bitbake/lib/pyinotify.py:1813-1893 | returns the descriptor the path has or a new one, or an error for a path that leads nowhere |
| AutoAdd.Notifier.GetWd | poky/bitbake/lib/pyinotify.py:2015-2029 | finds a descriptor exactly if the normalized path is watched |
| InotifyBuffer.TakeAllEncoded | poky/bitbake/lib/pyinotify.py:1211-1242 | decoding inverts encoding, with nothing left over |
| InotifyBuffer.BufferRoundTrip | poky/bitbake/lib/pyinotify.py:1211-1242 | a buffer written as headers and padded names is consumed exactly and gives back the events in order |
| InotifyBuffer.EncodeAllTaken | poky/bitbake/lib/pyinotify.py:1211-1242 | what was decoded, written again, is the part of the buffer consumed, so that only encodings of events decode without a rest |
| InotifyBuffer.SampleRecord | poky/bitbake/lib/pyinotify.py:1218-1232 | two records given byte for byte, one with the descriptor -1 |
| Coalescing.FirstOnlyMembers | poky/bitbake/lib/pyinotify.py:1138-1167 | what coalescing enqueues are events met, whose printed forms are exactly those not seen since the last drain, none twice |
| Coalescing.FirstOnlyOrder | poky/bitbake/lib/pyinotify.py:1138-1167 | they are enqueued in the order of their first occurrences |
| Coalescing.FirstOnlyConcat | poky/bitbake/lib/pyinotify.py:1138-1167 | two reads before a drain enqueue what one read of both buffers would |
| PrintedEvents.PrintedExactly | poky/bitbake/lib/pyinotify.py:455-482 | two events are printed alike if and only if they are equal, or differ only in that one has no name and the other the name of two apostrophes, whatever spaces and labels names hold |
| InotifyBuffer.CoalescedExactly | poky/bitbake/lib/pyinotify.py:1138-1167 | every event of a batch is enqueued, or an equal one, if and only if no event without a name has a twin in the batch named by two apostrophes |
| InotifyBuffer.TwinDropped | poky/bitbake/lib/pyinotify.py:455-482 | a change of attributes of a watched directory and one of a directory in it named by two apostrophes: the second is dropped |
| InotifyBuffer.Notifier.ReadEvents | poky/bitbake/lib/pyinotify.py:1201-1242 | the moving offset consumes every record, or stops at one that cannot be decoded; the queue gains the decoded events, coalesced by their printed forms if that is on |
| InotifyBuffer.Notifier.ReadRecord | poky/bitbake/lib/pyinotify.py:1218-1232 | the record at the offset and the offset behind it, or none if it is cut short or its name does not decode |
| CowRuns.RunShows | poky/bitbake/lib/bb/COW.py:45-113 | an allowed run of writes, deletions, reverts and reads does to a layer what it does to an overlay over the view of its base; the layer shows what the overlay shows |
| CowRuns.RunIsolated | poky/bitbake/lib/bb/COW.py:45-113 | whatever run is done on a layer, reverts included, allowed or not, no ancestor, sibling or other key looks different |
| CowRuns.Snapshot | poky/bitbake/lib/bb/COW.py:45-113 | a copy shows the overlay that the run makes over the view its base had when it was copied, and everything older keeps its view |
| CowRuns.ExecSim | poky/bitbake/lib/bb/COW.py:54-113 | one operation at any depth is the same operation on the overlay |
| CowRuns.RevertedKey | poky/bitbake/lib/bb/COW.py:110-113 | a revert on the overlay brings back what the base shows for the key and leaves the other keys |
| CowRuns.RevertExactly | poky/bitbake/lib/bb/COW.py:110-113 | a revert on the layer brings back the value of the base if and only if the key was not held in both forms, or the base has it as a plain attribute; else the own mutable value comes to light |
| CowRuns.HiddenComesBack | poky/bitbake/lib/bb/COW.py:110-113 | a mutable value set, and a plain one over it: a revert gives back the mutable value although the base has nothing |
| CowRuns.OverIsPlain | poky/bitbake/lib/bb/COW.py:54-108 | but for reverts an overlay is a plain nested map: every operation shows as the same operation on the map shown |
| CowWrites.WriteReads | poky/bitbake/lib/bb/COW.py:54-113 | a value set is read back, a key deleted is read as missing, and a revert fails if and only if the layer has no form of the key |
| CowWrites.BoxAndLayerRead | poky/bitbake/lib/bb/COW.py:54-105 | a mutable value set where no plain attribute hides it is read back, new and as it was given |
| CowWrites.BoxOverwritten | poky/bitbake/lib/bb/COW.py:54-105 | changing a mutable value changes its content and nothing else |
| CowWrites.WrongKind | poky/bitbake/lib/bb/COW.py:54-113 | what does not fit the kind of object changes nothing and says so |
| CowWrites.WayEnds | poky/bitbake/lib/bb/COW.py:61-105 | a way through keys that leads to no mutable value ends there, and nothing is written |
| CowWrites.BoxEndsWay | poky/bitbake/lib/bb/COW.py:61-105 | nothing lies below a value that is no dictionary |
| CowWrites.TreeWrites | poky/bitbake/lib/bb/COW.py:54-105 | in the nested map shown, a key set at any path is read back there, and every other path finds what it found |
| CowWrites.TreeDeletes | poky/bitbake/lib/bb/COW.py:107-108 | a key deleted at any path is gone from there, and every other path finds what it found |
| CowViews.StartLabelled | poky/bitbake/lib/bb/COW.py:194-195 | the heap with the root layer alone satisfies what the other lemmas ask |
| CowViews.ExecShowsExactly | poky/bitbake/lib/bb/COW.py:54-113 | reading down some keys and then writing shows as the same write to a plain nested map if and only if no mutable value is put where a plain attribute hides it |
| CowViews.ApplyShows | poky/bitbake/lib/bb/COW.py:54-108 | one write shows as the write to a plain map if and only if it is not a mutable value under a key that shows a plain one |
| CowViews.GetTransparent | poky/bitbake/lib/bb/COW.py:61-105 | reading, although it may copy a mutable value into the layer, changes no view of anything |
| CowViews.CowView | poky/bitbake/lib/bb/COW.py:45-52 | a fresh copy looks like its base and making it changes no view |
| CowViews.HiddenMutable | poky/bitbake/lib/bb/COW.py:54-105 | a dictionary set over a string is lost: the key goes on showing the string |
| CowViews.ConfinedInvisible | poky/bitbake/lib/bb/COW.py:61-81 | changes confined to a place in the layering are invisible to everything apart from that place |
| CowViews.CopyView | poky/bitbake/lib/bb/COW.py:61-81 | the copy that a read makes looks like the value it copies |
| CowDict.CowStore.GetMutableItem | poky/bitbake/lib/bb/COW.py:61-81 | returns the own mutable value, or puts a copy of the inherited one in place |
| CowDict.CowStore.Get | poky/bitbake/lib/bb/COW.py:89-105 | the value a key stands for through all layers, or the KeyError |
| CowDict.CowStore.HasKey | poky/bitbake/lib/bb/COW.py:118-122 | true exactly if some layer gives the key a value that is not deleted |
| CodecRuns.RunFaithful | poky/bitbake/lib/bb/cache.py:281-338 | in every interleaving of processes that send, reset at record boundaries and are received in order, no restore fails and what was restored is exactly what was saved first |
| CodecRuns.AllArrived | poky/bitbake/lib/bb/cache.py:281-338 | once nothing is on the way, everything saved has been restored |
| BackRefCodec.RoundTrip | poky/bitbake/lib/bb/cache.py:289-326 | with tables in step, restoring what was saved gives the dictionary back, missing entries and empty input included, and leaves the tables in step |
| BackRefCodec.RestoreFailsExactly | poky/bitbake/lib/bb/cache.py:306-326 | a restore fails exactly at a back reference that neither the table nor an earlier item of the message knows |
| BackRefCodec.SentInFullOnce | poky/bitbake/lib/bb/cache.py:289-304 | between resets the values sent in full are exactly those that occur in the dictionaries saved, each sent once |
| BackRefCodec.FullsAreNew | poky/bitbake/lib/bb/cache.py:289-304 | a value goes out in full exactly when it was not saved since the reset |
| BackRefCodec.NumberedInOrder | poky/bitbake/lib/bb/cache.py:289-304 | full values are numbered one after the other |
| BackRefCodec.PutKeyExactly | poky/bitbake/lib/bb/cache.py:306-326 | putting a key into the dictionary restored gives it the value and leaves all other keys, and the order |
| BackRefCodec.SiggenStream.SaveDict | poky/bitbake/lib/bb/cache.py:289-304 | the loop over the keys emits the message of the specification and updates the table |
| BackRefCodec.SiggenStream.RestoreDict | poky/bitbake/lib/bb/cache.py:306-326 | the loop over the items restores the dictionary, or stops at the first unknown reference with the table that the items before it make |
| MergeProtocol.NothingLost | poky/bitbake/lib/bb/cache.py:860-927 | in every interleaving of savers and one merger, every key in the log of what was written is in a pending file or in the merged cache whenever no merge is under way |
| MergeProtocol.MergeComplete | poky/bitbake/lib/bb/cache.py:894-927 | when a merge ends every key in the log is in the merged file and no extras file is left |
| MergeProtocol.StartExactly | poky/bitbake/lib/bb/cache.py:860-866 | a process that calls to save sets out if and only if any of its tables has an entry, and then with all of them |
| MergeProtocol.StartedIsSaved | poky/bitbake/lib/bb/cache.py:860-886 | whoever set out to save and has come back has written what it set out with, whatever others do meanwhile |
| MergeProtocol.NothingStartedLost | poky/bitbake/lib/bb/cache.py:860-927 | every key that a process called to save is, once it has come back, in a pending file or in the merged cache, whenever no merge is under way |
| MergeProtocol.StartedIsMerged | poky/bitbake/lib/bb/cache.py:860-927 | and when a merge ends it is in the merged cache |
| MergeProtocol.NeverOverwritten | poky/bitbake/lib/bb/cache.py:866-884 | no step but the removal by the merger changes a finished extras file |
| MergeProtocol.NoHalfWrittenMerged | poky/bitbake/lib/bb/cache.py:894-927 | while the merger holds the exclusive lock no saver is writing |
| MergeProtocol.ProbesBounded | poky/bitbake/lib/bb/cache.py:868-878 | a search for a free number has at no time tried more numbers than there are files and active savers |
| MergeProtocol.SearchBounded | poky/bitbake/lib/bb/cache.py:868-878 | over any run a search has tried no more numbers than there are, at the start of the run, files, active savers and savers that may still make a file, and two for every saver that starts meanwhile |
| MergeProtocol.SearchEnds | poky/bitbake/lib/bb/cache.py:868-878 | every search ends: before it saves again a process calls for a lock no more often than that and once more |
| MergeProtocol.StepCrowd | poky/bitbake/lib/bb/cache.py:868-884 | only a process that starts to save makes the bound larger |
| MergeProtocol.RunInv | poky/bitbake/lib/bb/cache.py:860-927 | the locks, the files in the making and the conservation of keys are kept over whole runs |
| MergeProtocol.InitInv | poky/bitbake/lib/bb/cache.py:815-858 | they hold at the start |
| MergeProtocol.FirstValueStays | poky/bitbake/lib/bb/cache.py:888-892 | in the base class a key that has a value keeps it through any run |
| MergeProtocol.RunSound | poky/bitbake/lib/bb/cache.py:860-927 | if only sound entries are saved, the cache only ever holds sound entries, under either way of merging |
| MergeData.MergeKeeps | poky/bitbake/lib/bb/cache.py:888-892 | merging gives exactly the union of the keys, and the base class changes no value |
| MergeData.ListedValue | poky/bitbake/lib/bb/cache.py:888-927 | after merging the files listed, the base class has the value that was there or else that of the first file with the key, the classes that overwrite that of the last |
| MergeData.MultiProcessCache.MergeDict | poky/bitbake/lib/bb/cache.py:888-892 | the key-by-key loop is the merge of the specification |
| MergeData.MultiProcessCache.SaveMerge | poky/bitbake/lib/bb/cache.py:894-927 | the loop over the listed files merges the readable ones of the current version and skips the others |
| MergeData.FindNumber | poky/bitbake/lib/bb/cache.py:868-878 | with locks and files as they are, the smallest number from the process id on that is neither locked nor in use |
| CodeParser.LoadedIsUncached | poky/bitbake/lib/bb/codeparser.py:169-220 | after any interleaving of savers and merges a loaded entry is what parsing its key would give |
| CodeParser.MergeOrderIrrelevant | poky/bitbake/lib/bb/codeparser.py:169-220 | files merged in any order, and any of them repeatedly, give the same cache |
| CodeParser.CodeParserCache.ParsePython | poky/bitbake/lib/bb/codeparser.py:351-399 | a fresh parser returns the uncached information, from whichever cache it comes, and the caches stay sound; the whole answer is the uncached one if and only if the key was in no cache or parsing it finds no executed variables, which a cached answer does not restore |
| CodeParser.CachedLacksExecs | poky/bitbake/lib/bb/codeparser.py:351-399 | a piece of code that executes a variable: the answer from a cache lacks it |
| CodeParser.KeyDecides | poky/bitbake/lib/bb/codeparser.py:352-358 | a hash that is given decides alone; without one, different code has different keys as far as hashes do not collide |
| CodeParser.BlankExactly | poky/bitbake/lib/bb/codeparser.py:352-353 | code counts as empty if and only if it has no character but white space |
| CodeParser.CodeParserCache.ParseShell | poky/bitbake/lib/bb/codeparser.py:417-440 | a fresh shell parser returns the uncached commands, and the caches stay sound |
| CodeParser.CodeParserCache.NewPythonCacheLine | poky/bitbake/lib/bb/codeparser.py:189-195 | an interned line equals the line asked for |
| FileChecksums.FileChecksumCache.GetChecksum | poky/bitbake/lib/bb/checksum.py:55-68 | returns the hash of the current content wherever the entry comes from, or none for a missing file; the entry is in the merged cache or will be saved, and no other entry changes |
| FileChecksums.LoadedIsSound | poky/bitbake/lib/bb/checksum.py:47-78 | whichever entries merges keep, a loaded entry is the hash of that file at that time |
| FileChecksums.NewestWinsExactly | poky/bitbake/lib/bb/checksum.py:70-78 | merging keeps the newest entry if and only if the source is never older where the entries differ |
| FileChecksums.OlderReplacesNewer | poky/bitbake/lib/bb/checksum.py:70-78 | an older entry replaces a newer one: the guard looks into the list of dictionaries, not into the dictionary |
| TasksBetween.TasksBetween | poky/bitbake/lib/bb/build.py:1003-1030 | fails exactly if a walk from the start meets a task twice, and otherwise returns without repeats exactly the tasks on walks from start to end |
| TasksBetween.OnWalkIsOnPath | poky/bitbake/lib/bb/build.py:1003-1030 | on an acyclic graph these are exactly the tasks on some dependency path from start to end |
| TasksBetween.ErrorMeansCycle | poky/bitbake/lib/bb/build.py:1014-1015 | the circular error is raised only over a real cycle |
| TasksBetween.CycleIsFound | poky/bitbake/lib/bb/build.py:1014-1015 | a cycle that the start reaches before the end is always found |
| TasksBetween.Search.FollowChain | poky/bitbake/lib/bb/build.py:1011-1028 | the recursion ends because the shared chain never repeats, restores the chain, and adds exactly the tasks on arriving walks |
| TasksBetween.Search.CopyChain | poky/bitbake/lib/bb/build.py:1020-1023 | appends what is on the chain and not yet in the result, in order |
| FifoFraming.ChunkingIrrelevant | poky/bitbake/lib/bb/build.py:480-518 | for every way of cutting the stream, the calls and the rest in the buffer are those of the uncut stream |
| FifoFraming.DrainSplits | poky/bitbake/lib/bb/build.py:480-518 | the calls are those of the messages between NULs up to the first that raises, and what stays is the stream from there on; if none raises, the bytes after the last NUL |
| FifoFraming.MessageCalls | poky/bitbake/lib/bb/build.py:490-516 | which call a name and a text make, for every name, known or not |
| FifoFraming.DebugCalls | poky/bitbake/lib/bb/build.py:509-513 | a debug message makes a call with its level and the rest, or raises an exception if the level is no number |
| FifoFraming.BareCalls | poky/meta/classes-global/logging.bbclass:81-104 | a name alone makes a call without text; a debug message without text raises an exception |
| FifoFraming.RaisesAgain | poky/bitbake/lib/bb/build.py:480-518 | a message that is not UTF-8 stays in the buffer, whatever comes after it |
| FifoFraming.DrainMore | poky/bitbake/lib/bb/build.py:480-518 | going on with the rest of a first part is working through the whole |
| FifoFraming.FifoReader.ReadFifo | poky/bitbake/lib/bb/build.py:480-518 | one chunk: calls and buffer become those of the buffered bytes and the chunk together; an exception leaves the message in the buffer |
| DeepMerge.MergeAssociative | meta-phosphor/recipes-phosphor/ipmi/phosphor-ipmi-host/merge_yamls.py:20-62 | merging overrides one after another is merging once with the overrides merged among themselves |
| DeepMerge.MergeAllAtOnce | meta-phosphor/recipes-phosphor/ipmi/phosphor-ipmi-host/merge_yamls.py:58-62 | any number of override files can be merged among themselves first |
| DeepMerge.MergeTwice | meta-phosphor/recipes-phosphor/ipmi/phosphor-ipmi-host/merge_yamls.py:20-42 | merging the same override twice is merging it once |
| DeepMerge.MergeLookup | meta-phosphor/recipes-phosphor/ipmi/phosphor-ipmi-host/merge_yamls.py:35-42 | what any path finds after merging: the override decides where the two trees part, except that nothing but a dictionary replaces a dictionary; where both have a dictionary at the end of the path, there is one with the keys of both |
| DeepMerge.OverrideWins | meta-phosphor/recipes-phosphor/ipmi/phosphor-ipmi-host/merge_yamls.py:35-42 | every value of the override that is no dictionary is found at its path afterwards, unless the target has a dictionary there |
| DeepMerge.LastOverrideWins | meta-phosphor/recipes-phosphor/ipmi/phosphor-ipmi-host/merge_yamls.py:58-62 | of several overrides the last decides |
| DeepMerge.DictsStay | meta-phosphor/recipes-phosphor/ipmi/phosphor-ipmi-host/merge_yamls.py:35-42 | every dictionary of the target stays a dictionary with all its keys |
| DeepMerge.DictMerge | meta-phosphor/recipes-phosphor/ipmi/phosphor-ipmi-host/merge_yamls.py:20-42 | the target becomes the merge in place, with every value of the override at its path unless the target has a dictionary there; the source is not written to, and nothing new in the target belongs to the source |
| DeepMerge.MergeDict | meta-phosphor/recipes-phosphor/settings/phosphor-settings-manager/merge_settings.py:33-42 | the loop over the source keys, in any order, is the merge of the two dictionaries, with every value of the source at its path unless the target has a dictionary there |
| DeepMerge.DeepCopy | meta-phosphor/recipes-phosphor/ipmi/phosphor-ipmi-host/merge_yamls.py:41-41 | a copy shares no dictionary with the original and stands for the same tree |
| DeepMerge.MergeOverrides | meta-phosphor/recipes-phosphor/ipmi/phosphor-ipmi-host/merge_yamls.py:58-62 | all override files in order; a target that is no dictionary fails at the first override with a key |
| VirtualNames.RoundTripExactly | poky/bitbake/lib/bb/cache.py:341-366 | decoding the printed name gives file, class and multiconfig back if and only if the multiconfig is free of colons and the file cannot be mistaken; classes may hold colons |
| VirtualNames.MistakenFile | poky/bitbake/lib/bb/cache.py:341-366 | a file named like a variant does not come back |
| VirtualNames.PrintInjective | poky/bitbake/lib/bb/cache.py:358-366 | two such recipes with one name are the same |
| VirtualNames.VariantAgreesExactly | poky/bitbake/lib/bb/cache.py:368-379 | the variant mc:m:c names what printing (c, m) names if and only if m is there and c does not start with a colon |
| VirtualNames.PlainVariant | poky/bitbake/lib/bb/cache.py:368-379 | a variant without a multiconfig is a class: it names what printing gives, and decoding gives it back |
| VirtualNames.NamesAre | poky/bitbake/lib/bb/cache.py:341-366 | mc:m:virtual:native:a.bb and its parts |
| VirtualNames.EmptyMulticonfig | poky/bitbake/lib/bb/cache.py:368-379 | a variant with an empty multiconfig is not the name that printing gives |
| VirtualNames.VariantNameShape | poky/bitbake/lib/bb/cache.py:368-379 | a variant name is the file itself exactly for the empty variant, and otherwise ends in a colon and the file |
| VirtualNames.VariantsDisjoint | poky/bitbake/lib/bb/cache.py:368-379 | variants of two colon-free files never share a name |
| VirtualNames.ParseShortens | poky/bitbake/lib/bb/cache.py:341-356 | a name with a multiconfig prefix is never its own file |
| RecipeStore.SaveLoadIdentityExactly | poky/bitbake/lib/bb/cache.py:465-513 | saving and loading is the identity if and only if no array is empty and every array is grouped by class in class order |
| RecipeStore.ParsedComesBack | poky/bitbake/lib/bb/cache.py:465-513 | a cache with one info per class in every array comes back as it was |
| RecipeStore.SaveLoad | poky/bitbake/lib/bb/cache.py:465-513 | any array comes back regrouped by class, and a key without any info is gone |
| RecipeStore.ShortExactly | poky/bitbake/lib/bb/cache.py:638-643 | an array with at most one info per class comes back shorter than the list of classes if and only if it lacks a class |
| RecipeStore.Store.Sync | poky/bitbake/lib/bb/cache.py:681-694 | the loops over classes, keys and infos write one file per class |
| RecipeStore.Store.LoadCachefile | poky/bitbake/lib/bb/cache.py:465-513 | the loop over the files appends every entry to its key, stops a file at the first junk, and returns 0 at a header that does not fit |
| RecipeStore.LoadStops | poky/bitbake/lib/bb/cache.py:465-513 | at the first file whose versions do not fit loading stops: what the files before it held stays, and the answer is 0 |
| RecipeStore.LoadCounts | poky/bitbake/lib/bb/cache.py:465-513 | without such a file the answer is the number of recipes |
| RecipeStore.JunkEnds | poky/bitbake/lib/bb/cache.py:486-505 | entries behind the first that is no recipe information are lost |
| RecipeStore.RestartKeepsTheCache | poky/bitbake/lib/bb/cache.py:672-697 | what one object writes another loads unchanged |
| ChecksumLists.ListDecodesExactly | poky/bitbake/lib/bb/cache.py:611-620 | a written list is cut into exactly its items if and only if no name starts with a space or holds a flag followed by one |
| ChecksumLists.SplitName | poky/bitbake/lib/bb/cache.py:611-620 | the name a:True b is cut in two |
| ChecksumLists.ItemParts | poky/bitbake/lib/bb/cache.py:621-621 | splitting an item at its last colon always gives back name and flag |
| ChecksumLists.ListPiecesFirst | poky/bitbake/lib/bb/cache.py:617-617 | each item of a list is cut as if it stood alone |
| RecipeValidity.FirstCheckExactly | poky/bitbake/lib/bb/cache.py:555-658 | the first check answers yes if and only if the recipe is cached, has its recorded time, its dependencies and existence flags hold, its appends are the same and every variant is there in full |
| RecipeValidity.FirstCheckRemoves | poky/bitbake/lib/bb/cache.py:566-658 | the first check of a cached recipe raises if and only if the first list entry that does not hold cannot be split, removes the recipe if and only if something recorded changed, touches no other entry, and leaves no variant clean when one is not there in full |
| RecipeValidity.UpdateAnswers | poky/bitbake/lib/bb/cache.py:566-658 | the answer of the check itself: yes if and only if the recipe is fresh, and then it is clean |
| RecipeValidity.ListsFirstBad | poky/bitbake/lib/bb/cache.py:611-627 | over all lists, the first entry that does not hold decides: a change if it can be split, an error if not |
| RecipeValidity.AnswerIsStable | poky/bitbake/lib/bb/cache.py:541-670 | over any later run of checks and removals of colon-free files, with files that may change, the answer stays, and a recipe that was fresh is loaded with every variant under its name, each with the infos the cache had for that name at the first check |
| RecipeValidity.RunSettled | poky/bitbake/lib/bb/cache.py:555-670 | a recipe that passed stays clean with all its variants until it is removed |
| RecipeValidity.RunUnclean | poky/bitbake/lib/bb/cache.py:555-670 | a recipe that failed its check stays unclean |
| RecipeValidity.RunInv | poky/bitbake/lib/bb/cache.py:555-670 | every clean name belongs to a checked file |
| RecipeValidity.DroppedIsGone | poky/bitbake/lib/bb/cache.py:660-670 | a removed recipe is neither clean nor loaded |
| RecipeValidity.ShortIsNotFresh | poky/bitbake/lib/bb/cache.py:635-655 | a recipe one of whose variants was saved without some class is rejected after loading |
| RecipeValidity.RecipeCache.CacheValid | poky/bitbake/lib/bb/cache.py:555-564 | checks at most once and answers from the clean set |
| RecipeValidity.RecipeCache.CacheValidUpdate | poky/bitbake/lib/bb/cache.py:566-658 | the sequence of checks with its early returns leaves cache, clean and checked names as specified |
| RecipeValidity.RecipeCache.MarkVariants | poky/bitbake/lib/bb/cache.py:634-658 | marks all variants, and takes all marks back when one variant is not there in full |
| RecipeValidity.RecipeCache.DependsUnchanged | poky/bitbake/lib/bb/cache.py:594-609 | true exactly if every dependency has the time recorded |
| RecipeValidity.RecipeCache.CompareLists | poky/bitbake/lib/bb/cache.py:611-627 | the first list that changed, or that cannot be split, decides |
| RecipeValidity.RecipeCache.LoadInfos | poky/bitbake/lib/bb/cache.py:541-553 | every variant in order under its name with the infos that the cache has for that name, or an error if and only if the recipe or a variant is missing |
| Relocation.Relocated | poky/scripts/relocate_sdk.py:100-237 | for a well-laid file: the program stops at a text that does not fit, raises when directories come without lengths, and otherwise, if directories and lengths fit, keeps the length and every byte outside the regions, each region holding its substituted and padded text |
| ElfLayout.HeaderReadBack | poky/scripts/relocate_sdk.py:80-98 | a file header of either width and byte order, whatever follows it, is read field by field |
| ElfLayout.SectionReadBack | poky/scripts/relocate_sdk.py:142-162 | so is a section header |
| ElfLayout.ProgramReadBack | poky/scripts/relocate_sdk.py:100-117 | and a program header, whose fields stand in another order in wide files |
| ElfLayout.NumOfPut | poky/scripts/relocate_sdk.py:85-98 | every number that fits is read as it was written, in both byte orders |
| ElfLayout.PutOfNum | poky/scripts/relocate_sdk.py:85-98 | any bytes are the number read from them, written |
| ElfLayout.RoleRead | poky/scripts/relocate_sdk.py:162-182 | a section of the right type with one of the four names in the table has the role of that name, and any other name has none |
| ElfLayout.NameUnended | poky/scripts/relocate_sdk.py:162-168 | a name that no zero ends loses its last byte, and behind the table names are empty |
| WideSample.Relocated64 | poky/scripts/relocate_sdk.py:276-294 | a 64-bit file of either byte order with an interpreter and a loader cache path: after the run it has the new interpreter and the new path, each padded, and every other byte is as before |
| RelocatedTexts.FirstInterpreter | poky/scripts/relocate_sdk.py:107-122 | the interpreter is the first program header of its type, and all before it are readable |
| RelocatedTexts.InterpreterExactly | poky/scripts/relocate_sdk.py:122-139 | the interpreter is rewritten if and only if the new path and a zero fit into its place; else the file stays and the failure is reported |
| RelocatedTexts.HostInterpreterStays | poky/scripts/relocate_sdk.py:125-129 | an interpreter in one of the five directories of the host stays |
| RelocatedTexts.NoOtherHost | poky/scripts/relocate_sdk.py:125-129 | any other does not count as one of the host |
| RelocatedTexts.TextFitsExactly | poky/scripts/relocate_sdk.py:184-207 | a text fits if and only if, written into its place, it has the size of the place and still ends in a zero |
| RelocatedTexts.BlockSize | poky/scripts/relocate_sdk.py:196-212 | the blocks patched one by one are of 4096 bytes |
| RelocatedTexts.OthersStay | poky/scripts/relocate_sdk.py:276-294 | files that are no ELF files or of the other width are left alone |
| Relocation.RelocatedTwice | poky/scripts/relocate_sdk.py:100-237 | a second run changes nothing and reports the same, for an absolute prefix without # and NUL |
| Relocation.SdkRelocatedTwice | poky/scripts/relocate_sdk.py:30-30 | the same for the placeholder in use |
| Relocation.RelocatedBlock | poky/scripts/relocate_sdk.py:196-212 | each 4096-byte block becomes its own text, substituted, stripped and padded with NULs |
| Relocation.BlocksWrite | poky/scripts/relocate_sdk.py:196-212 | the loop that reads on where it wrote is one patch of the section, and it fails exactly if some block does not fit |
| Relocation.LoopShows | poky/scripts/relocate_sdk.py:162-212 | the loop over the sections, which reads headers between writes, patches every section as if all were read at the start |
| Relocation.HeadersStay | poky/scripts/relocate_sdk.py:80-98 | what is written never changes a header, a table entry or a section name |
| Relocation.EndShows | poky/scripts/relocate_sdk.py:213-237 | the last list of directories and the last list of lengths are written over their sections |
| Overruns.OverrunExactly | poky/scripts/relocate_sdk.py:213-294 | for a well-laid file, fitting or not: the size check fails if and only if the new directories or their lengths reach past the end of the file, and bytes outside the regions are kept if and only if what runs over agrees with them |
| Overruns.OverrunBytes | poky/scripts/relocate_sdk.py:162-237 | the whole file, fitting or not: every other region gets its text and all other bytes are kept, and then the directories and last the lengths are written over whatever is there |
| Overruns.RaisedExactly | poky/scripts/relocate_sdk.py:213-237 | the exception is raised if and only if every section fits and directories come without lengths |
| Overruns.FittingMatches | poky/scripts/relocate_sdk.py:213-237 | texts that fit run over nothing |
| SampleElf.DoneButOverrun | poky/scripts/relocate_sdk.py:231-235 | a concrete well-laid file is reported done although a byte outside all sections was overwritten |
| SampleElf.RaisedWithoutLengths | poky/scripts/relocate_sdk.py:213-213 | the same file with one section header fewer makes the program raise its exception |
| SampleElf.SampleLaid | poky/scripts/relocate_sdk.py:80-98 | this file satisfies what the lemmas call well laid |
| Patching.PatchedText | poky/scripts/relocate_sdk.py:184-195 | a patched text holds no placeholder and patching it again changes nothing |
| Patching.NoneLeft | poky/scripts/relocate_sdk.py:30-30 | no placeholder is left after substitution, and none is made by it |
| Patching.PrefixWithPlaceholderGrows | poky/scripts/relocate_sdk.py:30-30 | without the condition on the prefix the second run does change the text |
| SolidPrefixes.AlwaysTwiceExactly | poky/scripts/relocate_sdk.py:30-30 | substituting twice is substituting once on every text if and only if the prefix is the placeholder itself, or completes no placeholder with a beginning of it on the left or an end of it on the right |
| SolidPrefixes.GoodIsSolid | poky/scripts/relocate_sdk.py:30-30 | an absolute prefix without # is such a prefix |
| Patching.TwiceExactly | poky/scripts/relocate_sdk.py:30-30 | on one text substituting twice is substituting once if and only if no placeholder is left, or the prefix is the placeholder |
| Patching.PatchedDirs | poky/scripts/relocate_sdk.py:214-231 | the directories read from a patched section are those that were written |
| Patching.PathsReadBack | poky/scripts/relocate_sdk.py:214-220 | paths written with their NULs are read back whatever NULs follow |
| Patching.WriteReadBack | poky/scripts/relocate_sdk.py:136-138 | what is written is read back, other bytes stay, and a gap behind the old end is filled with zeros |
| Patching.PathsEnd | poky/scripts/relocate_sdk.py:214-220 | the list ends at the first empty path, whatever comes after it |
| Patching.SubAllAt | poky/scripts/relocate_sdk.py:222-222 | each path is substituted by itself |
| ElfLayout.LengthReadBack | poky/scripts/relocate_sdk.py:225-228 | each length, written lowest byte first, is read back from its place |
| Patching.BlockAt | poky/scripts/relocate_sdk.py:196-212 | patching a section block by block patches each block by its own text |
| Relocation.SdkFile.PatchInterpreter | poky/scripts/relocate_sdk.py:100-140 | the first interpreter entry is overwritten unless it is of the host, empty or too short |
| Relocation.SdkFile.PatchBlocks | poky/scripts/relocate_sdk.py:196-212 | the moving cursor stays at the start of the next block |
| Relocation.SdkFile.PatchSections | poky/scripts/relocate_sdk.py:142-237 | the loop over the section headers and the end that follows it |
| Relocation.SdkFile.PatchSection | poky/scripts/relocate_sdk.py:169-212 | what one section does to the bytes and to what the loop remembers |
| Relocation.SdkFile.PatchDirs | poky/scripts/relocate_sdk.py:213-237 | both lists written back, or the exception when the lengths are missing |
| Relocation.SdkFile.NewDirs | poky/scripts/relocate_sdk.py:217-228 | the loop up to the first empty path builds the new list and its lengths |
| Relocation.SdkFile.Run | poky/scripts/relocate_sdk.py:276-294 | one file of the main loop, the comparison of sizes included |
| SstatePruning.OneNewestLeft | poky/scripts/sstate-cache-management.py:167-185 | of every signature outside populate_lic at most one file is left, and it has maximal time |
| SstatePruning.NoneLost | poky/scripts/sstate-cache-management.py:167-197 | a signature loses all its files only with an orphaned group |
| SstatePruning.ArchivesLeft | poky/scripts/sstate-cache-management.py:188-197 | every group that keeps files keeps an archive, although orphans are computed on the original files |
| SstatePruning.SecondRunRemovesNothing | poky/scripts/sstate-cache-management.py:304-332 | a second run on what is left, in any order, removes nothing |
| SstatePruning.StampsExactly | poky/scripts/sstate-cache-management.py:145-164 | pruning by stamps leaves no orphan if and only if every group with a used file, orphans aside, has a used archive |
| SstatePruning.StampsLeaveOrphans | poky/scripts/sstate-cache-management.py:308-316 | pruning by stamps can leave a group without its archive |
| SstatePruning.StampsTwice | poky/scripts/sstate-cache-management.py:308-316 | a second run by stamps clears those up and a third removes nothing |
| SstatePruning.ScanIsRight | poky/scripts/sstate-cache-management.py:167-185 | the loop keeps one newest file per signature and removes exactly the others, for any order of files |
| SstatePruning.FirstNewestKept | poky/scripts/sstate-cache-management.py:167-185 | the file kept is newer than those of its signature listed before it, and not older than those after it |
| SstatePruning.SigExactly | poky/scripts/sstate-cache-management.py:176-176 | joined fields are equal exactly if all fields are |
| SstatePruning.GroupExactly | poky/scripts/sstate-cache-management.py:192-192 | joined fields are equal exactly if all fields are |
| SstatePruning.RemoveDuplicated | poky/scripts/sstate-cache-management.py:167-185 | the list of removed files, in the order of the loop |
| SstatePruning.RemoveOrphans | poky/scripts/sstate-cache-management.py:188-197 | exactly the files whose group has no archive |
| SstatePruning.RemoveByStamps | poky/scripts/sstate-cache-management.py:145-164 | exactly the files whose hash no build uses |
| SstatePruning.Prune | poky/scripts/sstate-cache-management.py:304-316 | the union of the two passes |

## Left out

- WatchTableRuns.RunAgrees: does not speak of runs with an untracked move, a dropped event that matters, a clean-up that drops a record still needed, or an added watch that a queued move takes along; what each of these does is said by `WatchTableRuns.MoveAgreesExactly`, `WatchTableRuns.ReadOnCourse`, `WatchTableRuns.CleanOnCourse` and `WatchTableRuns.TakeOnCourse`.
- WatchTableRuns.MoveAgrees: the target of a move is free and not inside what is moved; moves over an existing target are not modelled.
- WatchTableRuns.StepOnCourse: descriptors are not used again, and a walk or an added watch takes place at one moment of the run. Events without effect on the table are not told apart by their kind, which makes coalescing drop more of them than the code does.
- WatchTableRuns.MoveAgreesExactly: sets aside stale records for the same cookie or paths and a target name ending in "-unknown-path", with any of which the table could be right by accident; in the walk only excluded directories may fail.
- AutoAdd.Complete: takes the directory tree as fixed while the queue is drained, and every system call on an existing directory as successful.
- CowRuns.Snapshot: the views are cut off at a depth, which is arbitrary; keys that clash with attributes of the metaclass, and empty tuples as values, are not modelled. Reverting a key held in both forms over a base without a plain one is no allowed step of a run; `CowRuns.RevertExactly` says what it does.
- CowDict.CowStore: the layers live on an explicit heap of objects instead of Python classes, so that what layers share can be talked about.
- CodecRuns.RunFaithful: the receiver is not reset in the middle of a stream; strings and numbers are sent as they are, without pickling.
- MergeProtocol.NothingLost: one merging process; with several, the second would start from what it read before the first wrote. Locks are atomic, and the merger does not stop between writing and removing.
- MergeData.FindNumber: takes locks and files as they are; the search while others work is `MergeProtocol.SearchEnds`, which bounds it by the number of savers that start, since without end they could keep it going.
- CodeParser.LoadedIsUncached: parsing is a function of the cache key, and hashes do not collide; the walk over shell words and syntax trees is not part of the model.
- FileChecksums.LoadedIsSound: the hash is a function of path and modification time, and files do not change during a run.
- DeepMerge.DictMerge: keys are strings, and no alias makes two places of one document the same dictionary; the remove mode, which adds keys that are missing, is not modelled.
- RecipeStore.Store.Sync: does not drop the cache afterwards, and the flag that skips an unchanged cache is left to the caller.
- RecipeValidity.AnswerIsStable: speaks of checks and removals of file names without colons, as recipe files have.
- Relocation.Relocated: says nothing of a file whose directory list or lengths outgrow their sections; `Overruns.OverrunBytes` and `Overruns.OverrunExactly` do.
- Relocation.RelocatedTwice: the prefix is taken as text, without the escapes that a backslash would start in a replacement; lengths of paths are below 2^32.
- InotifyBuffer.Notifier.ReadEvents: words are little-endian, and events are printed without colours; the read from the descriptor is a parameter.
- FifoFraming.FifoReader.ReadFifo: decoding of UTF-8 and of a debug level are parameters.
- SstatePruning.Prune: the walk over the directory, the pattern for file names and the question to the user; times are integers.
- Pickle bytes, hashing, clocks, regular expressions and system calls are parameters or atomic steps.
- Watches removed recursively: the loop deletes from the dictionary that it iterates over.
- COW sets and iteration over keys, which yields deleted keys.
- `codegen.py`, the command server, daemons, runners, report printers and argument parsing, which would add only easy members.
