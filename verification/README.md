# KMRE host services: models and proofs

KMRE runs Android in a container on a Linux desktop. On the host, several Qt services keep the two sides together.
This project models the ones with the most state and proves what they are meant to guarantee. `dafny verify
dfyconfig.toml` checks all of it.

| module | component | main question |
|---|---|---|
| `WatchIndex` | `FileInotifyWatcher` | do the two maps stay exact inverses, and does any kernel watch leak? |
| `Rename` | both handlers of a directory rename | where does the index end, in either order of events? |
| `EventCursor` | `readNextEvent` | are the kernel's records returned exactly? |
| `Traversal` | `watchAndNotifyDirectoryRecursivelyLocked` | what is registered and announced on any tree? |
| `Coverage` | the service against a world that keeps creating files | is any directory or file ever missed? |
| `Covered` | the results for single files and directories | what is watched and announced once all is quiet? |
| `Trees` | the same run, below one directory | is anything below a new or announced directory missed, at any depth? |
| `Exactness` | the same run, seen from the other side | is anything watched or announced without a reason, and can the service get stuck? |
| `NotifyQueue` | `mFileList` and `loopList` | is every queued file accounted for, and when is one submitted? |
| `LockOrder` | the four mutexes of the service | can its threads deadlock? |
| `SocketStream` | `IOStream` over `SocketStream` | are all bytes conserved under partial, interrupted and failing calls? |
| `SocketPath` | `mkpath` before bind | what stands on the disk afterwards? |
| `Recording` | session set-up of `RecordingWorker` | does the resampler always fit the recorder and the client? |
| `FileIndex` | `ControlManager::onSyncFiles` | do lists, counters and the two link trees end as announced? |
| `DesktopEntry` | `generateDesktop`, `updateAllAppNameInDesktop` | does rewriting a name equal generating with it? |
| `StorageToken` | the storage check between threads | is there always exactly one check per storage? |
| `SafeLinks` | the slots of `FileWatcher` | is anything but a link ever removed or replaced? |

`Base` and `Paths` hold shared types. Objects that the source updates in place are classes with the source's field
names; each method is tied to a function of its old state, and the properties of whole runs are proved about those
functions. The kernel, the file system, the network, the sound card and Qt appear as parameters: what they answer is
an argument, so a statement for all arguments is one for all their behaviours.

## What the proofs found

These hold of the code as it is, each with the exact condition.

- **Sizes in an `int`** (`NotifyQueue`). `NotifyFileInfo.size` truncates a 64-bit size. A file of 2^31 bytes or more
  is never submitted, and a file that shrinks by 2^32 bytes between two passes is taken for stable. A file of
  constant size is submitted at the second pass exactly when it is below 2^31 bytes.
- **Rename over a watched directory** (`Rename`). The new path ends on a live watch exactly when the index had no
  entry for it, or one with the same descriptor. Renaming over an empty watched directory leaves the moved directory
  without any watch, in either order of the events. A directory below the renamed one keeps its entry for the old path,
  and is watched under the new one exactly when it was before, or the new path was unknown and is not refused.
- **Stale entries** (`WatchIndex`). A directory deleted and made again before its event is handled keeps a dead
  entry. Whatever operations come in between, while the path names the new directory, adding it watches that directory
  exactly when the entry was removed by path, or the old descriptor's event was handled while the path was no directory.
- **Hidden names** (`Covered`). The scan skips names that start with a dot; the handler of a create event does not.
  At a quiet end, and short of a refusal, a hidden directory is watched exactly when somebody asked for it or it was
  created while its parent was watched. Below a hidden directory that a scan has met nothing is promised.
- **An early total** (`FileIndex`). After any batches the lists hold exactly the items since the last earlier reset.
  A dump forgets nothing exactly when no proper prefix that has items reaches the announced total. `filesMessage` is
  called with the whole last batch once per item of it.
- **Link trees** (`FileIndex`). The two views agree even when a package is named like a type directory.
- **Names with a newline** (`DesktopEntry`). Rewriting equals generating, for any new name, exactly when the old name has
  no newline.
- **Foreign links** (`SafeLinks`). `deleteLink` removes any symbolic link at the destination, also one that this
  service did not make; `makeLink` never changes one.
- **Links without a reason** (`SafeLinks`). `dependDirectoryUpdated` keeps a link as long as the path it depends on
  exists, also when every required directory is gone.
- **Buffer sizes in an `int`** (`SocketStream`). `alloc` has no usable chunk for a length of 2^31 or more. Without other
  failures its invariant holds afterwards exactly when the length is below 2^32, or its low 32 bits are 2^31 or more.
- **A busy socket path** (`SocketPath`). `mkpath` frees the path exactly when what stands there is not a directory
  with entries, nor a file asked for with a trailing slash, and it ignores both failures.

## Model

| member | source | states |
|---|---|---|
| WatchIndex.FileInotifyWatcher.AddWatch | filewatcher/file-inotify/file-inotify-watcher.cpp:96-120 | the multimap stays the exact inverse of the path map, each pair once, and a new pair stands before the older ones of its key; the new state is the specified add; 0 iff the path was known or the kernel accepted it |
| WatchIndex.FileInotifyWatcher.RemoveWatchPath | filewatcher/file-inotify/file-inotify-watcher.cpp:122-160 | exactly this path leaves both maps, the kernel's watch goes iff no other path has the descriptor, and the return value tells whether that call failed |
| WatchIndex.FileInotifyWatcher.EraseEntry | filewatcher/file-inotify/file-inotify-watcher.cpp:145-153 | the counted erase-while-iterating loop meets each entry of the key once and removes the one pair that the path map has lost |
| WatchIndex.FileInotifyWatcher.RemoveWatch | filewatcher/file-inotify/file-inotify-watcher.cpp:162-200 | of the descriptor's paths exactly those that are no directories leave both maps; the watch goes iff none is left; other descriptors keep theirs |
| WatchIndex.FileInotifyWatcher.DropIfUnnamed | filewatcher/file-inotify/file-inotify-watcher.cpp:155-159 | a descriptor is given back to the kernel iff no path names it any more |
| WatchIndex.FileInotifyWatcher.WatchedPathFromWd | filewatcher/file-inotify/file-inotify-watcher.cpp:202-232 | a registered path of the descriptor that is a directory now, the first such in the multimap; none iff there is no such path |
| WatchIndex.FileInotifyWatcher.Cleanup | filewatcher/file-inotify/file-inotify-watcher.cpp:72-94 | both maps end empty, and the removal loop alone already leaves the kernel without a watch |
| WatchIndex.FileInotifyWatcher.Initialize | filewatcher/file-inotify/file-inotify-watcher.cpp:56-70 | a second call changes nothing; a refused one too; otherwise a fresh instance and an empty index |
| WatchIndex.Count | filewatcher/file-inotify/file-inotify-watcher.cpp:145-146 | the entries of a key are exactly the block of `count` positions from the found one |
| WatchIndex.AddKeepsInv | filewatcher/file-inotify/file-inotify-watcher.cpp:106-119 | an add keeps every earlier entry and leaves no live watch without a path |
| WatchIndex.ApplyKeepsInv | filewatcher/file-inotify/file-inotify-watcher.cpp:72-200 | adds, both removals and the kernel's own removal keep: every live watch is named by a path |
| WatchIndex.RemovalsExact | filewatcher/file-inotify/file-inotify-watcher.cpp:122-200 | both removals, exactly: which paths go, and that no watch goes but the one descriptor's, iff no path has it any more |
| WatchIndex.InvAlways | filewatcher/file-inotify/file-inotify-watcher.cpp:72-200 | every sequence of adds, removals and kernel removals keeps each live watch named and each stored descriptor one that the kernel handed out |
| WatchIndex.NoWatchLeaks | filewatcher/file-inotify/file-inotify-watcher.cpp:96-200 | over any history each live kernel watch belongs to a registered path |
| WatchIndex.StaleEntrySurvives | filewatcher/file-inotify/file-inotify-watcher.cpp:106-109 | the converse fails: delete and recreate leaves a path without a live watch |
| WatchIndex.RecreatedWatchedIff | filewatcher/file-inotify/file-inotify-watcher.cpp:106-193 | a watched directory dies and its path comes to name another one: after any operations while it does, an add of the path watches the new one iff one of them cleared the old entry, by removing the path or by handling the old descriptor while the path was no directory |
| WatchIndex.StaleUntilCleared | filewatcher/file-inotify/file-inotify-watcher.cpp:96-200 | an entry whose watch is dead stays dead over any operations that do not clear it |
| WatchIndex.InsertKeepsInverse | filewatcher/file-inotify/file-inotify-watcher.cpp:116-117 | inserting one new pair in both maps keeps them inverse with multiplicity one |
| WatchIndex.EraseKeepsInverse | filewatcher/file-inotify/file-inotify-watcher.cpp:185-189 | erasing one entry and its path keeps them inverse with multiplicity one |
| WatchIndex.NamedIsCounted | filewatcher/file-inotify/file-inotify-watcher.cpp:155-157 | the multimap's count of a descriptor is positive iff some path is mapped to it |
| Rename.MovedToThenMoveSelf | filewatcher/file-inotify/file-inotify-service.cpp:223-242 | moved-to first, handled by the traversal of the moved tree: the watch stays live throughout; the new path ends on it iff no foreign entry was in the way, and then the kernel table is not touched by move-self |
| Rename.MoveSelfThenMovedTo | filewatcher/file-inotify/file-inotify-service.cpp:223-242 | move-self first: the old path is gone and the new path ends on a live watch under the same condition |
| Rename.EitherOrder | filewatcher/file-inotify/file-inotify-watcher.cpp:162-232 | whichever event comes first: old path unmapped, new path live iff the condition on the index before the events |
| Rename.MovedTreeWatchedIff | filewatcher/file-inotify/file-inotify-service.cpp:170-208 | every directory of the moved tree, in either order of the events, ends on its live watch iff it had that watch under its new path before, or the new path was unknown and is not refused |
| Rename.MovedFilesAnnounced | filewatcher/file-inotify/file-inotify-service.cpp:233-234 | the handler of moved-to announces exactly the qualifying files of the moved tree, each once |
| Rename.RenameOverWatchedDirectory | filewatcher/file-inotify/file-inotify-watcher.cpp:184-192 | the condition fails after a history from the empty index that is spelled out, in either order: the moved directory ends without a watch |
| Rename.ChildKeepsStalePath | filewatcher/file-inotify/file-inotify-watcher.cpp:182-193 | the entry that a directory below the moved one has for its old path survives both handlers in either order |
| EventCursor.DecodeEncode | filewatcher/file-inotify/file-inotify-watcher.cpp:283-293 | reading the fields of a serialised record gives back the record, whatever follows it in the buffer |
| EventCursor.KnownRecord | filewatcher/file-inotify/file-inotify-watcher.cpp:283-293 | one record byte by byte: a negative wd, a mask and a cookie of several bytes, a padded name |
| EventCursor.EncodeAllInjective | filewatcher/file-inotify/file-inotify-watcher.cpp:283-291 | equal buffers come from equal lists of records |
| EventCursor.ExactDelivery | filewatcher/file-inotify/file-inotify-watcher.cpp:252-294 | over any run of calls, events returned followed by events buffered are the kernel's records in order |
| EventCursor.NothingHeldBack | filewatcher/file-inotify/file-inotify-watcher.cpp:262-293 | while records are buffered each call returns the next one |
| EventCursor.BatchComesOut | filewatcher/file-inotify/file-inotify-watcher.cpp:262-293 | after a read of some records, as many calls return all of them and use the buffer up |
| EventCursor.NothingFromNothing | filewatcher/file-inotify/file-inotify-watcher.cpp:262-288 | without records nothing is returned |
| EventCursor.RecordAt | filewatcher/file-inotify/file-inotify-watcher.cpp:283-288 | the bytes at the cursor are one whole record and the rest of the list follows it |
| EventCursor.EventReader.ReadNextEvent | filewatcher/file-inotify/file-inotify-watcher.cpp:252-294 | one call returns the next record iff one is buffered or comes with this read, decoded from `mCurrentEvent`; the copy fits; the cursor stays inside the bytes read; the cast to `int` in the bounds test loses nothing |
| EventCursor.EventReader.ReadEvents | filewatcher/file-inotify/file-inotify-service.cpp:220-222 | over any list of poll and read results, the events decoded from the bytes are the ones the calls return, and with those still buffered the records the kernel handed over, in order |
| EventCursor.EventReader.Refill | filewatcher/file-inotify/file-inotify-watcher.cpp:262-281 | the buffer is filled only when it is used up, and a failed poll or read leaves it empty |
| EventCursor.EventReader.PeekLen | filewatcher/file-inotify/file-inotify-watcher.cpp:283-284 | the length field at the cursor is the record's, and the record ends within the bytes read; before a stale buffer it is still some record's |
| EventCursor.EventReader.TakeRecord | filewatcher/file-inotify/file-inotify-watcher.cpp:290-293 | the copied record fits `mCurrentEvent` and decodes to the first pending one, which is then no longer pending |
| Traversal.TraversalMeetsSpec | filewatcher/file-inotify/file-inotify-service.cpp:170-208 | on any tree: registered are the old paths and the directories reachable across readable directories and unskipped names where the add succeeds; announced are exactly the qualifying files reached, once each, and only on request |
| Traversal.VisitIsDue | filewatcher/file-inotify/file-inotify-service.cpp:188-203 | whatever the traversal does is due by the independent description of the tree |
| Traversal.DueIsVisited | filewatcher/file-inotify/file-inotify-service.cpp:188-203 | whatever is due by that description is done |
| Traversal.VisitDistinct | filewatcher/file-inotify/file-inotify-service.cpp:188-204 | no path is acted on twice |
| Paths.SkippedIff | filewatcher/file-inotify/file-inotify-service.cpp:190-196 | skipped are the empty name and the names with a leading dot, and no others |
| Traversal.WatchedPaths | filewatcher/file-inotify/file-inotify-service.cpp:145-152 | a path is registered after a list of actions iff it was before or an action adds it and is not refused |
| Traversal.WatchedLive | filewatcher/file-inotify/file-inotify-service.cpp:145-152 | a path without an old entry ends on the live watch of the very directory it was added for |
| Traversal.WatchedKeeps | filewatcher/file-inotify/file-inotify-service.cpp:145-152 | a traversal changes no entry and no watch that was there, and its new watches have new descriptors |
| Traversal.SecondTraversalAddsNothing | filewatcher/file-inotify/file-inotify-service.cpp:154-208 | running it again, with or without announcing, changes neither the index nor the kernel |
| Traversal.FileInotifyService.WatchAndNotifyDirectoryRecursively | filewatcher/file-inotify/file-inotify-service.cpp:170-208 | the recursion over the real watcher and list ends, and its effect on both is that of the specified actions in order |
| Traversal.FileInotifyService.ScanDirectory | filewatcher/file-inotify/file-inotify-service.cpp:188-204 | the readdir loop has the effect of the scan of all entries |
| Traversal.FileInotifyService.ScanEntry | filewatcher/file-inotify/file-inotify-service.cpp:190-203 | one entry: skipped, announced, entered or ignored, as the description of that entry says |
| Traversal.FileInotifyService.AddNotifyFile | filewatcher/file-inotify/file-inotify-service.cpp:257-269 | the path joins the end of the list iff it qualifies |
| Covered.EveryDirectoryCovered | filewatcher/file-inotify/file-inotify-service.cpp:170-208 | in every reachable state, every visible directory under a root is watched, or it or one above it is still to be visited, named by an unhandled create event, or refused by the system |
| Covered.QuietMeansWatched | filewatcher/file-inotify/file-inotify-service.cpp:170-243 | with the queue drained and no scan running, every visible directory under a root is in the index with its live descriptor, unless it or a directory between the root and it was refused |
| Covered.FileUnderWatchIsAnnounced | filewatcher/file-inotify/file-inotify-service.cpp:220-237 | a qualifying file created under a watched parent, at any moment of any run and whatever its name, is appended by the time all is quiet, whatever was refused |
| Covered.DirectoryUnderWatchIsWatched | filewatcher/file-inotify/file-inotify-service.cpp:220-237 | a directory created under a watched parent, hidden or not, is in the index by then, unless its own watch or open was refused |
| Trees.NewTreeIsComplete | filewatcher/file-inotify/file-inotify-service.cpp:170-237 | below such a directory, at any depth and whenever it was made, everything visible is watched or announced by then, unless a refusal between the two cut it off |
| Trees.AnnouncingScanIsComplete | filewatcher/file-inotify/file-inotify-service.cpp:154-208 | the same below a path that a recursive, announcing watch was asked for, for what was there and for what came during or after the scan |
| Trees.FileInNewDirectoryIsAnnounced | filewatcher/file-inotify/file-inotify-service.cpp:181-204 | a qualifying file made directly in a directory that was itself made under a watch is appended by then, unless this very directory was refused |
| Covered.HiddenWatchedIff | filewatcher/file-inotify/file-inotify-service.cpp:194-196 | by then, short of a refusal, a directory whose name the scan skips is in the index iff it was asked for or was created while its parent was watched |
| Covered.HiddenDirectoryLeftOut | filewatcher/file-inotify/file-inotify-service.cpp:194-196 | a run in which the scan meets a hidden directory and leaves it unwatched for good |
| Covered.OnlyQualifyingAnnounced | filewatcher/file-inotify/file-inotify-service.cpp:263-267 | nothing but qualifying files that exist is ever appended |
| Exactness.AnnouncedIff | filewatcher/file-inotify/file-inotify-service.cpp:170-269 | in every reachable state an announced file qualifies and lies, across no skipped name, at or below a path that an announcing watch was asked for or something created under a watch; at a quiet end every such file is announced, up to refusals in between |
| Exactness.WatchedIff | filewatcher/file-inotify/file-inotify-service.cpp:145-243 | the same for watched directories, whose reasons are all paths asked for and what was created under a watch |
| Exactness.GrantedAnnouncedIff | filewatcher/file-inotify/file-inotify-service.cpp:170-269 | when the system refuses nothing, announced at a quiet end iff qualifying and below such a reason |
| Exactness.GrantedWatchedIff | filewatcher/file-inotify/file-inotify-service.cpp:145-243 | when the system refuses nothing, watched at a quiet end iff a directory below such a reason |
| Exactness.ReasonedKept | filewatcher/file-inotify/file-inotify-service.cpp:154-243 | every step of every thread keeps a reason for each frame of the scan, each watch and each announcement |
| Exactness.AskedInIff | filewatcher/file-inotify/file-inotify-service.cpp:154-168 | the announcing reasons are exactly the announcing calls of the run |
| Exactness.RootsAreAsked | filewatcher/file-inotify/file-inotify-service.cpp:154-168 | the paths asked for are exactly those of the calls of the run |
| Exactness.NothingRefused | filewatcher/file-inotify/file-inotify-service.cpp:147-149 | nothing counts as refused unless inotify_add_watch or opendir failed in the run |
| Exactness.NeverStuck | filewatcher/file-inotify/file-inotify-service.cpp:210-249 | in every reachable state that is not quiet the service itself can take a step |
| Coverage.AttendedKept | filewatcher/file-inotify/file-inotify-service.cpp:177-202 | a directory that somebody owes a visit stays owed, or gets watched, over every step of every thread |
| Trees.DueKept | filewatcher/file-inotify/file-inotify-service.cpp:183-203 | a visit that is due stays due until the very step that pays it: the open of a directory, the append of a file, or a refusal |
| Trees.TreeAttendedKept | filewatcher/file-inotify/file-inotify-service.cpp:188-204 | below a directory that was once due, every step of every thread keeps each visible node done, due or cut off, new nodes included |
| Coverage.BornKept | filewatcher/file-inotify/file-inotify-service.cpp:220-237 | what was created under a watch stays named by its event until it is announced, watched, entered or refused |
| Coverage.InvAlways | filewatcher/file-inotify/file-inotify-service.cpp:154-249 | the whole invariant holds in every reachable state |
| Base.ToInt | filewatcher/file-inotify/file-inotify-service.cpp:307 | the stored size equals the file's iff that is below 2^31 |
| NotifyQueue.NothingLostOrRepeated | filewatcher/file-inotify/file-inotify-service.cpp:257-318 | over any interleaving, each append is pending, vanished or submitted, exactly one of them and once; pending keeps append order and paths |
| NotifyQueue.PickPartitions | filewatcher/file-inotify/file-inotify-service.cpp:298-315 | a pass splits the list in three and loses no entry |
| NotifyQueue.PickKeepsOrder | filewatcher/file-inotify/file-inotify-service.cpp:298-315 | what stays keeps its order |
| NotifyQueue.SubmittedIff | filewatcher/file-inotify/file-inotify-service.cpp:301-314 | an entry is submitted iff its file is there, the service is up, and the size seen now equals the truncated size of the pass before |
| NotifyQueue.PassVerdict | filewatcher/file-inotify/file-inotify-service.cpp:299-315 | the verdict of a pass on any entry of any reachable queue: it vanishes iff its file is gone, is submitted iff it is stable and the service is up, and otherwise stays with the size seen now noted |
| NotifyQueue.SubmittedWasStableIff | filewatcher/file-inotify/file-inotify-service.cpp:306-314 | a submitted file is below 2^31 bytes, and its last two sizes are equal iff the earlier one was too |
| NotifyQueue.ConstantSizeSubmittedIff | filewatcher/file-inotify/file-inotify-service.cpp:306-314 | in any reachable queue, among any other files, a file of constant size is not submitted at its first pass, and at its second one iff it is below 2^31 bytes |
| NotifyQueue.BigFileNeverSubmitted | filewatcher/file-inotify/file-inotify-service.cpp:306-309 | in every reachable state an entry whose file has 2^31 bytes or more stays |
| NotifyQueue.ShrunkFileSubmitted | filewatcher/file-inotify/file-inotify-service.cpp:306-314 | a concrete unstable file is submitted |
| NotifyQueue.ApplyKeepsInv | filewatcher/file-inotify/file-inotify-service.cpp:257-318 | each append and each pass keeps conservation, order, and the link between the size field and the sizes seen |
| NotifyQueue.FileList.Append | filewatcher/file-inotify/file-inotify-service.cpp:265-266 | the list gains the path with size -1, and the history one append |
| NotifyQueue.FileList.LoopOnce | filewatcher/file-inotify/file-inotify-service.cpp:295-316 | one turn of the loop is one pass of the history |
| NotifyQueue.FileList.Iterate | filewatcher/file-inotify/file-inotify-service.cpp:297-315 | removing and updating through the mutable iterator leaves exactly the entries that stay, updated, in order |
| NotifyQueue.FileList.LookAt | filewatcher/file-inotify/file-inotify-service.cpp:299-314 | one turn replaces or removes the entry it looks at as its fate says, nothing else, and the iterator stands before the next one |
| LockOrder.NoDeadlock | filewatcher/file-inotify/file-inotify-service.cpp:46-316 | with any number of threads, in every reachable state each unfinished thread can step or waits, for a lock or for the end of a service thread, over a chain of threads for one that can |
| LockOrder.HoldersEnd | filewatcher/file-inotify/file-inotify-service.cpp:81-316 | threads that take locks in rank order, and join without holding any, never wait in a circle |
| LockOrder.CodeIsOrdered | filewatcher/file-inotify/file-inotify-service.cpp:46-316 | every lock action of the service and its watcher is in rank order: `mWatcherLock`, `mListLock`, then `mLock` or the static lock, under which nothing is taken; the destructor joins without a lock |
| LockOrder.MutualExclusion | filewatcher/file-inotify/file-inotify-service.cpp:141-168 | two threads are never inside the same guard |
| LockOrder.DataExclusion | filewatcher/file-inotify/file-inotify-service.cpp:141-316 | no two threads scan together, append to the list while another appends or passes over it, or use the index while another does |
| LockOrder.InvAlways | filewatcher/file-inotify/file-inotify-service.cpp:46-316 | in every state of a run each lock has one holder and each thread holds exactly the guards in scope |
| SocketStream.SocketStream.WriteFully | audio/common/socket/SocketStream.cpp:91-110 | for every placement of short sends, interrupts and errors, a prefix of the block goes out in order; 0 iff all of it |
| SocketStream.SocketStream.ReadFully | audio/common/socket/SocketStream.cpp:112-130 | the bytes received are moved in order to the front of the buffer, the rest of it is untouched, and the result is non-null iff exactly `len` arrived |
| SocketStream.ExactTransfer | audio/common/socket/SocketStream.cpp:91-130 | over a reliable stream the counts of both sides are full and what is stored is what was given, however both sides are fragmented and interrupted |
| SocketStream.Transfer | audio/common/socket/SocketStream.cpp:91-130 | writeFully on one stream and readFully on another: the buffer gets the front of the block as far as both scripts let it come; a full read means an equal block; over a reliable stream that is sure |
| SocketStream.ShortTransferIsSeen | audio/common/socket/SocketStream.cpp:91-130 | a reader that got its full length implies a writer that sent it |
| SocketStream.SentAll | audio/common/socket/SocketStream.cpp:98-108 | without a send error everything goes out |
| SocketStream.SentUntilError | audio/common/socket/SocketStream.cpp:98-109 | a send error ends it: out is what had moved before, and later outcomes are not used |
| SocketStream.SentShortIff | audio/common/socket/SocketStream.cpp:98-109 | writeFully falls short iff an error comes before enough bytes have moved; an interruption never counts |
| SocketStream.GotAll | audio/common/socket/SocketStream.cpp:119-128 | without error or shutdown everything that is wanted and comes is stored |
| SocketStream.GotUntilEnd | audio/common/socket/SocketStream.cpp:119-128 | an error or the peer's shutdown ends it: stored is what had come before, and it is not enough |
| SocketStream.SocketStream.CommitBuffer | audio/common/socket/SocketStream.cpp:86-89 | a prefix of the block goes out, all of it iff 0 |
| SocketStream.SocketStream.AllocBuffer | audio/common/socket/SocketStream.cpp:65-84 | a block of at least the size asked for and of at least the recorded size, although malloc leaves that size stale; none without memory or beyond the largest object |
| SocketStream.SocketStream.Flush | audio/common/include/IOStream.h:69-77 | nothing is pending afterwards; the bytes that went out are the front of what was pending, as far as the send outcomes let it come; 0 iff all of it |
| SocketStream.SocketStream.Alloc | audio/common/include/IOStream.h:44-67 | for every length: below 2^31 the chunk starts where the stream ends so far and fits the real block, and bytes sent followed by bytes pending before it are the old stream; without a failure there is no chunk iff 2^31 <= len < 2^32 or the low 32 bits of len are at least 2^31, and the buffer invariant holds afterwards iff len is below 2^32 or those bits are at least 2^31; a chunk that fits makes no call, and the recorded size never shrinks below what was served |
| SocketStream.SocketStream.MakeRoom | audio/common/include/IOStream.h:52-59 | a block that can hold the chunk, without touching the stream; with memory, for lengths from 2^31 on, there is a block iff the length is at least 2^32 and its low 32 bits are below 2^31 |
| SocketStream.SocketStream.Readback | audio/common/include/IOStream.h:79-82 | pending bytes go out first unless the send fails, which is not told to the caller; then reading is as in readFully; a sending side without failures stays so |
| SocketStream.SocketStream.Fill | audio/common/include/IOStream.h:61-66 | writing into a chunk changes no other chunk |
| SocketStream.SocketStream.Put | audio/common/include/IOStream.h:44-77 | allocating and filling appends exactly the chunk to the stream, and cannot fail on a reliable stream with memory and a length that is an `int` |
| SocketStream.SocketStream.DoAll | audio/common/include/IOStream.h:44-82 | any run of chunks, flushes and readbacks: when nothing fails on the sending side, bytes sent followed by bytes pending have grown by exactly the chunks in order; on a reliable stream with memory and lengths that are an `int`, nothing does |
| SocketStream.SocketStream.Do | audio/common/include/IOStream.h:44-82 | one chunk, flush or readback adds exactly its own bytes to the stream, or something failed |
| SocketStream.SocketStream.BreakBuffer | audio/common/include/IOStream.h:52-66 | a fresh stream and one call of alloc with 2^32: a chunk is handed out that ends outside the block |
| SocketPath.MkpathPrepares | audio/common/socket/UnixStream.cpp:98-113 | every ancestor is a directory iff no non-directory was in the way; the path is free iff what stood there could be removed; nothing else is removed, and only missing ancestors are made |
| SocketPath.UnixStream.MkdirRecursively | audio/common/socket/UnixStream.cpp:67-96 | the loop over the characters, repeated slashes and "." included, makes exactly the missing directories down to the name, or nothing when a non-directory is in the way |
| SocketPath.UnixStream.Mkpath | audio/common/socket/UnixStream.cpp:98-113 | removal of what is there, or the directories above it; nothing for the empty path |
| SocketPath.DirnameIsParent | audio/common/socket/UnixStream.cpp:110-112 | dirname names the parent, whatever the slashes |
| SocketPath.RawIs | audio/common/socket/UnixStream.cpp:84-93 | the components of any spelling: a name, a name after a slash, and slashes that add nothing |
| SocketPath.CompsIs | audio/common/socket/UnixStream.cpp:84-93 | the place that a spelling names, in which "." adds nothing |
| SocketPath.MadeStep | audio/common/socket/UnixStream.cpp:84-93 | each mkdir finds its parent made, and leads one level further |
| SocketPath.BlockedStops | audio/common/socket/UnixStream.cpp:85-95 | past a non-directory no mkdir can succeed |
| SocketPath.PrefixComps | audio/common/socket/UnixStream.cpp:85-89 | the prefix before a slash names a place on the way to the whole path |
| Recording.RecordingWorker.SetUp | audio/recordingworker.cpp:98-175 | at the stream loop a present resampler converts the recorder's rate to the client's and they differ; an absent one means client rate 0, equal rates or failed creation; a preprocessor is one made for the present recorder's rate; a fitting resampler is kept |
| Recording.RecordingWorker.Convert | audio/recordingworker.cpp:129-167 | from the recorder's and the client's rates: which resampler there is afterwards, that a fitting one is kept, and that a preprocessor is made at most once and for the present recorder |
| Recording.RecordingWorker.Start | audio/recordingworker.cpp:90-258 | the same at every entry to the stream loop, over any list of sessions, and which sessions get there |
| Recording.RecordingWorker.DestroyRecorder | audio/recordingworker.cpp:383-396 | neither recorder nor preprocessor is left; the resampler stays |
| FileIndex.ControlManager.OnSyncFiles | manager/communication/controlmanager.cpp:404-606 | lists, counters and the calls of filesMessage with what they carry end as the message semantics says, and so do both link trees when names are single path components |
| FileIndex.ControlManager.StartBatch | manager/communication/controlmanager.cpp:410-420 | the first batch of a dump, and no other, clears the five lists |
| FileIndex.ControlManager.SyncItem | manager/communication/controlmanager.cpp:422-605 | one item's effect on lists, counters, calls of filesMessage and links, by message type |
| FileIndex.ControlManager.AddMeta | manager/communication/controlmanager.cpp:424-449 | the item joins the list of its own class iff its path is not there; the other four keep their contents |
| FileIndex.ClassOfMainType | manager/communication/controlmanager.cpp:424-449 | with a subtype that has none of the five words the main type alone decides the list |
| FileIndex.ClassOfKnown | manager/communication/controlmanager.cpp:424-449 | the lists of the main types image, video, audio, application and text, and of another |
| FileIndex.ControlManager.RemoveMeta | manager/communication/controlmanager.cpp:514-554 | the first item with the path leaves the list of the item's class; the other four keep their contents |
| FileIndex.ControlManager.RemoveFirst | manager/communication/controlmanager.cpp:515-520 | exactly the first item with the path goes |
| FileIndex.ControlManager.MakeLinks | manager/communication/controlmanager.cpp:462-510 | both links are made where the source exists and the place is free |
| FileIndex.ControlManager.RemoveLinks | manager/communication/controlmanager.cpp:564-602 | both links are gone as in the specified item, which leaves every other place as before |
| FileIndex.ControlManager.FilesIsEmpty | manager/communication/controlmanager.cpp:395-402 | true iff no query of getAllFiles (365-393) can show a file |
| FileIndex.ControlManager.GetAllFiles | manager/communication/controlmanager.cpp:365-393 | a query with the uri of a class shows the list of that class, any other query nothing |
| FileIndex.RemoveFromKeeps | manager/communication/controlmanager.cpp:513-554 | in a duplicate-free list, removal takes away exactly the items with the path |
| FileIndex.InvAlways | manager/communication/controlmanager.cpp:404-560 | after any messages the lists are duplicate-free by path and each item is in the list of its own class |
| FileIndex.AddThenRemove | manager/communication/controlmanager.cpp:423-554 | adding a fresh path and removing it restores all five lists and both counters |
| FileIndex.FullDump | manager/communication/controlmanager.cpp:410-457 | a dump whose running sum reaches the total only at the last batch leaves each list as the first-occurrence dedup of its class, both counters at 0, and filesMessage called with the last batch once for each of its items |
| FileIndex.DumpUnderWay | manager/communication/controlmanager.cpp:410-457 | in the middle of a dump everything received is stored and the counters say how much |
| FileIndex.DumpKeepsLastRound | manager/communication/controlmanager.cpp:410-457 | for any batches and any total, the lists hold exactly the items since the last earlier reset, and their number is counted until the total is reached |
| FileIndex.NothingForgottenIff | manager/communication/controlmanager.cpp:412-456 | a dump forgets nothing iff no proper prefix with items reaches the total |
| FileIndex.FileListedIff | manager/communication/controlmanager.cpp:404-560 | after dumps, inserts and deletes in any order, a path is in the list of a class iff the last thing said about it in that class, since the lists were cleared last, was an add |
| FileIndex.InterleavedDump | manager/communication/controlmanager.cpp:410-560 | inserts and deletes between the batches of a dump change neither its count nor what it stores, and none of them is lost |
| FileIndex.AllIsLogged | manager/communication/controlmanager.cpp:404-560 | the lists are the replay of all edits since the last clearing, and the counter is that of the dump under way |
| FileIndex.EditsEmit | manager/communication/controlmanager.cpp:458-460 | an insert or a delete calls filesMessage once per item with the whole message and leaves both counters alone |
| FileIndex.OtherTypesIgnored | manager/communication/controlmanager.cpp:422-606 | a message of any other type changes nothing |
| FileIndex.LastBatch | manager/communication/controlmanager.cpp:451-457 | the reset inside the item loop does not stop the remaining items of the batch from being stored and announced |
| FileIndex.AddEachIsDedup | manager/communication/controlmanager.cpp:424-449 | adding one by one to empty lists is first-occurrence dedup by class |
| FileIndex.EarlyTotalForgets | manager/communication/controlmanager.cpp:410-457 | after a full dump, further batches of the same dump start a new one: only they are kept, all of them when they stay below the total until their last |
| FileIndex.ViewsAgree | manager/communication/controlmanager.cpp:462-602 | after any messages a link exists in one view iff it does in the other, and both name the same inode |
| FileIndex.ItemHasBothLinks | manager/communication/controlmanager.cpp:484-601 | after an add that finds its file both links are there with one inode; after a remove neither is |
| FileIndex.LinkItemAt | manager/communication/controlmanager.cpp:462-602 | what one item does to any place: its own two are linked when free and its file is found, or emptied; every other is as before, inode included |
| FileIndex.OtherLinksKept | manager/communication/controlmanager.cpp:462-602 | links of other files survive an add or a delete with their inodes |
| FileIndex.LinkedIff | manager/communication/controlmanager.cpp:462-602 | after any messages a place is linked iff some add that names it found its file and no later delete names it; the inode is the one that the first such add after the last delete found |
| FileIndex.PlacesOf | manager/communication/controlmanager.cpp:480-500 | the file name of both links is what follows the last slash of the path |
| FileIndex.FileTypeOf | manager/communication/controlmanager.cpp:467-477 | the type directory follows the main type of the mime type |
| FileIndex.OtherFileType | manager/communication/controlmanager.cpp:476-477 | any other main type goes to the directory of the rest |
| DesktopEntry.RewriteCommutes | manager/communication/controlmanager.cpp:214-244 | updating the text generated for one name gives the text generated for the new one |
| DesktopEntry.RewriteCommutesIff | manager/communication/backendworker.cpp:321-335 | for package, version and home without newlines, and any new name, this holds iff the old name has no newline |
| DesktopEntry.UpdateHasMoreNewlines | manager/communication/controlmanager.cpp:219-236 | otherwise the updated text has more newlines than the generated one: those of the old name stay |
| DesktopEntry.LastNameWins | manager/communication/controlmanager.cpp:219-236 | on any text, of two updates the later one alone counts; the same name twice changes nothing more |
| DesktopEntry.OtherLinesKept | manager/communication/controlmanager.cpp:219-236 | on any text the lines keep their number and places, and each that does not name the app is unchanged |
| DesktopEntry.LinesOfUpdate | manager/communication/controlmanager.cpp:219-236 | reading the updated text line by line gives the rewritten lines |
| DesktopEntry.LinesIs | manager/communication/controlmanager.cpp:219-220 | the lines of any text: up to each newline, and what is left at the end, if something is |
| DesktopEntry.PkgOfFileName | manager/communication/controlmanager.cpp:188-190 | the package name is recovered from the generated file name |
| DesktopEntry.GenerateThenRename | manager/communication/backendworker.cpp:310-335 | a generated file that the manager renames is the file it would generate for the listed name |
| DesktopEntry.GeneratedReadsBack | manager/communication/backendworker.cpp:321-335 | a reader of keys gets back the package, the name, the command and the icon |
| DesktopEntry.ExecWords | manager/communication/backendworker.cpp:333 | startapp gets the package as its first and the version as its second word |
| DesktopEntry.NamingLinesUpdated | manager/communication/controlmanager.cpp:221-232 | on any text each of the four naming keys ends with the new name |
| DesktopEntry.FirstNameAt | manager/communication/controlmanager.cpp:193-198 | the name used is the app name of the first entry with the package |
| DesktopEntry.KnownAppRenamed | manager/communication/controlmanager.cpp:193-244 | a file of a listed app that has a name ends updated with the name of the first entry |
| DesktopEntry.OtherFilesKept | manager/communication/controlmanager.cpp:181-185 | of all files only the listed ones may change, and none comes or goes |
| DesktopEntry.UnknownAppUntouched | manager/communication/controlmanager.cpp:201-212 | a file of an unlisted app, or one that cannot be opened, is untouched |
| DesktopEntry.ControlManager.AppNameOf | manager/communication/controlmanager.cpp:191-198 | the name of the first entry with the package |
| DesktopEntry.ControlManager.NewContent | manager/communication/controlmanager.cpp:215-236 | reading, rewriting and collecting line by line is the update of the whole text |
| DesktopEntry.ControlManager.UpdateAppName | manager/communication/controlmanager.cpp:185-246 | one file ends renamed, or as it was when its app is unknown or unnamed or the file cannot be opened |
| DesktopEntry.ControlManager.UpdateAllAppNames | manager/communication/controlmanager.cpp:169-247 | each listed file ends renamed, every other file untouched |
| StorageToken.OneTokenPerPath | filewatcher/file-watcher.cpp:539-629 | in every reachable state exactly one of check in flight, worker polling and status in flight holds for a started path, and no signal is doubled |
| StorageToken.StepKeepsInv | filewatcher/storage-check-worker.cpp:33-64 | one token per path over every step, although each check is broadcast to all workers, and every check about tells what the main thread found last |
| StorageToken.TokenCanMove | filewatcher/storage-check-worker.cpp:42-63 | once run is through, the protocol never stops |
| StorageToken.PollEndsOnChange | filewatcher/storage-check-worker.cpp:48-63 | in every reachable state a look of a polling worker reports iff the storage is not ready or its mount state differs from the sample of the main thread's own last look |
| SafeLinks.NonLinksSurvive | filewatcher/file-watcher.cpp:587-957 | no sequence of slots removes or replaces anything but a symbolic link |
| SafeLinks.LinksAreNotRetargeted | filewatcher/file-watcher.cpp:587-957 | a link that is there after every slot of a sequence still has its first target |
| SafeLinks.RunStaysWithinTables | filewatcher/file-watcher.cpp:587-957 | over any slots, each new node is a link that the tables pair with its target or a directory on the way to a pending one, and nothing is gone but links at the tables' destinations |
| SafeLinks.SlotIsSafe | filewatcher/file-watcher.cpp:587-897 | each slot removes only links, changes nothing in place, and adds only links and directories |
| SafeLinks.StorageLinkIff | filewatcher/file-watcher.cpp:587-629 | for every state of the destination, whether the link is there afterwards: a free one, iff valid, ready, fuse, wanted and not refused; its own, iff valid, ready, fuse and wanted; foreign links stay then and go otherwise |
| SafeLinks.FileWatcher.StorageStatusChanged | filewatcher/file-watcher.cpp:587-629 | the link's fate and exactly one new check, which tells the mount state |
| SafeLinks.FileWatcher.MakeLink | filewatcher/file-watcher.cpp:922-940 | a link is made iff nothing stands at the destination and symlink is not refused there; a dangling link counts as something |
| SafeLinks.FileWatcher.DeleteLink | filewatcher/file-watcher.cpp:942-957 | a symbolic link goes, dangling or not; anything else stays |
| SafeLinks.FileWatcher.HasRequired | filewatcher/file-watcher.cpp:728-736 | found iff one of the directories exists |
| SafeLinks.DependMakeIff | filewatcher/file-watcher.cpp:713-742 | the wanted link is there afterwards iff it was, or the place was free and not refused, it is wanted, and the path and one required directory exist; what was there stays |
| SafeLinks.DependDeleteIff | filewatcher/file-watcher.cpp:744-774 | a link stays iff the path and one required directory exist, although the second test looks again after a removal; other things stay |
| SafeLinks.DependAddWatchPathLinks | filewatcher/file-watcher.cpp:705-711 | what is at the destination stays; a free one gets the link iff it is wanted, possible, and the path and one required directory exist |
| SafeLinks.UnlistedPathDoesNothing | filewatcher/file-watcher.cpp:587-897 | a slot called for a path that its table does not list leaves every link alone, and so does a changed file always |
| SafeLinks.AddWatchPathLinks | filewatcher/file-watcher.cpp:649-663 | what is at the destination stays; a free one gets a link to the path iff it is wanted and not refused |
| SafeLinks.PendingAddIff | filewatcher/file-watcher.cpp:665-689 | from the directories that mkpath made: the pending destination keeps what it had or gets the pending link unless refused, and the depending link is as dependDirectoryUpdated leaves it; nothing else changes |
| SafeLinks.PendingMadeIff | filewatcher/file-watcher.cpp:677-681 | with mkpath successful the pending directory and all its parents are there; nothing but missing directories on its way is made |
| SafeLinks.LinkAddWatchPathLinks | filewatcher/file-watcher.cpp:691-703 | what is at the destination stays; a free one gets the wanted link iff it is not refused |
| SafeLinks.GoneDirectoriesLoseLinks | filewatcher/file-watcher.cpp:776-816 | for directories and link directories: a link at the destination survives iff the directory is there; anything else stays |
| SafeLinks.DirectoryUpdateUndoes | filewatcher/file-watcher.cpp:649-799 | when a directory comes and goes, the update undoes whatever its arrival did to the links: only the directory is missing |
| SafeLinks.LinkDirectoryUpdateUndoes | filewatcher/file-watcher.cpp:691-816 | the same for a link directory |
| SafeLinks.PendingUpdateIff | filewatcher/file-watcher.cpp:818-853 | exactly when the pending link and the depending link stay, in terms of which of the two directories and the required ones are there; nothing else changes and nothing is made |
| SafeLinks.DependUpdateIff | filewatcher/file-watcher.cpp:855-885 | an existing link stays iff the path exists, also when every required directory is gone; a free place gets the wanted link iff the path and one required directory exist and it is not refused |
| SafeLinks.FileWatcher.DependDirectoryUpdated | filewatcher/file-watcher.cpp:855-885 | the link is brought in line with the directory; the path leaves the watcher iff it is gone |

## Left out

- Covered.EveryDirectoryCovered: the world creates nodes but neither moves nor deletes them, so a path stands for its inode and the index is a path map; WatchIndex and Rename treat inodes, deletion and renames.
- Covered.QuietMeansWatched: says what holds once all is quiet, not that this happens; scheduling and the one-second poll are not modelled.
- WatchIndex.FileInotifyWatcher.WatchedPathFromWd: tells which of several directories by the multimap's order; that the removals keep this order is not stated.
- SocketStream.SocketStream.constructor: the initial size is one that fits an `int`, as all sizes in the repository do.
- EventCursor.ExactDelivery: assumes that each read returns whole records, as inotify does, and no queue overflow.
- FileIndex.ControlManager.MakeLinks: making the directories is taken to succeed, and stripping the storage prefix is part of the map from paths to inodes; the inode's link limit is not modelled.
- FileIndex.ControlManager.StartBatch: the two counters are unbounded here; the `int` ones of the source wrap after 2^31 items.
- FileIndex.ViewsAgree: assumes that nobody else edits the two trees.
- FileIndex.ControlManager.OnSyncFiles: requires what `front()` and `back()` need of an item with links, a mime type and a path with a part between slashes; of the link trees it says nothing when a package has a slash or a name is "." or "..".
- SocketPath.MkpathPrepares: symbolic links, "..", permissions and paths longer than `PATH_MAX` are not modelled; system calls fail only for the reasons named.
- DesktopEntry.RewriteCommutes: texts have no carriage returns and no byte-order mark; writing and flushing the file are taken to succeed.
- StorageToken.OneTokenPerPath: the two-second sleep and thread start-up are not modelled, and each emission is one step.
- SafeLinks.NonLinksSurvive: `FileWatcher::run` is not a slot and removes a name directly (file-watcher.cpp:461); links in the middle of a path are not followed, and where symlink fails is a parameter, and custom icons are not modelled; for FileWatcher's path sets, addPath takes what exists and cannot fail otherwise.
- Recording.RecordingWorker.SetUp: PCM handles and their double close, the preprocessor's settings and the stream objects are not modelled, nor is the audio loop itself.
- LockOrder.NoDeadlock: the service's threads only; a system call that never returns is not a lock, and start's busy wait holds none.
- Traversal.TraversalMeetsSpec: the tree stands still during the traversal; realpath, symbolic links above the root and names longer than `PATH_MAX` are not modelled.
- The mime database is a flag of the file; `notifyFile` is its answer whether the service is up, and the content test and the D-Bus call behind it have no further effect.
- `FileInotifyService::addWatch` without recursion, `wdFromWatchedPath`, start and stop of the threads: one-line wrappers.
- Re-arming of `FileWatcher` for directories and link directories, and its workers for them: the code does not guarantee it.
- The constructor of `ControlManager` does not set its two counters; the model starts them at 0.
- ALSA, Speex, D-Bus, EGL, XCB, DRM and libpciaccess; hardware detection and its tables: foreign code or finite lookups.
- The gps and sensors services, camera, icons, lock files and library loading: repeats of what is modelled, or thin wrappers.
