# Verified model of pseudo

pseudo lets an unprivileged user build file trees as if they were root. A library wraps the
system calls of each process; the wrapped calls tell one server what a root user would have done,
and the server keeps that in a table of files. This project models the parts that make the
illusion hold, and proves what they are for.

- **The file table and the request state machine.** `file_table.dfy` gives each SQL statement its
  meaning on rows, `server_op.dfy` is the specification of one request, and `file_db.dfy` and
  `request.dfy` are the statements and the state machine in the form the server runs them, on an
  object that is updated in place and written back to disk. On this rest which requests are refused
  (`op_facts.dfy`), hard-link coherence (`agreeing.dfy`), the life of extended attributes
  (`attributes.dfy`, `orphans.dfy`, `attr_requests.dfy`), requests that contradict the
  table (`odd_requests.dfy`), at-least-once delivery and what a client sees of it
  (`resending.dfy`, `redelivery.dfy`, `second_answer.dfy`, `client_request.dfy`; `late_copies.dfy` when
  other clients are served in between), the marks of pending deletions under
  any interleaving of clients (`unlink_protocol.dfy`) and the repair pass (`db_check.dfy`).
- **The illusion itself.** `wrapper_scripts.dfy` and `wrappers.dfy` are the client half of create,
  chmod, chown, link, unlink, rmdir and rename. `virtual_root.dfy`, `virtual_rename.dfy` and
  `wrapped_runs.dfy` prove that after any run of these calls the table shows exactly the metadata of
  an ideal file system owned by root.
- **The illusion under concurrency.** `call_steps.dfy` takes the calls apart into single requests.
  `footprint.dfy` and `local_ideal.dfy` say what part of the file system a call works on, and
  `call_progress.dfy` and `concurrent.dfy` prove that calls on parts that do not overlap keep the
  illusion however their requests are interleaved; in `concurrent_runs.dfy` the host also gives the
  inode number of a removed file to a new one before the server has heard of the removal.
- **Path canonicalisation.** `path_buffer.dfy` walks a bounded character buffer in place,
  `path_walk.dfy` says what it computes on a stack of components, `path_resolution.dfy` shows that
  this is pathname resolution (section 4.13 of the Base Definitions volume of POSIX.1-2017), and
  `path_canonical.dfy` that its results are canonical and stable. `path_relative.dfy` says where a
  path starts and `base_path.dfy` chooses what it is relative to.
- **The wire.** `encoding.dfy` packs, frames, receives and takes apart a request, `serving.dfy` goes
  all the way from a client's arguments to the server's reply, and `name_list.dfy` is the list of
  attribute names that some replies carry.
- **The server's clients.** `client_table.dfy` is the table of connections and the decision to exit.
- **Shared state inside a process.** `callback_store.dfy` is the array of nftw callbacks,
  `wrapper_lock.dfy` the recursive wrapper lock.

## Reading the model

Tables are maps from row id to row. An insert takes the largest id plus one, and a select that is
stepped once returns the smallest matching id. A mode word is split into its format and its
permission bits. Ids, devices and inodes are unbounded integers. Each method whose body follows the
C code promises the value of a specification function; the lemmas are about those functions. The
lock is a state machine over single reads and writes, because interleaving between them is its
subject.

Some of what is proved is about where the code differs from what is said of it:

- `replace()` rewrites every occurrence, so renaming /a to /b turns /a/apple into /b/bpple.
  `FileTable.RenameMovesSubtree` says exactly when a rename is a move of the subtree.
- doc/database:38-48 says that a clash with a row marked for deletion is resolved in favour of the
  newcomer. The stale row goes, but a creat at that path is then ignored, because the flag that says
  the path is known stays set. A creat can also be refused, when an unmarked row gives its inode
  another name. `UnlinkProtocol.CreatTracksExactly` says, for every table, when a creat leaves its row,
  and `UnlinkProtocol.MakeTracksExactly` and `LinkAlwaysTracks` say it for the other ways of creating.
- doc/database:50-62 describes a race in which a late confirmation deletes a row that another client
  has marked since. Marks carry the client's process id, so it cannot happen:
  `UnlinkProtocol.LateConfirmationIsHarmless`.
- doc/database:33-36 says a nameless row is given a path by a later request. The lookup always
  yields a path text, the placeholder included, so that branch is never taken: whatever the request
  and the table, only a rename gives a row another path, and only to rows at or below the old one
  (`OpFacts.OnlyRenamesMovePaths`; a request that leaves a row nameless is
  `OpFacts.NamedRequestLeavesNameless`). `FileDbs.FileDb.UpdateFilePath` says what the statement would
  do; no request runs it.
- The server's test for a trailing slash looks at the last byte, which is a NUL except in renames and
  attribute requests: `Encoding.PathRoundTrip`.
- The loop that should lower the highest client index stops on the slot just closed, so the index is
  only an upper bound: `Clients.ClientTable.CloseClient`.
- A link request first deletes the row of its path, and the attributes of its inode with it unless
  another row of the inode stands elsewhere: `Orphans.LinkKeepsAttrs` says exactly when, and
  `Orphans.MakeKeepsAttrs` for creat, mkdir and mknod. `Attributes.RelinkDropsAttrs` is a witness.
- An attribute may be set on a file the server does not track
  (ports/linux/xattr/pseudo_wrappers.c:155-239, pseudo.c:1004-1017). It is then stored without a row
  (`Orphans.UntrackedFileGetsOrphan`; `Orphans.OrphansExactly` says for every request whether it
  leaves such an attribute), and when the file is removed and its inode number used again, the new
  file inherits it (`Orphans.NewFileInherits`).
- A request that comes twice leaves the files as it does once, but can lose attributes: a directory
  made with the number of such a file inherits its attributes at the first delivery and drops them at
  the second (`Resending.SecondDeliveryDropsInherited`). `Resending.SecondDelivery` says exactly when.
- A repeated request can be answered differently although it changes nothing: a rename of a
  single-link file is refused, an unlink of one of several names finds the inode under another, and at
  the server an exclusive creation of an attribute finds its own attribute. The client never sends the
  last one: create and replace are not among the operations it knows.
  `SecondAnswer.SecondAnswerDiffers` proves that these are the only cases.
- A new symbolic link that gets the inode number of a removed one leaves the old row standing until
  the removal is confirmed, and a hard link made before that takes the old owner:
  `ConcurrentRuns.SymlinkKeepsStaleRow`. The other ways of creating drop such rows
  (`ConcurrentRuns.ReuseEffect`).
- A link of a file the server does not know leaves it tracked under the new name only, and the server
  then aborts clients that use the old one: `VirtualRoot.LinkedSourceAborts` says exactly when.

## Model

| member | source | states |
|---|---|---|
| PathText.RangeIsDescendants | pseudo_db.c:2024-2025 | the half-open text range of the subtree statements holds exactly the proper descendants of the directory, under byte order |
| PathText.ReplaceIsIdentity | pseudo_db.c:2024 | replace() leaves a text alone exactly when nothing is replaced: the pattern does not occur, or equals its replacement |
| PathText.ReplaceMovesDescendant | pseudo_db.c:2024-2025 | replace() puts a descendant where a prefix swap would exactly when the old name does not occur again below it |
| PathText.RenameManglesChild | pseudo_db.c:2024 | a child whose name starts like its parent's path lands in the wrong place |
| PathText.MovedBack | pseudo_db.c:2019-2083 | a prefix move followed by the reverse move restores any path that was not at or below the target |
| FileTable.DeleteRangeIsSubtree | pseudo_db.c:1972-1973 | the ranged delete removes exactly the rows below the directory |
| FileTable.RenameMovesSubtree | pseudo_db.c:2019-2083 | the two rename statements move the name and its subtree, keep all other columns and all other rows, if and only if no tracked name below the old path repeats the old path |
| FileTable.RenameRoundTrip | pseudo_db.c:2019-2083 | the reverse rename restores every row, up to cleared marks, when nothing was at or below the new name |
| OpFacts.ChecksSurvive | pseudo.c:572-737 | the sanity checks of a request only ever remove rows, and change none |
| OpFacts.RefusedExactly | pseudo.c:646-721 | for every table and request: the checks refuse it exactly when the row it is compared with is unmarked and gives its inode another name |
| OpFacts.AbortExactly | pseudo.c:714-719 | a request is answered with an abort exactly when the table blocks it beforehand, and then does no more than the checks |
| OpFacts.OnlyRenamesMovePaths | pseudo.c:650-657 | for every table and request: no row that stays gets another path, but by a rename, and then only at or below the old path |
| OpFacts.NamedRequestLeavesNameless | pseudo_db.c:1719-1752 | a named request for the inode of a nameless row leaves the row nameless |
| OddRequests.ClashDropsMarked | pseudo.c:582-612 | a row of another inode at the path goes if it was marked, with all rows of that path and mark and every attribute without a row, except for exec; otherwise nothing changes |
| OddRequests.OtherKindAtPath | pseudo.c:625-637 | where the first row of the path is a directory or a link and the request is not, or the other way round, all rows of the path go and the path counts as unknown |
| OddRequests.OtherKindOfInode | pseudo.c:722-737 | likewise for the inode: unless the request is refused its rows and attributes go, and nothing else |
| OddRequests.WhomStatBelieves | pseudo.c:743-750 | where path and inode have different rows, stat answers with the path's and fstat with the inode's |
| OddRequests.WhatChangesBelieve | pseudo.c:788-850 | there, chmod and chown take what they do not change from the inode's row, and change every row of the inode and no other |
| OddRequests.PathAlone | pseudo.c:743-850 | where only the path has a row, of another inode, stat answers with it, chmod and chown change every row of that inode, and no row is added |
| OddRequests.RenameSetsInode | pseudo.c:920-926 | a rename to a path without a row leaves the rows there on the inode of the request |
| OddRequests.CancelCollects | pseudo_db.c:1800-1837 | taking a mark back drops the attributes of an inode without a row |
| FileDbs.RenumberMoves | pseudo_db.c:2096-2098 | moving attributes to a new device loses none, leaves none behind and keeps every value, unless one is already there |
| FileDbs.FileDb.constructor | pseudo_db.c:423-440 | loading copies the disk table and leaves the dirty flag clear |
| FileDbs.FileDb.Backup | pseudo_db.c:402-421 | after a backup memory and disk agree and the flag is clear |
| FileDbs.FileDb.MaybeBackup | pseudo_db.c:442-453 | every tenth call writes back; the others change neither disk nor flag |
| FileDbs.FileDb.ClearUnusedXattrs | pseudo_db.c:1494-1520 | attributes of inodes without rows go, under a flag some caller raised |
| FileDbs.FileDb.ClearXattrs | pseudo_db.c:1522-1632 | the attributes of one inode go if it has no row left, under a flag some caller raised |
| FileDbs.FileDb.Link | pseudo_db.c:1637-1682 | adds one unmarked row under a new id, nameless without a path |
| FileDbs.FileDb.UnlinkDev | pseudo_db.c:1685-1716 | removes every row of an inode, then its attributes |
| FileDbs.FileDb.UpdateFilePath | pseudo_db.c:1719-1752 | afterwards no row of the inode is without a name; a row changes only if it had none, and then nothing of it but its path |
| FileDbs.FileDb.MayUnlinkFile | pseudo_db.c:1755-1797 | marks the rows at a path, and fails exactly when there is none |
| FileDbs.FileDb.CancelUnlinkFile | pseudo_db.c:1800-1837 | clears the marks at a path |
| FileDbs.FileDb.DidUnlinkFiles | pseudo_db.c:1842-1875 | removes all rows with a cookie and the attributes nobody uses; zero is no cookie |
| FileDbs.FileDb.DidUnlinkFile | pseudo_db.c:1878-1918 | removes the rows at a path with a given mark; without a message it sweeps all unused attributes |
| FileDbs.FileDb.Unlink | pseudo_db.c:1921-1958 | removes the rows at a path |
| FileDbs.FileDb.UnlinkBelow | pseudo_db.c:1968-2007 | removes the rows below a path and the attributes nobody uses |
| FileDbs.FileDb.Rename | pseudo_db.c:2019-2083 | runs the exact and the ranged update, clearing marks |
| FileDbs.FileDb.RenumberAll | pseudo_db.c:2089-2150 | moves rows to another device, changing no other column, and their attributes, failing on the attributes as a whole when one is already there |
| FileDbs.FileDb.UpdateInodeAt | pseudo_db.c:2159-2222 | sets device and inode of the rows at a path |
| FileDbs.FileDb.Update | pseudo_db.c:2228-2268 | sets owner, mode and device of all rows of an inode |
| FileDbs.FileDb.FindExact | pseudo_db.c:2271-2319 | finds a row by path and inode exactly when there is one, and copies its metadata |
| FileDbs.FileDb.FindPath | pseudo_db.c:2322-2375 | finds a row by path exactly when there is one, and copies inode and metadata over the message |
| FileDbs.FileDb.FindDev | pseudo_db.c:2428-2477 | finds a row by inode exactly when there is one, with its path |
| FileDbs.FileDb.GetXattr | pseudo_db.c:2480-2539 | yields the stored value, or fails when there is none or it is empty |
| FileDbs.FileDb.SetXattr | pseudo_db.c:2633-2748 | stores what follows the name, refusing create over an old name and replace of a new one |
| FileDbs.FileDb.ListXattr | pseudo_db.c:2542-2596 | the names of an inode's attributes in order, each with its NUL, in a buffer that is replaced as it fills |
| FileDbs.AppendName | pseudo_db.c:2569-2584 | one more name and its NUL, copied over to a larger buffer if need be |
| NameList.SortedIsSorted | pseudo_db.c:2550 | the listed names are those of the set, each once, in byte order |
| NameList.ListingRoundTrip | pseudo_db.c:2582-2584 | taking the bytes apart at their NULs gives the names back |
| FileDbs.FileDb.RemoveXattr | pseudo_db.c:2599-2630 | removes one attribute |
| Requests.ServerRequest.Find | pseudo.c:441-556 | the lookup by path and inode, else by path, else by inode, including which message each step reads |
| Requests.ServerRequest.FindLoosely | pseudo.c:546-564 | without an exact match, path and inode are looked up apart, the inode as the request gave it |
| Requests.ServerRequest.CheckClash | pseudo.c:582-612 | a row of another inode at the path is dropped only if it was marked |
| Requests.ServerRequest.CheckFoundPath | pseudo.c:577-640 | after the clash, a row of another kind at the path goes and is forgotten |
| Requests.ServerRequest.PathDiffers | pseudo.c:663-692 | when the path of the inode's row contradicts the request |
| Requests.ServerRequest.CheckFoundIno | pseudo.c:646-741 | refuses on a contradicting unmarked row; otherwise drops rows of another kind |
| Requests.ServerRequest.DoCreat | pseudo.c:764-787 | what creat does to table and reply |
| Requests.ServerRequest.DoChmod | pseudo.c:788-818 | chmod merges permission bits into what is known, or adds a row |
| Requests.ServerRequest.DoChown | pseudo.c:819-850 | chown sets the owner of what is known, or adds a row |
| Requests.ServerRequest.DoStat | pseudo.c:743-750 | stat answers from the path, fstat from the inode, when both are found |
| Requests.ServerRequest.DoLink | pseudo.c:877-919 | link replaces the row at the path and copies a known inode's metadata |
| Requests.ServerRequest.DoMake | pseudo.c:963-984 | mkdir and mknod remove what stood at path and inode and add a row |
| Requests.ServerRequest.DoUnlink | pseudo.c:940-962 | unlink removes path and subtree, and every row of a single-link inode |
| Requests.ServerRequest.DoRename | pseudo.c:920-926 | rename moves the rows, then sets the inode at the new path |
| Requests.ServerRequest.DoMayUnlink | pseudo.c:927-933 | the mark, and the answer that tells whether there was anything to mark |
| Requests.ServerRequest.DoSetXattr | pseudo.c:1004-1017 | set, create and replace of an attribute, and their answers |
| Requests.ServerRequest.DoGetXattr | pseudo.c:985-994 | the attribute's bytes, or failure |
| Requests.ServerRequest.Perform | pseudo.c:752-1026 | every operation does what the specification says |
| Requests.ServerRequest.MarkUnlinked | pseudo.c:1028-1040 | a descriptor operation on an unknown file without links marks its path |
| Requests.ServerRequest.FinishOp | pseudo.c:752-1043 | the operation, and the mark on files without links |
| Requests.PseudoOp | pseudo.c:430-1051 | the whole request: database and reply equal the specification of one request |
| Requests.Session | pseudo_db.c:640-656 | after loading, any requests with any write-backs between them, and the final flush, the disk holds exactly what the requests did |
| Agreeing.FrontOfAgreeing | pseudo.c:525-564 | for a request with a stat buffer that agrees with the database the lookup's flags tell exactly whether path and inode have rows, and the path checks change nothing |
| Agreeing.FrontOfBare | pseudo.c:525-564 | a request without a stat buffer finds at most its path, and is not refused |
| Agreeing.BareChangesNothing | ports/unix/guts/rename.c:45-56 | such a request, like the questions about the free target of a rename, changes nothing |
| Agreeing.OpKeepsCoherence | pseudo.c:764-984 | a proper request, with or without a stat buffer, keeps all rows of an inode on the same owner, mode and device |
| Agreeing.RunKeepsCoherence | pseudo_db.c:2228-2268 | every table reachable by proper requests is coherent, renames to fresh names included |
| Attributes.AttrsOutliveRows | pseudo_db.c:1494-1551 | no request but a rename or an attribute operation loses an attribute of an inode that an old row still names afterwards |
| Attributes.UnlinkCollectsAttrs | pseudo.c:940-962 | after an unlink that the table does not block every attribute belongs to an inode with a row |
| Attributes.RelinkDropsAttrs | pseudo.c:886-917 | the smallest case: a link to a path that is its inode's only row |
| Orphans.LinkKeepsAttrs | pseudo.c:886-917 | a link or symlink keeps an attribute if and only if it is another inode's, or no row of its inode is of another kind than the request's and, where the path has rows, another path has a row of the inode |
| Orphans.MakeKeepsAttrs | pseudo.c:764-984 | creat, mkdir and mknod keep an attribute if and only if it is another inode's, or the request is refused, or the inode has no row, or it is a creat of a path that has its row |
| Orphans.OrphansExactly | pseudo.c:1004-1017 | a proper request leaves an attribute without a row if and only if it is not refused and sets or creates one for an inode that has no row, or none after the checks |
| Orphans.UntrackedFileGetsOrphan | pseudo_db.c:2633-2748 | the smallest case: an attribute set on a file in an empty database |
| Orphans.NewFileInherits | pseudo.c:764-787 | a file created with the number of an untracked one that had an attribute has that attribute |
| AttrRequests.RemoveRemoves | pseudo_db.c:2599-2630 | after a removal the attribute is gone, whether or not it was there, and every other one is as before, up to those that go with rows of another kind |
| AttrRequests.RemovedIsNotFound | pseudo.c:985-1020 | and a later request for it fails |
| AttrRequests.SetSets | pseudo_db.c:2633-2748 | set, create and replace store the value or refuse, exactly as the name was there or not, and leave all other attributes |
| AttrRequests.GetGets | pseudo_db.c:2480-2539 | the answer is the stored value, or failure if there is none or it is empty |
| AttrRequests.ListLists | pseudo_db.c:2542-2596 | a name is in the answer exactly when the attribute is stored for that inode, once and in order |
| Resending.SecondDelivery | pseudo.c:753-1026 | a second delivery leaves the files as the first did, and changes the attributes if and only if the request is a link, symlink, mkdir, mknod or nameless creat for an inode that had attributes and no row, which it then drops |
| Resending.SecondDeliveryDropsInherited | pseudo.c:963-984 | the smallest case: a mkdir that inherits an attribute and loses it when it comes again |
| Redelivery.FilesIgnoreAttrs | pseudo.c:430-1051 | what a request does to the files does not depend on the attributes |
| Redelivery.AtLeastOnceIsOnce | pseudo_client.c:1365-1411 | a run in which each request is delivered one or more times leaves the files as if each had been delivered once |
| Redelivery.AtLeastOnceIsOnceForAll | pseudo_client.c:1365-1411 | and the attributes too, if no repeated request makes the first row of an inode that has attributes at that moment |
| LateCopies.RequestStays | pseudo.c:430-1051 | a request changes nothing outside the paths, subtrees and inode it names, together with all names of that inode |
| LateCopies.FirstSettles | pseudo.c:753-1026 | what one delivery leaves: refused for as long as nobody else acts there, or carried out |
| LateCopies.CopyRenews | pseudo.c:753-1026 | a copy that meets this leaves every row, at most putting the one it made back under a later number, and leaves the same for the next |
| LateCopies.CopiesAreHarmless | pseudo_client.c:1365-1411 | any number of copies of a request, with any requests of others on parts of their own in between: the rows of its part stay those of the first delivery, a copy takes and adds no row anywhere, and it is answered as the second delivery would have been |
| SecondAnswer.SecondAnswerDiffers | pseudo.c:753-1026 | the second answer differs from the first if and only if the request was not refused and is a single-link rename, an unlink that leaves the inode another unmarked name, or an exclusive creation of an attribute that is new or goes with rows of another kind |
| ClientRequest.PseudoClientRequest | pseudo_client.c:1350-1419 | whichever attempts are lost before or after the server acted: the files are those of one delivery, or of none if it never acted; so are the attributes, but for those that a repeated first row drops; an answer is the server's message and value at the delivery that ended it, whole, and its result is the first one unless a delivery was repeated and the table says the second one differs; a stat shows the row |
| ClientRequest.StatAgain | pseudo_client.c:1396-1406 | however many deliveries were lost before, a stat succeeds exactly if the inode has a row of the request's kind and is not elsewhere, and then carries owner, mode and device of every row of the inode |
| ClientRequest.EndingIs | pseudo_client.c:1372-1411 | a request is answered exactly at the first attempt that brings anything back, if that is an acknowledgement |
| ClientRequest.ServedIs | pseudo_client.c:1372-1411 | the server acts once for each attempt that reaches it up to that one |
| UnlinkProtocol.StepFollowsMarks | pseudo_db.c:1755-1918 | how any request, accepted or refused, changes the mark of any row |
| UnlinkProtocol.MarkIsLastEvent | pseudo_db.c:1755-1837 | in every reachable table a row's mark names the last client that marked it, or none since it was inserted, released or renamed |
| UnlinkProtocol.DidUnlinkRemovesOwnMarks | pseudo_db.c:1878-1918 | under any interleaving a confirmation removes exactly the rows at its path that its own client marked last |
| UnlinkProtocol.MarkTakesOver | pseudo_db.c:1755-1797 | a client's mark that is not refused becomes the last mark of every row at the path |
| UnlinkProtocol.LateConfirmationIsHarmless | pseudo_db.c:1878-1918 | a confirmation, however late and whatever others did in between, takes no row whose last mark was not its client's when that client last asked to mark anything |
| UnlinkProtocol.CreatTracksExactly | pseudo.c:764-787 | for every table: after a creat there is a row for path and inode if and only if there was one, or the path had none and no unmarked row gives the inode another name |
| UnlinkProtocol.MakeTracksExactly | pseudo.c:963-984 | mkdir and mknod leave a row for path and inode if and only if the table does not block them |
| UnlinkProtocol.LinkAlwaysTracks | pseudo.c:877-919 | a link always leaves a row for path and inode |
| UnlinkProtocol.CreatOfKnownInodeIsRefused | pseudo.c:714-719 | a concrete creat that is refused and leaves no row |
| UnlinkProtocol.CreatAfterClashIsLost | pseudo.c:592-601 | a concrete clash after which the new file has no row |
| DbCheck.PseudoDbCheck | pseudo.c:1084-1188 | checking reports exactly whether some row differs from the host; fixing leaves exactly the repaired table, reports success and, when no inode had to be corrected, sweeps exactly the attributes left without a row |
| DbCheck.FixRow | pseudo.c:1104-1175 | one row: update the inode, mark for deletion, or leave alone |
| DbCheck.SweepIsRepair | pseudo.c:1104-1186 | marking row by row and sweeping once amounts to keeping the sound paths on the host's inodes |
| DbCheck.SurvivorsMatch | pseudo.c:1128-1153 | every surviving row is on the host with its device and inode, and is a directory or a link exactly if the host's file is, and keeps its metadata |
| DbCheck.MatchesIs | pseudo.c:1110-1153 | what a row is compared for: existence, device, inode, directory, link |
| DbCheck.OnlyUnsoundRowsGo | pseudo.c:1156-1186 | with a fresh cookie a row survives if and only if every row of its path exists on the host with its kind |
| DbCheck.RepairIsComplete | pseudo.c:1084-1188 | a second pass changes nothing |
| DbCheck.RepairThenCheck | pseudo.c:1084-1188 | a check after a fix reports no error |
| Wrappers.ClientOp | pseudo_client.c:1895-2052 | one request built from a stat buffer, with the emulated owner for creat, mkdir, mknod, symlink, chmod and fchmod; chdir, close and the two attribute operations the client does not know send nothing, exec and open only for the log |
| Wrappers.WrapCreate | ports/unix/guts/mknodat.c:56-59 | one request after the real call, with the emulated owner |
| Wrappers.WrapFchmodat | ports/unix/guts/fchmodat.c:31-72 | new permission bits over the host's format, and nothing for a symbolic link |
| Wrappers.WrapFchownat | ports/unix/guts/fchownat.c:30-52 | the ids that are to stay come from the server |
| Wrappers.WrapUnlinkat | ports/unix/guts/unlinkat.c:36-59 | mark, call, confirm or cancel, as the script says; rmdir is the same |
| Wrappers.WrapLinkat | ports/unix/guts/linkat.c:109-118 | the new name of a named file is linked with what the server knows of the old one |
| Wrappers.WrapLinkTmpfile | ports/unix/guts/linkat.c:90-118 | a descriptor's file is linked if the server knows it, and created and reported open if not |
| Wrappers.WrapRename | ports/unix/guts/rename.c:28-110 | the whole protocol with its flags: two marks, the question, cancel both or confirm, link and rename |
| WrappedRuns.WrapCall | ports/unix/guts/renameat.c:33-127 | every wrapped call does what its script says |
| WrappedRuns.RunCalls | pseudo.c:525-989 | on a running server, any run of wrapped calls leaves the table in memory on the ideal |
| WrappedRuns.LinkTmpRefines | ports/unix/guts/linkat.c:90-118 | a file opened without a name and then linked comes under tracking as a newly created one |
| WrappedRuns.LinkKnownTmpRefines | ports/unix/guts/linkat.c:90-118 | a descriptor's file that the server knows gets the new name with its metadata |
| VirtualRoot.StatShowsIdeal | pseudo.c:851-876 | a stat answers root's metadata for a tracked file, fails for an untracked one, and changes nothing |
| VirtualRoot.NewRowOwner | pseudo_client.c:1992-2018 | a file comes under tracking with the emulated owner, or for chown and link with the one the request carries |
| VirtualRoot.UnsentChangesNothing | pseudo_client.c:1904-1976 | what the client keeps to itself would have changed nothing, but for creating and replacing attributes |
| VirtualRoot.CreateRefines | pseudo.c:764-787 | creating a file, directory, node or link keeps the table on the ideal |
| VirtualRoot.ChmodRefines | ports/unix/guts/fchmodat.c:10-77 | chmod keeps the table on the ideal, all names of the inode included |
| VirtualRoot.ChownRefines | ports/unix/guts/fchownat.c:10-58 | chown keeps the table on the ideal, with either id left alone or not |
| VirtualRoot.HardLinkRefines | ports/unix/guts/linkat.c:78-118 | a hard link shares the metadata of its file |
| VirtualRoot.LinkedSourceAborts | ports/unix/guts/linkat.c:78-118 | after a hard link the next stat of the old name is answered with an abort if and only if the file was not tracked before |
| VirtualRoot.RemoveRefines | ports/unix/guts/rmdir.c:16-34 | a removal, successful or not, keeps the table on the ideal; files without names lose their metadata |
| VirtualRename.RenameRefines | ports/unix/guts/renameat.c:53-123 | a successful rename moves the name and its subtree, replaces the target and brings an unknown file under tracking |
| VirtualRename.FailedRenameRefines | ports/unix/guts/renameat.c:72-83 | a failed rename leaves no trace |
| VirtualRename.EnteredAcrossDevices | ports/unix/guts/renameat.c:105-118 | an unknown file renamed over one on another device is entered as the file it replaces |
| VirtualRename.OntoItself | ports/unix/guts/renameat.c:33-52 | renaming a name onto another name of the same file changes nothing |
| VirtualRename.StepRefines | pseudo.c:525-989 | every wrapped call keeps the table on the ideal |
| VirtualRename.RunRefines | pseudo.c:525-989 | so does every run of calls |
| VirtualRename.VirtualRootHolds | pseudo.c:525-989 | from an empty table, after any run of calls, a stat of any name shows root's owner, mode and device if the file is tracked and leaves the host's answer alone if not |
| CallSteps.SoloIsScript | ports/unix/guts/rename.c:28-110 | a call sent request by request, each chosen by the answers so far, is its script when nobody interferes |
| Footprints.OtherPartStays | pseudo_db.c:1685-2268 | what a call does to its own part of the table leaves every other part as it was |
| LocalIdeals.CallActs | pseudo.c:525-989 | a call changes the ideal only in its part, and there as if there were nothing else |
| CallProgress.StepAdvances | pseudo.c:430-1051 | in any table: the next request of a call takes its part one step further and changes nothing else |
| Concurrent.DoKeepsInv | pseudo.c:430-1051 | every request of every client, every call that begins and every call that ends keeps the invariant |
| ConcurrentRuns.ReuseEffect | pseudo.c:707-784 | a creat, mkdir or mknod for an inode whose rows are all marked is accepted and drops them |
| ConcurrentRuns.HappenKeeps | pseudo.c:430-1051 | so does the moment the host removes a file, from which its inode number is free, and the confirmation that comes later |
| ConcurrentRuns.ConcurrentRefines | pseudo.c:430-1051 | several clients on parts that do not overlap, requests interleaved in any order, new files with the inode numbers of files whose removal is not confirmed yet: whenever no call is under way and no confirmation due, the table shows the ideal of the same calls made one after the other in the order they took effect |
| ConcurrentRuns.StatAnytime | pseudo.c:851-876 | at any moment a stat of a path nobody is working on shows root's metadata of a tracked file |
| ConcurrentRuns.SymlinkKeepsStaleRow | pseudo.c:877-919 | a symbolic link made with the number of an unconfirmed one, and a hard link to it, end with different owners |
| PathWalk.CompsSpell | pseudo_util.c:792-795 | canonical base text is its components, each after a slash |
| PathBuffers.PathBuffer.constructor | pseudo_util.c:838-848 | a loaded base gives a buffer that spells its components |
| PathBuffers.PathBuffer.StatBase | pseudo_util.c:741-759 | the first kind is lstat of the base, and a directory at the root |
| PathBuffers.PathBuffer.Backtrack | pseudo_util.c:634-648 | ".." removes the last component and never enters the root |
| PathBuffers.PathBuffer.Extend | pseudo_util.c:658-664 | slash, element and NUL are written inside the buffer |
| PathBuffers.PathBuffer.Follow | pseudo_util.c:698-716 | a link's text is walked from the root or from the link's directory, and the link counter is restored |
| PathBuffers.PathBuffer.FollowLink | pseudo_util.c:682-717 | a link is followed, or left when it is too deep or unreadable |
| PathBuffers.PathBuffer.AppendElement | pseudo_util.c:610-724 | one element, in place: the stack, the remembered kind and the return value of the walk; termination |
| PathBuffers.PathBuffer.AppendElements | pseudo_util.c:728-787 | a list of elements, in place, likewise |
| PathBuffers.PathBuffer.Confined | pseudo_util.c:835-838 | the root's characters never change and the end never moves into them |
| PathBuffers.PathBuffer.Finish | pseudo_util.c:857-866 | the final slash and NUL fit the buffer |
| PathBuffers.Trim | pseudo_util.c:824-829 | trailing slashes are dropped and remembered |
| PathBuffers.LoadBase | pseudo_util.c:835-848 | the buffer holds the base, unless the path starts over: then it is empty |
| PathBuffers.PseudoFixPath | pseudo_util.c:799-886 | the whole call equals the walk, stays inside its buffer, ends in a NUL and keeps the root in front, for every length of base and path but the one that writes past the end |
| BasePath.FindBasePath | pseudo_client.c:1506-1563 | an absolute path is taken from the emulated root, a relative one from the working directory or a known descriptor, an empty one with a descriptor is that descriptor's path; a result below an emulated root is that root followed by a slash: always for an absolute path, and for a relative one whose directory is below the root |
| PathResolution.ListKeepsRight | pseudo_util.c:629-759 | while links are read and followed, the remembered kind is what lstat says of the prefix, though ".." and links never ask |
| PathResolution.ReachesOnce | pseudo_util.c:610-787 | step-by-step resolution has at most one end |
| PathResolution.WalkIsResolution | pseudo_util.c:610-787 | the walk succeeds on given components, with nothing given up, if and only if step-by-step resolution that splices links and asks anew each time ends there: no link too deep, cut off or unreadable, and every prefix within the buffer |
| PathCanonical.ResultIsCanonical | pseudo_util.c:625-648 | the result has no empty, "." or ".." name and no link or file on the way, exactly when everything before its last name is a directory and no link is left at the end |
| PathCanonical.FixTwice | pseudo_util.c:799-886 | canonicalising a canonical result again returns it unchanged |
| PathCanonical.KeptBelowFiles | pseudo_util.c:650-724 | below a non-directory the remaining elements are appended as they are written |
| PathRelative.StartIsBase | pseudo_util.c:846-849 | the walk starts on the base for a relative or empty path or below a root, and from nothing otherwise |
| PathRelative.RelativeIsBelowBase | pseudo_util.c:799-886 | a relative path on a canonical base gives what the absolute path made of both gives, below the same root, whenever that fits |
| PathRelative.OneName | pseudo_util.c:625-680 | from a directory "." stays, ".." leads to the parent but not above the root, and any other name to its entry, a link that is to be left alone included |
| PathRelative.SlashKept | pseudo_util.c:857-866 | a result with plain names ends in a slash exactly if the path did or nothing but the root is left |
| BasePath.RelativeToCwd | pseudo_client.c:1523-1534 | without an emulated root a relative path is the absolute path that the working directory and it spell |
| Encoding.PackBuffer.PackExtras | pseudo_client.c:1789-1839 | path, name and value with their NULs, in a buffer that only grows |
| Encoding.PackBuffer.PackAlone | pseudo_client.c:1841-1857 | a lone path less one trailing slash, at its old length |
| Encoding.Receiver.Send | pseudo_ipc.c:94-134 | a header with the length, then the bytes |
| Encoding.Receiver.Receive | pseudo_ipc.c:139-189 | one message off the connection, in a reused buffer that always has room for the NUL |
| Encoding.Exchange | pseudo_ipc.c:94-189 | any sequence of messages arrives complete and in order |
| Encoding.TakeApart | pseudo.c:469-523 | the received bytes are split in place as the specification says |
| Encoding.PathRoundTrip | pseudo.c:512-523 | a lone path that ends in a slash and is not the root arrives without it, any other as it is, and the server drops none |
| Encoding.RenameRoundTrip | pseudo.c:469-501 | both paths of a rename arrive, the old one less one slash |
| Encoding.AttrRoundTrip | pseudo_db.c:2688-2691 | name and value arrive whole, NULs in the value included, with the right lengths |
| Encoding.ArrivingPath | pseudo.c:512-523 | when a split request's path arrives less exactly one slash, and when it arrives as no path |
| Encoding.SetThenGet | pseudo.c:985-1017 | an attribute set by one request is read back by the next, byte for byte, and an empty one is reported missing |
| Encoding.RemoveThenGet | pseudo.c:985-1020 | an attribute removed by one request is not found by the next |
| Serving.ServeMessage | pseudo_server.c:474-530 | a received message is answered as the request its bytes spell |
| Serving.RequestAndServe | pseudo_client.c:1789-1857 | from the client's arguments, packed, sent, received and taken apart, to the server's reply |
| Clients.ClientTable.OpenClient | pseudo_server.c:384-431 | the lowest free slot, or a new one, becomes live; all others keep their client |
| Clients.ClientTable.Grow | pseudo_server.c:405-424 | sixteen more slots, all closed |
| Clients.ClientTable.CloseClient | pseudo_server.c:436-457 | exactly one live slot goes, never the listener's, and the bound stays |
| Clients.ClientTable.PingClient | pseudo_server.c:478-505 | the first ping of a connection tells its process, program and tag, later ones change nothing |
| Clients.ClientTable.ServeShutdown | pseudo_server.c:549-579 | a shutdown is granted exactly when only the listener and the requester are live; a refusal lists every other client |
| Clients.ClientTable.AcceptClient | pseudo_server.c:695-718 | a new client cancels a granted shutdown |
| Clients.ClientTable.Handle | pseudo_server.c:691-736 | each event changes exactly the slots it should, what is known of their clients, the timeout and the decision to leave, and gives the answer to a shutdown request; count, bound and the promise of a peaceful exit are kept |
| Clients.ListedCounts | pseudo_server.c:560-567 | the list of other clients is as long as their number |
| Clients.ServerLoop | pseudo_server.c:668-778 | slots, timeout, decision to leave and answers are what the wakes lead to, event by event; the loop leaves only when told to or bored, and a peaceful exit leaves no client but the one that asked |
| Clients.HandleReports | pseudo_server.c:691-742 | the reports of one wake are handled in order, up to the one that says to leave at once |
| Clients.QuitsWhenTold | pseudo_server.c:732-733 | a signal to quit among the events of a wake makes the loop leave, by force if it gets that far |
| Clients.ForcedByTerminate | pseudo_server.c:732-733 | and nothing else makes it leave by force |
| Clients.AcceptedIsLive | pseudo_server.c:695-718 | an accepted client has the first free slot from then on until it hangs up, and cancels a granted shutdown |
| Clients.HungUpIsGone | pseudo_server.c:723-726 | a client that hangs up is gone, and nobody else is |
| Clients.PingedIsNamed | pseudo_server.c:478-567 | the process id a client has told is named when a shutdown is refused to another |
| Clients.ShutdownGranted | pseudo_server.c:549-579 | a shutdown is granted exactly when listener and requester are alone; otherwise as many are named as there are, and the next idle time is short |
| Clients.BoredExactly | pseudo_server.c:672-689 | with only the listener live the loop leaves at the idle wake that uses up its patience and not before, and with a client live it does not |
| Clients.BusyRefills | pseudo_server.c:691-692 | any report fills the patience up to the timeout at that moment |
| Clients.IdleServer | pseudo_server.c:672-689 | a server nobody connects to leaves after fifteen idle wakes |
| Clients.RefusedServer | pseudo_server.c:564-571 | one that has refused to shut down, after two once everyone is gone |
| CallbackStore.TopIsLast | ports/unix/guts/nftw_wrapper_base.c:71-88 | the last entry of a thread is the top of its own stack, and removing it touches no other stack |
| CallbackStore.Store.Append | ports/unix/guts/nftw_wrapper_base.c:66-69 | pushes on one thread's stack |
| CallbackStore.Store.Find | ports/unix/guts/nftw_wrapper_base.c:71-88 | finds the top of the caller's stack exactly when it is not empty |
| CallbackStore.Store.Delete | ports/unix/guts/nftw_wrapper_base.c:90-121 | pops the caller's stack, or nothing if it is empty |
| CallbackStore.Interleave | ports/unix/guts/nftw_wrapper_base.c:66-121 | under any interleaving every thread sees a stack of its own |
| CallbackStore.FindsItsOwn | ports/unix/guts/nftw_wrapper_base.c:66-88 | a thread finds the callback of the walk it started last, whatever other threads do in the meantime |
| CallbackStore.FindsTheOuterOne | ports/unix/guts/nftw_wrapper_base.c:90-121 | and when that walk has ended, what it would have found before |
| WrapperLock.StepKeepsInv | pseudo_wrappers.c:215-237 | every single read or write of every thread keeps the lock's bookkeeping |
| WrapperLock.MutualExclusion | pseudo_wrappers.c:215-237 | however threads are interleaved at most one has the lock, it is the recorded holder, and the count is its nesting depth |
| WrapperLock.GetThenDrop | pseudo_wrappers.c:215-237 | taking and dropping the lock restores it, at any depth |

## Left out

- FileDbs.FileDb.UpdateInodeAt: does not copy or collect extended attributes, because the length copied from the message is the size of a pointer and what the later lookup sees is not determined by the request.
- Attributes.AttrsOutliveRows: says nothing about renames, for the same reason.
- VirtualRename.VirtualRootHolds: all names of a tracked inode are tracked, descriptors of files without names are not used, and no tracked name below a renamed directory repeats the directory's path.
- VirtualRoot.HardLinkRefines: the source is tracked; what happens otherwise is `VirtualRoot.LinkedSourceAborts`.
- ConcurrentRuns.ConcurrentRefines: calls under way at the same time work on parts that do not overlap; on the same path or inode the outcome depends on the order of the real calls, and what is promised is the unlink protocol. The number of a file that a rename replaces is used again only after that call has ended, and a new symbolic link takes no number whose removal is still to be confirmed.
- Wrappers.WrapRename: a target or source that does not exist sends zero stat fields; the code's buffers are then uninitialised in the one case where it would confirm them.
- CallbackStore.Interleave: append, find and delete are atomic steps; the code's find does not take the mutex.
- WrapperLock.MutualExclusion: single reads and writes are atomic, and no thread id is zero.
- DbCheck.PseudoDbCheck: the cursor is a snapshot, the host does not change, and the attributes of inodes that are corrected are not stated.
- PathBuffers.PseudoFixPath: the sixteen rotating static buffers are one buffer given by the caller. An empty path next to a base that is the root itself and leaves room only for its NUL is not admitted, because the code then writes one byte past the buffer; and the root ends where a name of the base ends, which its one caller sees to (pseudo_client.c:1538-1545).
- Encoding.Exchange: reads and writes are complete; a path or, for attribute requests, at least an empty one is present.
- Clients.ServerLoop: allocation and descriptor duplication succeed, and the poll reports open descriptors only.
- ClientRequest.PseudoClientRequest: the server may lose messages but not its memory, and nobody else is served between the attempts; for the files, `LateCopies.CopiesAreHarmless` lets others in.
- Resending.SecondDelivery: links and confirmations carry a path, as the client sends them, and a rename is of a file the server knows to a name with nothing at or below it, with no tracked name below the old one that repeats it.
- LateCopies.CopiesAreHarmless: says nothing about attributes or the answers of attribute requests, because an unlink by another client sweeps every attribute without a row.
- FileDbs.FileDb.RenumberAll: that a failing update leaves no row moved is an assumption about the store.
- SQLite itself, its error returns, and which of several rows of one path an index would yield first: the smallest id is taken.
- Devices are stored in 32 bits and inodes as signed 64-bit numbers; the model keeps them whole.
- Rows whose path is NULL, and the lookup by inode alone, which nothing uses.
- The build option that keeps metadata in real extended attributes.
- The log database, queries, debug flags, profiling, and the event log: display and reporting.
- Sockets, fork and exec, starting the server, signals other than the order to quit, lock and pid files.
- Emulated user and group ids and their way through the environment, environment rewriting, passwd and group lookup, the Darwin port, the generated wrappers and their generators.
- OP_CLOSEFROM, whose start descriptor is compared strictly with internal ones.
- The antimagic counter, which would add only easy members.
