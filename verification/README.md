# leaves: a Dafny model

leaves is an embedded key-value store: a path-compressed trie on copy-on-write pages in a file,
one writer and any number of snapshot readers, with memory managers, replication and caches around
it. This project models its core and proves what the core is there for.

`dafny verify dfyconfig.toml` verifies all modules. What source code does step by step on fields
is a class here (`Database`, `Cursor`, `Updater`, `Sender`, `Node`, `BigMemory`, `AreaList`,
`AreaPool`, `Scanner`, `Receiver`, `TwoQCache`), each method proved against a function or a sequence
that says what it does; the theorems are about those.

| part | modules |
|---|---|
| transactions, copy-on-write pages, snapshot isolation | Memory, Trees, Store, Invariants, WriterSteps, Edits, TxnSteps, Snapshots, Runs, Readers, Pins, Conservation, Database |
| editing between prepare_commit and commit | PageRuns, AfterPrepare, StaleClone, LostSnapshot |
| the merge task of a confluence database, all interleavings | Confluence, Tributaries, MergeTwice, Drains |
| trie and cursor: find, next, prev, insert, remove | Prefix, Words, Trie, Zipper, Search, Frames, Insertion, Removal, Cursors, CursorRuns, CursorLimits |
| the packed trie node | Bits, NodeView, NodeEdit, NodeMemory, NodeCreate, NodeVisit, NodeTrie |
| incremental hash trie | HashSync, HashPaths, HashLabels, HashDigests, HashUpdater |
| sending and receiving | Transfer, Stream, Receiver |
| areas of the file, big values, rebuild after a crash | Tiling, BigMemory, AreaLists, AreaPools, AreaLimits, Recovery, Scanning, Rebuild |
| page size solver | Buckets, PageSizes, Solver |
| 2Q cache, serial numbers | TwoQueue, TwoQueueRuns, IntrusiveLists, TwoQueueCache, Serial |

In the store, a `View` is the ghost picture of a state: the chain of committed transactions, their
trees as values, the writer's tree, the subtrees it has detached and the hole it works in. `Inv`
says that all those trees are stored on disjoint or properly shared pages and that no page in use
can be handed out; `Sound` is `Inv` or, from prepare_commit to the end of the transaction, what
becomes `Inv` again at a rollback, and at a commit whose copy of the allocator state is current. A
`Book` (Pins) is the list of pins taken and not given back; a `Log` (Tributaries) says what has been
committed into each slot and what has reached the main database. In
the cursor, a stack of frames is a path into the trie; `Before` and `After` are the entries on its
two sides, `Behind` and `Ahead` those that next leaves behind and has still to visit.

## Findings

Properties that a caller may expect and that do not hold of the code, each with an input and the exact condition.

- Editing after prepare_commit (`include/leaves/intern/db/_db.hpp:800-830`, the copy made at 809; `_db.hpp:832-851`): the copy of the allocator state for the next transaction is taken in prepare_commit and not renewed. A page that an edit takes afterwards is handed out a second time, and a reader of the committed transaction reads what the next writer puts there. Input: `LostSnapshot.EditAfterPrepareLosesSnapshot`. Exact condition: the answers last in every continuation if and only if no page that a lookup visits is at or above the frontier of the copy or queued in it (`StaleClone.AnswersLastIffSpared`). Readers of the transactions before that commit are never affected (`Readers.PinnedForEver`), nor is anything after a rollback (`Runs.RollbackAwaits`).
- Repeated find (`include/leaves/intern/db/_cursor.hpp:551-558`): the test whether the key has been found already compares only the consumed bytes. A find for exactly the bytes that the last, failed find consumed keeps the failed outcome. Input: `CursorLimits.RepeatedSearchMissesKey`. Exact condition: `Frames.AlreadyFound` and the first clause of `Cursors.Cursor.Find`.
- next after an insertion that splits a label at the end of the key (`include/leaves/intern/db/_inserter.hpp:89-142`, `_cursor.hpp:253-293`): the frame above the new leaf keeps cmp == -1 and whatever branch_key it held. Input: `CursorLimits.SplitAtKeyEndLosesNext`. Exact condition: next reaches the successor if and only if the old branch_key is below the byte at which the label was split (`Cursors.Cursor.Insert`, `Cursors.Cursor.Next`); prev never reaches the predecessor there (`Cursors.Cursor.Prev`).
- find and then next (`_cursor.hpp:206-213`, `_cursor.hpp:283-286`): when the key ends at a node without NONE branch, next goes on behind an old branch_key. Input: `CursorLimits.ShortFindLosesNext`. Exact condition: `CursorRuns.FindThenNext`.
- Removing the empty key (`include/leaves/intern/db/_deleter.hpp:97-112`): below a root without label the cursor moves on behind the frame's branch_key, which the search for the empty key never sets. Input: `CursorLimits.RemovingEmptyKeySkips`. What is skipped: `Cursors.Cursor.Remove`; for any other key nothing is.
- Digests of the incremental hash trie (`include/leaves/intern/replication/_hash.hpp:276-436`, the skip passed on at 405-410; `_hash.hpp:511-561`, the whole label appended at 527-528): where a subtree is copied whole although the start of its label has been matched, the key path already holds that start, and the digests below are taken of another byte string than a rebuild would take. Input: `HashPaths.WrongDigest`. Exact condition, on where the labels of the old and the new trie lie: no old label starts inside a new one, in its direction, and then parts from it (`HashLabels.DigestsRightIffJoined`, `Parted`). The shape of the hash trie is right in all cases.
- The size of an area (`include/leaves/intern/core/_util.hpp:425-427`, `include/leaves/intern/memory/_memory.hpp:331-337`): a header has 32 bits for it. A debug build stops at an assertion, a release build keeps the size modulo 2^32, and the bytes beyond are in no pool and belong to nobody. It happens when the file grows by a quarter (`include/leaves/intern/storage/_mmap.hpp:522-556`), when an area of 2^32 bytes or more is asked for, and when a rebuild finds a long free run (`_memory.hpp:650-656`). Inputs: `AreaLimits.RunLosesSpace`, `AreaLimits.FreeFileLost`. Exact conditions: growing keeps the file filled if and only if the size asked for and what is left of the growth are below 2^32 (`AreaPools.AreaPool.ResizeFile`), for one more area of one unit if and only if the file has at most 16 GiB (`AreaLimits.GrowthLosesIff`); a rebuild fills the file if and only if every maximal free run is below 2^32 bytes (`Rebuild.RecoverAreas`). No two areas ever overlap (`Tiling.Fills`, kept by every operation), and what is lost is stated exactly.
- A merge that is repeated (`include/leaves/intern/multi/_confluence_db.hpp:1439-1450`, against `_confluence_db.hpp:555-590`): a cursor that lets its slot go reads ATTACHED and then stores MERGING without a compare-exchange. If an aged or forced merge of the slot finishes in between, the slot is marked again and its commits are merged a second time, over whatever has been merged since. Input: `MergeTwice.ReleaseMergesTwice`. Exact condition: a commit is merged twice if and only if a release stores over MERGED and the slot is merged after that (`Tributaries.MergedTwiceIff`). No commit is ever lost (`Tributaries.NothingLost`).
- The digest of a leaf (`include/leaves/intern/replication/_hash.hpp:581-594`) is taken of the key and the value without a boundary between them: [1] with [2, 3] and [1, 2] with [3] have the same digest, and so have the roots of two tries that hold one of them each. Input: `HashDigests.KeyAndValueBlur`. Exact condition: tries with equal root digests hold the same entries if and only if they have the same keys (`HashDigests.EqualDigestsEqualValues`).
- Serial numbers (`include/leaves/intern/core/_serial.hpp:134-145`): the documentation allows distances up to half the range; because 0 is skipped the order of two transactions is right up to 2^31 - 2 steps only (`Serial.LaterIff`), and it is not transitive beyond (`Serial.NotTransitive`).

## Model

| member | source | states |
|---|---|---|
| Pins.PinnedReaderSeesSameMap | include/leaves/intern/db/_db.hpp:560-851 | a cursor that has pinned a committed transaction gets the same answer to every lookup until it gives its pin back itself, whatever other cursors pin and give back and whatever is edited, prepared, committed and rolled back, also behind prepare_commit; before that every commit must have been made with a current copy |
| Pins.RunBalanced | include/leaves/intern/db/_db.hpp:681-698 | in every state of every run the counter of a transaction in the chain, or of the one being written, is the number of pins taken on it and not given back, and nothing else is pinned |
| Pins.CountsArePins | include/leaves/intern/db/_cursor.hpp:876-905 | between two states of a run a counter changes by the pins minus the unpins |
| Pins.EveryRunHasABook | include/leaves/intern/db/_cursor.hpp:669-677 | the pins of any run can be told apart: whatever is given back had been taken |
| Conservation.NoPageLost | include/leaves/intern/db/_db.hpp:560-858 | in every run in which writers give back what they have detached, every page that was ever handed out is queued, or a page of the current tree, of a transaction in the chain or of the next one, and the queues are in the order of freeing |
| Conservation.StartCollects | include/leaves/intern/db/_db.hpp:751-768 | starting a transaction queues exactly the pages of the transactions at the front of the chain that nobody reads, and stops at the first that is read or at the last |
| Readers.PinnedForEver | include/leaves/intern/db/_db.hpp:560-851 | the same for a reader of any transaction in the chain, from any sound state, for every later run of page writes |
| Readers.PinnedPagesIntact | include/leaves/intern/db/_db.hpp:588-619 | no such run writes to a page of the pinned tree or moves its root |
| Readers.SoundShields | include/leaves/intern/db/_db.hpp:560-851 | in a sound state every transaction that is read is shielded against the allocator of the active and of the prepared transaction |
| Runs.StepKeeps | include/leaves/intern/db/_db.hpp:560-851 | every step of readers and writers, behind prepare_commit too, keeps the store sound and every transaction that is read with its pages, if a commit comes with a current copy |
| Runs.RunKeepsSound | include/leaves/intern/db/_db.hpp:560-851 | every state such a run reaches is sound |
| Runs.RollbackAwaits | include/leaves/intern/db/_db.hpp:772-798 | prepare_commit, any edits and rollback end in the full invariant again, with every reader kept |
| Runs.PinnedTreeIntact | include/leaves/intern/db/_db.hpp:560-851 | the tree of a transaction that is read stays stored and unchanged, and the transaction in the chain, from one state of a run to any later one |
| Runs.AllocAvoidsPinned | include/leaves/intern/db/_db.hpp:560-619 | an allocation, behind prepare_commit too, never hands out a page of a transaction that is read, nor its own record |
| LostSnapshot.EditAfterPrepareLosesSnapshot | include/leaves/intern/db/_db.hpp:800-851 | a run of nine steps in which a pinned reader's answer changes from 1 to 2 |
| Snapshots.CommitSafeIffCloneCurrent | include/leaves/intern/db/_db.hpp:800-851 | after edits behind prepare_commit, commit re-establishes the invariant exactly when the copy made for the next transaction is still current |
| StaleClone.AnswersLastIffSpared | include/leaves/intern/db/_db.hpp:724-851 | after edits behind prepare_commit and commit, a reader that pins the committed transaction keeps all its answers in every continuation if and only if the stale copy of the allocator can hand out none of the pages its lookups visit |
| StaleClone.SparedKeepsAnswers | include/leaves/intern/db/_db.hpp:724-851 | the safe half, for every run of page writes, allocations, frees, starts, prepares, commits and rollbacks, with writes behind later prepare_commits |
| StaleClone.UnsparedLosesAnswer | include/leaves/intern/db/_db.hpp:724-851 | the failing half: for any page that is not spared there is a run in which an answer changes |
| PageRuns.RunShields | include/leaves/intern/db/_db.hpp:588-851 | page by page, without any discipline of the writer beyond writing only pages of its own transaction and giving a page back once, and with writes behind prepare_commit, a shielded reader's pages are never written |
| AfterPrepare.PreparedAwaits | include/leaves/intern/db/_db.hpp:800-830 | prepare_commit leads into the states in which a commit is awaited |
| AfterPrepare.EditAfterPrepare | include/leaves/intern/db/_db.hpp:588-619 | editing after prepare_commit keeps everything about the committed side; only the copied allocator state falls behind |
| TxnSteps.StartKeeps | include/leaves/intern/db/_db.hpp:724-770 | starting a transaction frees the unread front of the chain, sets the recycle bound, and keeps the invariant and every transaction that is read |
| TxnSteps.CollectKeeps | include/leaves/intern/db/_db.hpp:751-768 | the garbage walk stops at the first transaction in use; what it frees becomes queued, nothing else changes |
| TxnSteps.PrepareKeeps | include/leaves/intern/db/_db.hpp:800-830 | prepare_commit allocates and fills the next transaction's page and keeps all readers |
| TxnSteps.CommitKeeps | include/leaves/intern/db/_db.hpp:832-858 | commit makes the writer's tree the newest snapshot and keeps all older ones that are read |
| TxnSteps.RollbackKeeps | include/leaves/intern/db/_db.hpp:772-798 | rollback drops the writer's work and leaves every snapshot as it was |
| Edits.NewNodeStep | include/leaves/intern/db/_db.hpp:602-612 | a fresh page, none of those in use, holds the new node over its detached subtrees |
| Edits.FreeNodeStep | include/leaves/intern/db/_db.hpp:614-619 | giving a detached node back keeps everything else in use |
| Edits.RewriteStep | include/leaves/intern/db/_cursor.hpp:104-142 | a page of this transaction is rewritten in place without touching older pages |
| Edits.CutStep | include/leaves/intern/db/_cursor.hpp:93-99 | taking the subtree at the end of the stack leaves a hole, the subtree and everything beside it stored |
| Edits.PlugStep | include/leaves/intern/db/_cursor.hpp:104-142 | hanging a detached tree into the hole copies the older transactions' pages up the path and keeps the tree stored, disjoint and owned |
| Edits.SettleStep | include/leaves/intern/db/_cursor.hpp:104-111 | a subtree that stayed on its page needs no relinking |
| Database.Database.TxnRef | include/leaves/intern/db/_db.hpp:681-686 | pins the current transaction; the invariant and all readers are kept |
| Database.Database.UpdateOffset | include/leaves/intern/db/_cursor.hpp:93-142 | the climbing loop computes the relinking of the whole path and touches no page of an older transaction |
| Database.Database.WalkChain | include/leaves/intern/db/_db.hpp:751-766 | the loop frees exactly the unread front of the chain |
| Database.Database.StartTransaction | include/leaves/intern/db/_db.hpp:724-770 | succeeds exactly when no writer is active; new state and invariant |
| Database.Database.PrepareCommit | include/leaves/intern/db/_db.hpp:800-830 | returns the id for the right cursor and 0 otherwise; new state and invariant |
| Database.Database.Commit | include/leaves/intern/db/_db.hpp:832-858 | succeeds exactly for the active cursor; new state, invariant, readers kept |
| Database.Database.Rollback | include/leaves/intern/db/_db.hpp:772-798 | succeeds exactly for the active cursor; new state, invariant, readers kept |
| Memory.AllocTakesOldPage | include/leaves/intern/memory/_memory.hpp:254-292 | an allocation takes a page freed before the recycle bound or new space at the frontier, and takes it off the free pages |
| Memory.FreeAddsEntry | include/leaves/intern/memory/_memory.hpp:294-313 | a freed page is queued with the transaction that freed it, and nothing else changes |
| Memory.GrowsInNeed | include/leaves/intern/memory/_memory.hpp:254-292 | new space is taken only if every queued page of the size class may still be seen by a reader |
| Confluence.NoMergingSlotOrphaned | include/leaves/intern/multi/_confluence_db.hpp:619-757 | in every interleaving of any number of threads and tasks, at rest no slot is left MERGING with nobody to merge it |
| Confluence.NoRequestLost | include/leaves/intern/multi/_confluence_db.hpp:619-650 | at rest every blocked drain request can return: its generation has been reached |
| Confluence.ActiveHasOneOwner | include/leaves/intern/multi/_confluence_db.hpp:652-757 | the active flag is set exactly while one submitter or task owns it, and the in-flight counter counts the tasks |
| Confluence.DrainsAreSerial | include/leaves/intern/multi/_confluence_db.hpp:690-757 | two tasks never merge at the same time |
| Confluence.StepKeepsInv | include/leaves/intern/multi/_confluence_db.hpp:619-757 | every atomic load, store, fetch_add and compare-exchange keeps the invariant of the handshake |
| Tributaries.NothingLost | include/leaves/intern/multi/_confluence_db.hpp:555-617 | in every interleaving every commit is in the main database or in a slot still to be merged; a slot that is MERGED, EMPTY or FIRST_WRITING holds nothing that is not in the main database |
| Tributaries.MergedTwiceIff | include/leaves/intern/multi/_confluence_db.hpp:555-590 | a commit gets into the main database twice if and only if a release marks a slot whose merge has finished since it looked, and the slot is merged after that |
| Tributaries.NoteKeepsLogOk | include/leaves/intern/multi/_confluence_db.hpp:555-617 | every step keeps what is known of the commits: where they are, that slots share none, and which slots have been marked too late |
| MergeTwice.ReleaseMergesTwice | include/leaves/intern/multi/_confluence_db.hpp:1439-1450 | a run in which one commit is merged twice |
| Drains.PublishedIsMerged | include/leaves/intern/multi/_confluence_db.hpp:634-757 | a slot that a commit, a rollback or a cursor that goes has marked has been through a merge whenever the merge machinery is at rest again |
| Drains.RequestServed | include/leaves/intern/multi/_confluence_db.hpp:619-632 | when a drain request returns, a merge has finished, well or not, with every slot that was MERGING when the request was raised, unless an exception has ended a pass |
| Drains.ForcedPassServes | include/leaves/intern/multi/_confluence_db.hpp:794-830 | a forced pass finishes with every slot that was ATTACHED or MERGING when it began, unless its cursor has gone on with it |
| Trie.EntriesSorted | include/leaves/intern/core/_node.hpp:74-110 | a well-formed trie lists its keys in strictly ascending byte order |
| Search.FoundIffPresent | include/leaves/intern/db/_cursor.hpp:186-228 | a search ends in a match exactly when the key is in the trie, and then on its value |
| Search.SearchSides | include/leaves/intern/db/_cursor.hpp:186-228 | where a search stops, all smaller keys lie before the cursor and all greater ones behind it |
| Search.LocatedUnique | include/leaves/intern/db/_cursor.hpp:186-228 | where a search stops depends on the trie and the key alone |
| Search.LeaveRight | include/leaves/intern/db/_cursor.hpp:253-293 | leaving an exhausted node keeps both sides of the cursor exactly when the frame above goes on behind the branch it took |
| Search.LeaveLeft | include/leaves/intern/db/_cursor.hpp:295-339 | the same for prev: exactly when the frame above knows its branch |
| Frames.ResumedIsFresh | include/leaves/intern/db/_cursor.hpp:544-584 | two finished searches for one key have the same path, the same consumed bytes and the same rest |
| Frames.AlreadyFound | include/leaves/intern/db/_cursor.hpp:544-558 | keeping the stack for a key equal to the consumed bytes is right exactly when nothing was left or the key was smaller |
| Frames.KeptFollows | include/leaves/intern/db/_cursor.hpp:560-574 | the frames that keep_stack keeps lie on the path of the new key |
| Insertion.GrownPlaces | include/leaves/intern/db/_inserter.hpp:89-289 | the node that replaces the top has the new entry in its place in key order and all others unchanged |
| Insertion.SpineEntries | include/leaves/intern/db/_inserter.hpp:143-183 | the chain of nodes built for a long key holds that one entry |
| Cursors.Cursor.KeepStack | include/leaves/intern/db/_cursor.hpp:544-575 | what stays of the stack is a steady path that the new key follows |
| Cursors.Cursor.FindTop | include/leaves/intern/db/_cursor.hpp:186-228 | the descent ends where the search for the key ends |
| Cursors.Cursor.Find | include/leaves/intern/db/_cursor.hpp:459-584 | leaves the cursor at the outcome for the key, exactly unless the key repeats the bytes a failed search had consumed |
| Cursors.Cursor.First | include/leaves/intern/db/_cursor.hpp:239-251 | lands on the first entry, or nowhere in an empty trie |
| Cursors.Cursor.Last | include/leaves/intern/db/_cursor.hpp:341-352 | lands on the last entry |
| Cursors.Cursor.Next | include/leaves/intern/db/_cursor.hpp:253-293 | lands on the closest entry behind the cursor, or ends, if and only if the frame above the top goes on behind its branch |
| Cursors.Cursor.Prev | include/leaves/intern/db/_cursor.hpp:295-339 | lands on the closest entry before the cursor, or ends, if and only if every frame above the top knows its branch |
| Cursors.Cursor.ListForward | include/leaves/intern/db/_cursor.hpp:485-501 | first and next list every entry once, in ascending order |
| Cursors.Cursor.ListBackward | include/leaves/intern/db/_cursor.hpp:490-509 | last and prev list them in the reverse order |
| Cursors.Cursor.Insert | include/leaves/intern/db/_inserter.hpp:59-289 | the map is the old one with the searched key set; the cursor stands on the new entry; when next and prev will go on correctly from there |
| Cursors.Cursor.Remove | include/leaves/intern/db/_deleter.hpp:58-167 | the map is the old one without the key; the cursor is on the successor, or past exactly the entries that removing the empty key skips |
| Cursors.Cursor.ReduceArray | include/leaves/intern/db/_deleter.hpp:97-112 | the entries left and right of the dropped branch stay, and the cursor moves between them |
| Cursors.Cursor.Combine | include/leaves/intern/db/_deleter.hpp:113-167 | the remaining branch takes over the label with no entry lost, unless the label gets too long |
| CursorRuns.FindThenNext | include/leaves/intern/db/_cursor.hpp:459-501 | next after find lands on the first entry with a greater key, if and only if the place the search stopped at says so |
| CursorRuns.FindAgrees | include/leaves/intern/db/_cursor.hpp:544-584 | a find that resumes from the old stack ends like one by a new cursor, and finds exactly the keys of the map |
| CursorLimits.RepeatedSearchMissesKey | include/leaves/intern/db/_cursor.hpp:551-558 | two finds after which a stored key counts as missing |
| CursorLimits.ShortFindLosesNext | include/leaves/intern/db/_cursor.hpp:206-213 | two finds and next, which passes over both greater keys |
| CursorLimits.SplitAtKeyEndLosesNext | include/leaves/intern/db/_inserter.hpp:89-142 | two finds, an insertion and next, which does not land on the successor |
| CursorLimits.RemovingEmptyKeySkips | include/leaves/intern/db/_deleter.hpp:97-112 | find and remove of the empty key, which misses the successor exactly when the slot's old branch_key is 1 or more |
| NodeView.SlotIsRank | include/leaves/intern/core/_node.hpp:578-610 | the array index computed from the bitmaps is the number of smaller keys |
| NodeView.RankOrder | include/leaves/intern/core/_node.hpp:578-610 | present keys own the slots of the link array in ascending order |
| NodeView.NextIsSuccessor | include/leaves/intern/core/_node.hpp:633-655 | next is the closest present key above, or out of range if there is none |
| NodeView.PrevIsPredecessor | include/leaves/intern/core/_node.hpp:616-631 | prev is the closest present key below |
| NodeTrie.LookupsAgree | include/leaves/intern/core/_node.hpp:578-655 | array index, next and prev by bitmaps answer as the sorted list of branches the cursor model uses |
| NodeEdit.InsertedKeys | include/leaves/intern/core/_node.hpp:298-520 | exactly the new key is added |
| NodeEdit.InsertedLinks | include/leaves/intern/core/_node.hpp:298-520 | every other key keeps its link and the new key has the new one |
| NodeEdit.RemovedInserted | include/leaves/intern/core/_node.hpp:354-412 | removing a key right after inserting it restores the node |
| NodeMemory.Node.InsertBranch | include/leaves/intern/core/_node.hpp:428-520 | the memory moves in place yield the packed node with the key, with one open slot, and write nothing outside it |
| NodeMemory.Node.FillSlot | include/leaves/intern/db/_inserter.hpp:184-221 | storing the link completes the node |
| NodeCreate.CreateWith | include/leaves/intern/core/_node.hpp:298-349 | rebuilding elsewhere yields the packed node with the key |
| NodeCreate.CreateRemove | include/leaves/intern/core/_node.hpp:354-412 | rebuilding elsewhere yields the packed node without the key |
| NodeCreate.SameNode | include/leaves/intern/core/_node.hpp:298-520 | a node is packed in one way only: header, bitmaps and links are determined by its content |
| NodeCreate.InsertFillRemove | include/leaves/intern/core/_node.hpp:354-520 | insert_branch, the link and create_remove give back the header, every bitmap and every link |
| NodeVisit.ForEachBranch | include/leaves/intern/core/_node.hpp:664-695 | visits every present key once, in order, with its own array index |
| Words.GetPrefix | include/leaves/intern/core/_util.hpp:475-631 | the word-wise comparison returns the length of the common prefix and the sign of the byte order |
| Words.WordsTell | include/leaves/intern/core/_util.hpp:475-631 | equal words mean equal bytes, and the equal low bits of two words lead to the first byte that differs |
| Prefix.SignIsOrder | include/leaves/intern/core/_util.hpp:475-631 | the sign is that of the unsigned lexicographic order |
| HashSync.SyncMirrors | include/leaves/intern/replication/_hash.hpp:201-508 | whatever the old hash trie, a coherent new data trie ends up mirrored node by node with its transaction ids |
| HashDigests.RebuiltDigests | include/leaves/intern/replication/_hash.hpp:571-595 | the leaf digests of a rebuilt hash trie are taken, in order, of key and value of the entries of the data trie |
| HashDigests.UpdateRightIff | include/leaves/intern/replication/_hash.hpp:201-595 | an update of the right hash trie of the old data reflects the new data node by node, and its leaf digests are those of the new entries if and only if no label of the old trie starts inside a label of the new trie, in its direction, and parts from it |
| HashDigests.MirrorsReflects | include/leaves/intern/replication/_hash.hpp:201-508 | to mirror a data trie means: node by node the same transaction, label and branches, and in a leaf the byte it is found by |
| HashDigests.RightIsRebuilt | include/leaves/intern/replication/_hash.hpp:511-595 | there is one right hash trie for a data trie at its place, the one a rebuild makes |
| HashDigests.EqualDigestsEqualValues | include/leaves/intern/replication/_hash.hpp:571-617 | tries with right hash tries and equal root digests hold the same entries if and only if they have the same keys |
| HashDigests.KeyAndValueBlur | include/leaves/intern/replication/_hash.hpp:581-594 | two tries with different entries and the same root digest |
| HashLabels.DigestsRightIffJoined | include/leaves/intern/replication/_hash.hpp:201-561 | the result of an update equals a rebuild from scratch, digests included, if and only if no label of the old trie starts inside a label of the new trie, in its direction, and ends neither with it nor at a branch that goes on with the other |
| HashLabels.SkewedIff | include/leaves/intern/replication/_hash.hpp:276-436 | at every step of the walk: what is below is copied from the middle of a label somewhere exactly if labels part somewhere |
| HashPaths.DigestsRightIff | include/leaves/intern/replication/_hash.hpp:201-561 | at every step of the walk: the digests below equal those of a rebuild if and only if no subtree is copied from the middle of its label |
| HashPaths.WrongDigest | include/leaves/intern/replication/_hash.hpp:276-443 | two keys after whose update one leaf digest is taken of the wrong bytes |
| HashUpdater.Updater.Run | include/leaves/intern/replication/_hash.hpp:201-245 | the walk leaves the key path as it was and the hash trie mirroring the data |
| HashUpdater.Updater.SyncNodes | include/leaves/intern/replication/_hash.hpp:201-508 | the walk over both tries with its mutable key path computes the recursive synchronisation |
| Transfer.Sender.WriteSubtree | include/leaves/intern/replication/_transfer.hpp:697-802 | writes the nodes of the subtree in the order of the walk, down to the depth limit and as far as there is room, notes the path of every big leaf among them, and what is written and what is left for later make up the subtree |
| Transfer.Sender.FillBuffer | include/leaves/intern/replication/_transfer.hpp:641-696 | takes the root, or the next child of the newest pending node, and writes the longest part of its walk that fits; at least one node goes out, none is lost, and the big leaves among them are noted |
| Transfer.Sender.ProcessAck | include/leaves/intern/replication/_transfer.hpp:564-597 | queues in order exactly the nodes and big values that no ACK names or lies above |
| Transfer.SendAll | include/leaves/intern/replication/_transfer.hpp:564-802 | buffer by buffer, of whatever sizes, every node of the trie is sent exactly once, the exchange ends, and the path of every big leaf is left to be sent, exactly once |
| Transfer.SendWithAcks | include/leaves/intern/replication/_transfer.hpp:564-802 | with any acknowledgements every node is sent or lies below an acknowledged path, after at most as many rounds as there are nodes; the big values left are those of the sent leaves that the ACK of their buffer does not name, and all others are acknowledged |
| Stream.BoundariesDoNotMatter | include/leaves/intern/replication/_big_value_receiver.hpp:176-249 | the state after two messages is that after their concatenation |
| Stream.SentIsStored | include/leaves/intern/replication/_big_value_receiver.hpp:128-249 | what was encoded and sent ends up stored value by value, each in pages of its own, and recorded under its path |
| Receiver.Receiver.HandleData | include/leaves/intern/replication/_big_value_receiver.hpp:176-249 | one message, copied piece by piece, is the same as its bytes one by one, overflow included |
| Tiling.SplitTiles | include/leaves/intern/memory/_bigmemory.hpp:96-175 | cutting a chunk in two keeps chunks disjoint and covers the same addresses |
| BigMemory.BigMemory.AddChunk | include/leaves/intern/memory/_bigmemory.hpp:72-90 | the free chunks stay in the order of their trie keys, with just one more |
| BigMemory.BigMemory.FindFree | include/leaves/intern/memory/_bigmemory.hpp:121-136 | the first of ten chunks, from the smallest that is large enough on, that no reader can see |
| BigMemory.BigMemory.Alloc | include/leaves/intern/memory/_bigmemory.hpp:96-175 | the chunk is the front of the hot remainder if that is large enough, else of the first recyclable free chunk, else of a new area; it is less than a page larger than needed, what is left of its source becomes the hot remainder, and the old remainder a free chunk that anybody may recycle; live, free and hot chunks still tile the areas with right successor flags |
| BigMemory.BigMemory.Free | include/leaves/intern/memory/_bigmemory.hpp:177-189 | the chunk becomes one more free chunk with its size, the right flag and the transaction; the tiling stays |
| AreaLists.AreaList.AtomicSwitch | include/leaves/intern/memory/_memory.hpp:361-388 | the other buffer keeps the old ends of the list |
| AreaLists.AreaList.Pop | include/leaves/intern/memory/_memory.hpp:389-405 | takes the first area |
| AreaLists.AreaList.Push | include/leaves/intern/memory/_memory.hpp:406-420 | puts an area in front and writes no other header |
| AreaLists.AreaList.FindAndRemove | include/leaves/intern/memory/_memory.hpp:421-491 | takes the first of the first ten areas that is large enough, cuts it and puts what is left in front; only the headers of its neighbours change |
| AreaLists.AreaList.Add | include/leaves/intern/memory/_memory.hpp:492-511 | appends a chain |
| AreaPools.AreaPool.ResizeFile | include/leaves/intern/storage/_mmap.hpp:522-556 | grows the file by the right amount, hands out its front and keeps the rest as a free area, each with the 32 bits of its size a header holds; the areas still fill the file if and only if both sizes are below 2^32, and otherwise exactly the bytes beyond are lost |
| AreaPools.AreaPool.AllocSingle | include/leaves/intern/storage/_mmap.hpp:558-566 | where the area comes from, that nobody else has it, what is left in the lists, and what a growth loses; areas handed out, free areas and what is lost fill the file without overlap |
| AreaLimits.GrowthLosesIff | include/leaves/intern/storage/_mmap.hpp:522-556 | growing for one unit loses space if and only if the file has more than 16 GiB |
| AreaLimits.RunLosesSpace | include/leaves/intern/storage/_mmap.hpp:522-574 | seven allocations from an empty pool after which 4 GiB of the file are in no area |
| AreaPools.AreaPool.AllocMulti | include/leaves/intern/storage/_mmap.hpp:568-574 | the same for larger areas, padded to whole units and recorded with 32 bits of the size |
| AreaPools.AreaPool.ReturnSingle | include/leaves/intern/memory/_memory.hpp:551-555 | a returned chain is free again, and the areas are the same as before |
| AreaPools.AreaPool.ReturnMulti | include/leaves/intern/memory/_memory.hpp:556-559 | a returned chain is free again, and the areas are the same as before |
| Recovery.Walk | include/leaves/intern/memory/_memory.hpp:594-620 | ends on any list, cyclic ones included, at a link to nothing or to something marked, and marks exactly the blocks of the areas it met |
| Recovery.MarkOwned | include/leaves/intern/memory/_memory.hpp:588-622 | all areas of all databases are marked, and only these |
| Scanning.Scanner.Scan | include/leaves/intern/memory/_memory.hpp:630-670 | one pass lists exactly the maximal runs of free blocks, single blocks and longer runs apart, with 32 bits of their sizes in the headers |
| Scanning.RunsApart | include/leaves/intern/memory/_memory.hpp:647-670 | two maximal runs share no block |
| Rebuild.RecoverAreas | include/leaves/intern/memory/_memory.hpp:568-676 | after a crash, areas in use and rebuilt free areas lie each in one place, the databases keep their lists, and the areas fill the file if and only if every maximal free run is below 2^32 bytes; otherwise just the ends of the longer runs are lost |
| Rebuild.RebuiltFills | include/leaves/intern/memory/_memory.hpp:568-676 | every address of the file belongs to one area in use, to one rebuilt free area or to the unrecorded end of one overlong run; there is no such end if and only if every run fits |
| AreaLimits.FreeFileLost | include/leaves/intern/memory/_memory.hpp:650-656 | a free run of 4 GiB is listed with size 0 and lost as a whole |
| Tiling.SpansIff | include/leaves/intern/memory/_memory.hpp:331-337 | areas alone fill the file exactly if nothing was lost |
| Solver.Solve | tools/page_sizes_solver.py:120-209 | the dynamic program returns k ascending sizes ending at the page size whose waste no other eligible choice beats, and the two error outcomes exactly when they apply |
| Solver.Evaluate | tools/page_sizes_solver.py:224-237 | the waste by its definition, and allocation as waste plus bytes served |
| PageSizes.CandidateBuckets | tools/page_sizes_solver.py:101-117 | exactly the rounded sizes that can be worth considering |
| PageSizes.RangeCost | tools/page_sizes_solver.py:143-168 | prefix sums and bisection give the waste of a bucket over a range of requests |
| Buckets.Exchange | tools/page_sizes_solver.py:101-209 | any choice of sizes can be exchanged for candidates at no more waste |
| Buckets.CostIsWaste | tools/page_sizes_solver.py:224-237 | charging ranges of requests to buckets is the waste of the first bucket that fits |
| TwoQueue.PutMeetsLimits | include/leaves/intern/memory/_twoquecache.hpp:318-442 | after a put every part is within its limit or holds nothing that can be evicted |
| TwoQueue.PutKeepsOnce | include/leaves/intern/memory/_twoquecache.hpp:318-442 | no key is ever in two of the three parts |
| TwoQueue.PutLosesOnlyEvictable | include/leaves/intern/memory/_twoquecache.hpp:318-442 | only evictable entries disappear and only the new one appears |
| TwoQueue.PutEvictsInNeed | include/leaves/intern/memory/_twoquecache.hpp:362-432 | before the last eviction of each part the bytes were over the limit |
| TwoQueue.GetKeepsItems | include/leaves/intern/memory/_twoquecache.hpp:279-304 | a get loses nothing and leaves the entry most recently used |
| TwoQueueRuns.LeastRecentlyUsedGoes | include/leaves/intern/memory/_twoquecache.hpp:279-442 | in every run of gets and puts, what is evicted from Am has not been asked for as long as anything that could have been evicted instead, and what is evicted from A1in came in earlier |
| TwoQueueRuns.SecondChance | include/leaves/intern/memory/_twoquecache.hpp:318-432 | a key that comes back while it is remembered goes to Am, any other to A1in; what A1in gives up is remembered |
| TwoQueueCache.TwoQCache.Get | include/leaves/intern/memory/_twoquecache.hpp:279-304 | lists, maps and counters together do what the cache on values does |
| TwoQueueCache.TwoQCache.Put | include/leaves/intern/memory/_twoquecache.hpp:318-352 | the same for put with all its evictions |
| TwoQueueCache.TwoQCache.MaintainA1in | include/leaves/intern/memory/_twoquecache.hpp:401-432 | the marking pass and the eviction pass together keep and evict what one pass by age would |
| TwoQueueCache.TwoQCache.PruneAm | include/leaves/intern/memory/_twoquecache.hpp:362-388 | restarting from the front after every eviction gives the same as one pass |
| IntrusiveLists.IntrusiveList.Unlink | include/leaves/intern/memory/_twoquecache.hpp:152-161 | the entry leaves the doubly linked list, the others stay linked in order |
| Serial.NthCounts | include/leaves/intern/core/_serial.hpp:60-108 | counting up skips 0 for ever, and addition is that many steps |
| Serial.OrderIsAge | include/leaves/intern/core/_serial.hpp:134-145 | up to a distance of 2^31 - 2 the order is the age of the transactions |
| Serial.LaterIff | include/leaves/intern/core/_serial.hpp:134-145 | exactly how far ahead a number may be to count as later |
| Serial.UndecidedIff | include/leaves/intern/core/_serial.hpp:134-145 | two numbers are never later than each other; neither is later exactly when equal or half the range apart |
| Serial.NotTransitive | include/leaves/intern/core/_serial.hpp:134-145 | three numbers that are later than each other in a circle |

## Left out

- PinnedReaderSeesSameMap: what becomes of readers that pin after a commit with a stale copy; AnswersLastIffSpared says it for the readers of that commit. When a cursor moves on, update takes two pins on the new transaction for a moment; in the model it keeps the first.
- StepKeeps: `Guard` takes from inserter and deleter that they free only nodes they have detached and rewrite only pages of their own transaction. That the cursor's own order of alloc, update_offset and free keeps to it is not proved: the cursor is modelled on trie values, the store on pages. Page runs, and with them PinnedForEver, need no such assumption.
- NoPageLost: that inserter and deleter give back every node they detach is taken for granted.
- RunShields: writers that write to pages of older transactions or give a page back twice; `needs_cow` and the cursor rule them out in the source.
- Cursors.Cursor.Find: MAX_KEY_SIZE and its exception; keys and labels are sequences of any length, positions are not cut to 16 bits.
- Cursors.Cursor.Insert: big values, which replace the value in the leaf by a reference; a value is a byte string here. After a repeated find that failed (see Findings) the cursor is not `Valid` and nothing is said of an insertion; the source builds a node with two NONE keys there.
- NodeMemory.Node.InsertBranch: the assertion of a debug build that a node has fewer than 256 branches before an insertion in place (`include/leaves/intern/core/_node.hpp:431`); the model goes on to the 257th branch.
- Recovery.Walk: wrap-around of 64-bit sums while the blocks of an area are marked; links are 64-bit, sums unbounded.
- Transfer.SendAll: bytes in a buffer; how many nodes a buffer takes is an arbitrary positive number for each buffer.
- BigMemory.BigMemory.Alloc: the key order of free chunks is that of a little-endian host; a new area is taken to be as large as was asked for, which AreaPools shows to fail from 2^32 bytes on.
- AreaPools.AreaPool.ResizeFile: the assertion of a debug build that a size fits its header; the model does what a release build does.
- Memory orderings: the steps of Confluence are sequentially consistent.
- NothingLost: the pins of slots. The end of the last pin is one step here; in the source the decrement, the test for MERGED and the reset are three, and who recycles a slot that two users let go at once is not modelled. Nor is the reset of a slot that fails because a reader is still there.
- The state_epoch of a confluence database, the tributaries' own tries and the merger; a merge is one step that takes effect as a whole or not at all.
- The garbage container pages of a size class as a linked list of blocks; a size class is a queue here.
- defrag of big values, statistics, integrity checks of a file and recovery of transaction records.
- BLAKE3: a digest is represented by what it is taken of, of a trie node by its label and the digests of its children; the digest of a big value and the freeing of hash nodes.
- The 16-, 32- and 64-byte steps of get_prefix by vector instructions.
- File I/O, memory mapping, page caches, the write-ahead log, locks and aspects.
- The replication protocol and its state machine, the merge of received tries into a database, and tributary databases.
- The repair of an area's own offset field during recovery, and what a process that dies in the middle of an operation on an area list leaves behind; AreaLists is modelled for the one holder of the file lock.
- Reuse of pool slots in the 2Q cache's object pool; a pool hands out fresh entries.
- Subtraction of serial numbers and comparison with plain integers.
