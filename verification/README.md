# NovaDB, verified

A Dafny model of the parts of NovaDB in which correctness is not visible from any one function: the Raft
consensus of its cluster, its B+ tree, its multi-version store, the commit, recovery and replication of its
engine, its page formats, its expression compiler, its joins, and the undo and redo of its prompt service.

`dafny verify dfyconfig.toml` checks everything.

## How the model is laid out

Each part has a file of values and functions with the theorems about them, and a *Machine* file (or a class in
the same file) with the objects of the source: fields changed in place by methods and loops. A method's contract
ties the object's state to the functions, so the theorems speak about the objects too.

- `Raft*.dfy`: nodes, RPCs, partitions and restarts as steps of a cluster; a history of elections, ballots and
  stored entries as the ghost side of the invariant. An RPC is one step, since the transport is a synchronous
  call. How a leader reads an append acknowledgement is a parameter of every step: `AsWritten` takes the
  follower's whole last index, as the code does; `Clamped` takes at most the leader's own. Election Safety and Log
  Matching hold for both. Leader Completeness and State Machine Safety are proved for every run whose
  acknowledgements never exceed the leader's log, which with `Clamped` is every run; `AsWritten` has a run of calls
  that ends in two nodes having applied different commands, and an exact condition for when its acknowledgement is
  right. `RaftElections.dfy` has the other side of safety: when a vote is granted, when a campaign is won, and that
  every connected majority can elect a leader.
- `BTree.dfy`: nodes on the heap with parent and sibling links, split in place, cascades included. `TableIndex.dfy`
  keeps one tree per indexed column in step with a table's rows. `SlottedPage*.dfy` and `DurableIndex.dfy` write a
  tree to checksummed pages and read it back; `PageDamage.dfy` says what is on a page byte by byte and what reading
  makes of a damaged one.
- `Mvcc*.dfy`: version chains, validation at commit, and runs of any number of interleaved transactions.
- `Tables.dfy`, `Transactions.dfy`: logged operations, replayed by value. A row that a transaction inserts is one
  object, shared by its table and its log entry, so updating it changes what is logged; an item of a table is either
  a row cloned from the engine or the number of such an object. `Statements.dfy` says which rows each statement
  leaves, `OwnRows.dfy` when updates of such objects replay right.
- `Recovery.dfy`, `PageStore.dfy`, `PageFile.dfy`, `CrashBytes.dfy`: every durable state that a commit, bulk insert,
  checkpoint, compaction or restore passes through, a crash at any of them, and runs in which a page write is cut at
  any byte and the directory opened again. `EngineRuns.dfy` says which calls go through.
  `Replication.dfy` streams the log to followers. `EngineMachine.dfy` has the objects.
- `Bytecode*.dfy`, `Comparisons.dfy`, `Prepared.dfy`: the compiler, the stack machine, what its comparisons and its
  arithmetic come to, and the numbering of placeholders.
- `Joins*.dfy`, `JoinMeaning.dfy`: hash join, nested loop, and chains of them; `JoinMeaning.dfy` says which rows a chain
  answers and when it answers at all. `Undo*.dfy`: approval, undo and redo, how far undo reaches, and commits from
  elsewhere.

## Where the code does less than it seems to

Each is a lemma, with the exact condition under which the code does what is meant.

- A follower's stale longer tail makes an append acknowledgement cover entries it does not have, and makes the
  leader's next round index past its own log (`RaftUnclamped`).
- A transaction that updates rows it inserted logs each new value twice, in the insert and as an update. Replay then
  gives what was committed exactly when applying those updates by value to the final rows leaves them as they are; an
  old value that is no longer among them is enough. An UPDATE that raises leaves a row half assigned and unlogged
  (`OwnRows`).
- An UPDATE checks no keys and can make rows share one (`Statements`).
- A restore is not logged: followers see it exactly when it changes nothing, a later compaction makes up for it
  exactly when no follower has a table that the snapshot lacks, and later commits raise at a follower exactly when they
  name a table it lacks (`Replication`).
- A SELECT that sorts a table's own row list, and an UPDATE that raises midway, leave the indexes over other rows;
  lookups stay right exactly when every position keeps its key (`TableIndex`).
- A slotted page built from records that include an empty one reads back with a tombstone in its place
  (`SlottedPage`).
- A prepared INSERT that writes out a NULL before a placeholder binds the parameter to the NULL (`Prepared`).
- Undo stamps the record before the undone one unconditionally: a commit that came from elsewhere between two
  approvals is undone away, exactly when it changed something (`UndoForeign`); and after an undo and a new approval,
  the stamp lands on the dead record, so nothing older can be undone any more (`Undo`).
- A cluster of one node never elects it, since only an answer of a peer makes a candidate count its votes
  (`RaftElections`).
- An ON clause that does not name the table it joins is checked against a column which that table does not have, so
  rows that meet all clauses can be lost. The answer is the combinations that meet all clauses exactly when these are
  the combinations that meet those clauses that are checked; where each clause compares its own table with another, it
  always is (`JoinMeaning`).
- The page id of a slotted page is under no checksum (`PageDamage`).
- A hash join raises on a list or an object that a nested loop compares: which joins answer depends on the costs
  exactly when such a key meets a step that is hashed (`Joins`).

## Model

| member | source | states |
|---|---|---|
| RaftSafety.ElectionSafety | novadb/raft.py:132-189 | In any run under either acknowledgement rule, a leader now and a leader at any later point in the same term are the same node. |
| RaftSafety.LogMatching | novadb/raft.py:194-262 | In any reachable state, two logs with an entry of the same term at the same index are identical up to it, across truncation and backtracking. |
| RaftSafety.LaterLeadersHave | novadb/raft.py:174-189 | Whatever a majority stored in a term is in the log of every leader elected in a later term, by induction over the terms between. |
| RaftSafety.CommitRuleIsSafe | novadb/raft.py:264-272 | The current-term counting rule only picks an index up to which a majority really stores the leader's log. |
| RaftSafety.LeaderCompleteness | novadb/raft.py:264-272 | What any node has committed is a prefix of the log of every leader of that term or a later one, then or at any later point of the run. |
| RaftSafety.StateMachineSafety | novadb/raft.py:274-277 | What one node has applied and what another has applied, now or at any later point, are prefix-comparable. |
| RaftSafety.ClampedIsHonest | novadb/raft.py:257-258 | With acknowledgements clamped to the leader's last index, every run is one to which the two theorems above apply. |
| RaftRuns.RunKeepsInv | novadb/raft.py:110-289 | The protocol invariant (votes persisted before they are answered, terms that only rise, ballots, elections and logs consistent with history) holds after every run. |
| RaftSafety.StepKeepsProgress | novadb/raft.py:222-289 | Commit positions, applied commands and match indexes stay true after every step with an honest acknowledgement. |
| RaftRuns.AcceptedLog | novadb/raft.py:194-220 | A follower that accepts an append ends with the log that merging the leader's whole log gives, whatever stale tail it had. |
| RaftSteps.MajoritiesMeet | novadb/raft.py:94-96 | Two majorities of the same cluster share a node. |
| RaftOperations.ReplicationConverges | novadb/raft.py:233-262 | From any reachable state, with clamped acknowledgements, replicating to a connected peer of no higher term ends, with the leader's whole log a prefix of the peer's. |
| RaftOperations.ProposalAcknowledgedIffMajority | novadb/raft.py:279-289 | With nobody in reach at a higher term, a proposal is acknowledged exactly when the leader and the peers in reach are more than half of the cluster; all of these have then committed it and applied the leader's whole log. |
| RaftOperations.ElectionIsRun | novadb/raft.py:132-172 | An election with all its vote calls and the new leader's first broadcast is a run of protocol steps. |
| RaftOperations.ProposeIsRun | novadb/raft.py:279-289 | A proposal with its broadcast is a run of protocol steps. |
| RaftOperations.ReplicateIsRun | novadb/raft.py:233-262 | replicate_to, backing up one entry at a time, is a run of append calls. |
| RaftOperations.HealIsRun | novadb/raft.py:348-351 | Unblocking every link, with the broadcast of every node that takes itself for a leader, is a run of protocol steps. |
| RaftElections.VoteGrantedIff | novadb/raft.py:174-189 | A vote is granted exactly at a higher term, or at the same term to nobody else, and to a log whose pair of last term and length is no less; a higher term makes the voter a follower of that term, granted or not. |
| RaftElections.OneBidIsAccepted | novadb/raft.py:182 | Of any two nodes, at a fresh term, one accepts the other's bid; both do exactly when last terms and lengths are equal. |
| RaftElections.BidTermsMeet | novadb/raft.py:153-189 | A bid leaves both nodes in the higher of their terms; a candidate that was behind follows, and the voter is unchanged. |
| RaftElections.AppendTermsMeet | novadb/raft.py:194-262 | So does an append; whoever it reaches follows its sender, unless the sender was behind and follows. |
| RaftElections.ElectedIff | novadb/raft.py:132-172 | With nobody in reach at the new term or above, standing makes the candidate leader exactly when it and the peers in reach whose logs are no later than its own are more than half of the cluster. |
| RaftElections.LatestIsElected | novadb/raft.py:132-172 | A node that reaches a majority none of whose logs is later becomes leader, standing again at most until its term passes theirs. |
| RaftElections.ConnectedMajorityElects | novadb/raft.py:132-172 | In any reachable state, under either rule, every connected majority has a node that becomes leader by standing often enough. |
| RaftElections.LoneNodeIsNotElected | novadb/raft.py:149-163 | A node without peers that stands stays a candidate. |
| RaftUnclamped.AckIsTrueIffNoLongerTail | novadb/raft.py:220 | As written, an accepted append is acknowledged truthfully exactly when the follower has no tail beyond the leader's log. |
| RaftUnclamped.NextRoundRaisesIffLongerTail | novadb/raft.py:233-238 | As written, the next round to that follower indexes past the leader's log exactly in the same case. |
| RaftUnclamped.UnclampedAckBreaksSafety | novadb/raft.py:132-351 | As written, elections, proposals, partitions and the healing of the network alone, each with all its broadcasts, lead a cluster of three to two nodes with different first commands applied. |
| RaftMachine.RaftNode.HandleRequestVote | novadb/raft.py:174-189 | The node and its storage end as the vote rule says, the vote saved before it is answered. |
| RaftMachine.RaftNode.ReceiveVoteResponse | novadb/raft.py:153-163 | Counting a vote, stepping down to a higher term, or winning at a majority. |
| RaftMachine.RaftNode.MergeEntries | novadb/raft.py:204-213 | The loop that truncates at a conflict and appends what is missing equals the recursive merge. |
| RaftMachine.RaftNode.HandleAppendEntries | novadb/raft.py:194-220 | The node, its storage, what it applied and its reply end as the append rule says. |
| RaftMachine.RaftNode.ApplyAll | novadb/raft.py:274-277 | Every entry up to the commit index is applied, once and in order. |
| RaftMachine.RaftNode.RaiseCommit | novadb/raft.py:264-272 | The loop stops at the highest index that the counting rule allows. |
| RaftMachine.RaftCluster.Replicate | novadb/raft.py:233-262 | The loop of append calls to one peer equals the recursive operation, index errors included. |
| RaftMachine.RaftCluster.ProposeCommand | novadb/raft.py:279-289 | Append, save, broadcast, and answer by the commit index. |
| RaftMachine.RaftCluster.RunElection | novadb/raft.py:132-151 | Stand, save, call for votes until won or deposed, and lead. |
| RaftMachine.RaftCluster.Partition | novadb/raft.py:343-346 | Every link between the two sides is cut, and no other. |
| RaftMachine.RaftCluster.HealNetwork | novadb/raft.py:348-351 | Every link works again, and the nodes that lead now broadcast in node order, up to one that raises. |
| RaftMachine.RaftCluster.RestartNode | novadb/raft.py:77-91 | A restarted node has what its storage held and nothing else. |
| BTree.BPlusTree.constructor | novadb/btree.py:28-34 | A new tree is valid and empty. |
| BTree.BPlusTree.Clear | novadb/btree.py:36-39 | The tree is valid and empty again. |
| BTree.BPlusTree.LeafFor | novadb/btree.py:44-48 | The descent ends at the leaf whose interval has the key. |
| BTree.BPlusTree.Find | novadb/btree.py:65-70 | The ascending positions filed under the key, and no others. |
| BTree.BPlusTree.Insert | novadb/btree.py:50-63 | The relation gains exactly the pair; the tree stays balanced, ordered within separators, within its key limit and half full, with right parent links, leaf chain and size, through every cascade of splits. |
| BTree.BPlusTree.SplitLeaf | novadb/btree.py:89-100 | Splitting an overfull leaf gives a valid tree with the same relation. |
| BTree.BPlusTree.SplitInternal | novadb/btree.py:102-112 | Splitting an overfull inner node, children relinked, gives a valid tree with the same relation. |
| BTree.BPlusTree.InsertInParent | novadb/btree.py:114-126 | Linking the new half, under the parent or under a new root, gives a valid tree with the same relation. |
| BTree.BPlusTree.SiblingsDiffer | novadb/btree.py:121 | The children of a node of a valid tree differ in their keys, pairwise, also between a split and its linking. |
| BTree.BPlusTree.IndexByValueFinds | novadb/btree.py:121 | Searching the children by value, as the code does, finds the very node that was split. |
| BTree.BPlusTree.DivideLeaf | novadb/btree.py:89-100 | Which keys, values and links each half of a split leaf gets; the first leaf never changes. |
| BTree.BPlusTree.DivideInternal | novadb/btree.py:102-111 | Which keys and children each half of a split inner node gets; each moved child points to its new parent. |
| BTree.BPlusTree.SplitKeepsTree | novadb/btree.py:89-112 | Between a split and the parent's update, every part of the invariant holds with the left half answering for both. |
| BTree.BPlusTree.Range | novadb/btree.py:78-87 | Exactly the entries with start <= key < end, in key order, each with its ascending positions. |
| BTree.BPlusTree.Items | novadb/btree.py:72-76 | The whole relation in key order. |
| BTree.BPlusTree.OneNodePerLevel | novadb/btree.py:44-48 | On each level at most one node answers for a key. |
| BTree.BPlusTree.Balanced | novadb/btree.py:102-126 | Every way down from a node to a leaf has the same length. |
| BTree.ListingUnique | novadb/btree.py:72-76 | Two trees with the same relation list the same entries in the same order. |
| TableIndex.IndexedTable.LookupIndex | novadb/engine.py:529-533 | An indexed lookup returns, in row order, the present rows at the positions filed under the key; with exact indexes, exactly the rows a full scan finds. |
| TableIndex.IndexedTable.AppendRow | novadb/engine.py:524-527 | An inserted row is filed in every index after the rows it files, stale or not; exact indexes stay exact. |
| TableIndex.IndexedTable.RebuildIndexes | novadb/engine.py:508-522 | Every index is rebuilt exact, whatever it was before. |
| TableIndex.IndexedTable.ReplaceRows | novadb/engine.py:918-946 | After a replay, which indexes once it has the rows, every index is exact. |
| TableIndex.IndexedTable.InsertMany | novadb/engine.py:602-611 | The batch is appended and every index is exact, whatever it was before. |
| TableIndex.IndexedTable.Update | novadb/engine.py:613-636 | The rows become what the statement leaves; every index is exact if it succeeds, whatever it was before, and files what it filed if it raises. |
| TableIndex.IndexedTable.Delete | novadb/engine.py:638-651 | The rows become those the statement keeps, with every index exact, whatever it was before; nothing changes where the predicate raises. |
| OwnRows.RunKeepsOwnOnce | novadb/engine.py:561-651 | In any transaction a table holds each row object the transaction made once, so a row assigned in place is one position. |
| TableIndex.IndexedTable.CreateIndex | novadb/engine.py:580-586 | Refused, changing nothing, exactly for a column the table does not have; otherwise the new index, and every other, is exact. |
| TableIndex.PositionsAreScan | novadb/engine.py:529-533 | Ascending positions of exactly the matching rows pick out what a scan finds. |
| TableIndex.LookupsRightIff | novadb/engine.py:529-533 | Whatever rows an index files, its lookups agree with a scan of the present rows, for every key, exactly when every position has kept its key. |
| TableIndex.StaleIndexIff | novadb/engine.py:770-772 | Rows sorted in place, or half edited by an UPDATE that raised: an index that is not rebuilt files them right, and answers right, exactly when every position keeps its key. |
| TableIndex.SortingBreaksLookup | novadb/engine.py:770-772 | Two rows sorted into the other order: a lookup of one value finds the other row. |
| Mvcc.SameViewUnlessChanged | novadb/mvcc.py:100-101 | A chain with no version created or ended after v shows the same value at v and at every later version. |
| Mvcc.WriteKeepsChain | novadb/mvcc.py:113-119 | A write keeps a key's version lifetimes apart and in order. |
| Mvcc.WriteShows | novadb/mvcc.py:113-119 | From its commit version on, a written key shows exactly the pending value, or nothing after a delete. |
| Mvcc.WriteKeepsOld | novadb/mvcc.py:113-119 | A write shows every earlier reader what it saw before. |
| Mvcc.WriteChanges | novadb/mvcc.py:100-120 | A key counts as changed exactly by its effective writes: a new value, or a deletion of something visible. |
| Mvcc.CommitKeepsSnapshots | novadb/mvcc.py:103-120 | A commit leaves every earlier snapshot as it was. |
| Mvcc.CommitShowsWrites | novadb/mvcc.py:103-120 | A commit puts its pending writes, and nothing else, over the latest snapshot. |
| Mvcc.ExplainsTransfers | novadb/mvcc.py:104-109 | Answers carry over to any state that agrees on the keys read and under the prefixes scanned. |
| MvccRuns.ValidatedReadsHold | novadb/mvcc.py:103-109 | A commit that passes validation would read the same now as in its snapshot, keys that appeared under a scanned prefix included. |
| MvccRuns.Serializable | novadb/mvcc.py:33-61 | In every run, replaying the committed transactions one by one in commit order on a plain map gives every get and every scan its answer, and leaves what the store shows. |
| MvccRuns.OpenReadsSerialState | novadb/mvcc.py:83-98 | A transaction still open has read from its snapshot throughout, and each committed version's snapshot is a state of the serial run. |
| MvccRuns.OpenReadsStateAtBegin | novadb/mvcc.py:83-96 | In any run, a get or a scan of an open transaction answers from the serial state of the commits logged when it began, overlaid with its own writes. |
| MvccRuns.BeginReadsPresent | novadb/mvcc.py:83-96 | Right after it began, a transaction reads what all commits so far have left, key by key and prefix by prefix. |
| MvccRuns.RefusedIffOverlap | novadb/mvcc.py:103-111 | A commit is refused exactly when a transaction that committed since this one began changed a key this one read, wrote or scanned over. |
| MvccRuns.RefusedIffOverlapSinceBegin | novadb/mvcc.py:98-111 | A commit is refused exactly when a commit that joined the log after the transaction's own begin changed a key or prefix it watches; with no such commit it never is. |
| MvccRuns.RolledBackIsOver | novadb/mvcc.py:63-69 | After a rollback, whatever is called later, the transaction reads nothing more and its commit changes nothing. |
| MvccRuns.DoomedStaysDoomed | novadb/mvcc.py:57-61 | A refused commit, retried while the transaction stays open, is refused again whatever happens in between. |
| MvccRuns.SnapshotsNeverChange | novadb/mvcc.py:86-91 | No later call changes what an earlier version shows. |
| MvccMachine.MVCCStore.VisibleAt | novadb/mvcc.py:86-91 | The backward loop finds the version alive at the given point. |
| MvccMachine.MVCCStore.HasChangedAfter | novadb/mvcc.py:100-101 | The loop finds whether any version was created or ended after the given point. |
| MvccMachine.MVCCStore.CommitTransaction | novadb/mvcc.py:103-120 | Refused exactly on a conflict, with nothing changed; otherwise every pending write is one version on its chain. |
| MvccMachine.MVCCTransaction.Get | novadb/mvcc.py:33-35 | Own writes first, then the snapshot; the key is watched; a closed transaction refuses. |
| MvccMachine.MVCCTransaction.Put | novadb/mvcc.py:37-39 | The value is pending under the key; a closed transaction refuses. |
| MvccMachine.MVCCTransaction.Delete | novadb/mvcc.py:41-43 | The key's deletion is pending; a closed transaction refuses. |
| MvccMachine.MVCCTransaction.Scan | novadb/mvcc.py:45-55 | Every visible key under the prefix with its value; the prefix and all those keys are watched. |
| MvccMachine.MVCCTransaction.Commit | novadb/mvcc.py:57-61 | Closed on success, left open on a conflict. |
| MvccMachine.MVCCTransaction.Rollback | novadb/mvcc.py:63-65 | Closed, with nothing pending. |
| Tables.ReplaceFirstBag | novadb/engine.py:932-938 | Replaying an update by value changes the bag of rows by one row, or not at all. |
| Tables.ReplayRespectsBags | novadb/engine.py:918-946 | Replay on two states that differ in row order only gives results that differ in row order only. |
| Statements.DeleteLeaves | novadb/engine.py:638-651 | A DELETE that succeeds leaves, in order, the rows at exactly the positions where the predicate is false, logs the removal of the others in order, and leaves every other table as it was; it raises, changing nothing, exactly when the predicate raises on some row. |
| Statements.UpdateLeaves | novadb/engine.py:613-636 | After an UPDATE each position holds the edit of the row it held, up to the first that raises, which holds what was assigned by then; the log gains the changes in order, and every other table is as it was. |
| Statements.InsertLeaves | novadb/engine.py:588-600 | With distinct keys before, an INSERT puts its row last and logs it, or is refused, exactly when a primary key would repeat, changing nothing. |
| Statements.InsertManyLeaves | novadb/engine.py:602-611 | The same for a batch, whole or not at all, repeated keys within the batch included. |
| Statements.CreatesLeave | novadb/engine.py:574-586 | A new table is empty with its columns, a new index adds its column; either is logged, and an existing table, a missing table or an unknown column is refused, changing nothing. |
| Statements.KeysStayDistinct | novadb/engine.py:588-651 | No run of statements without UPDATE, refused ones included, makes two rows of a table share a primary key. |
| Statements.UpdateRepeatsKeys | novadb/engine.py:613-636 | An UPDATE of all rows to one value succeeds and leaves rows that share their key. |
| Statements.RunKeepsApart | novadb/engine.py:561-651 | In any transaction no row object is in two tables or twice in one, so a statement on one table cannot change another. |
| Transactions.StatementReplays | novadb/engine.py:574-651 | One clean statement extends the log by operations that replay to its effect, whatever the transaction's own rows hold. |
| Transactions.UpdateReplays | novadb/engine.py:613-636 | An UPDATE of cloned rows replays row by row, duplicates and chains of equal values included. |
| Transactions.DeleteReplays | novadb/engine.py:638-651 | A DELETE replays: each removed row is still in the bag when its turn comes. |
| Transactions.ReplayMatchesTransaction | novadb/engine.py:918-946 | Replaying what a transaction logged gives, table by table, its columns, its indexes and its bag of rows, if no statement failed and none updated a row the transaction inserted. |
| Transactions.ReplayMatchesWhereOwnChangesMiss | novadb/engine.py:918-946 | The same for transactions that do update rows they inserted, any number of times, as long as each such change finds no row of its old value when it is replayed. |
| OwnRows.LastUpdateReplaysIff | novadb/engine.py:594-629 | A clean transaction and then an UPDATE that changes any number of rows it inserted: the log replays to what is committed exactly when folding those changes by value over the final rows leaves them as they are. |
| OwnRows.OwnUpdatesReplayIff | novadb/engine.py:594-629 | The same of any transaction whose log replays as far as that UPDATE. |
| OwnRows.MissingFolds | novadb/engine.py:932-938 | Where no changed row's old value is left among the final rows, folding leaves them as they are. |
| OwnRows.OneOwnUpdateReplaysIff | novadb/engine.py:594-629 | If the UPDATE changes one row the transaction inserted, that is exactly when it turns no other row into that row's old value. |
| OwnRows.FailedUpdateReplaysIff | novadb/engine.py:613-636 | If an UPDATE raises and the transaction commits all the same, the log replays right exactly when the half-assigned row is one the transaction inserted, or was not changed. |
| OwnRows.UpdatingOwnRowsBreaksReplay | novadb/engine.py:594-629 | A concrete transaction whose log does not replay to what it committed. |
| OwnRows.ChainBreaksReplay | novadb/engine.py:594-629 | Inserting 1 and 2 and adding one to both folds to 3 and 3 where 2 and 3 were committed. |
| OwnRows.SwapReplays | novadb/engine.py:594-629 | Two inserted rows that swap their values fold back to themselves. |
| Recovery.EachRecordOnce | novadb/engine.py:865-887 | Loading replays each record above the image's version exactly once, in order, and no other. |
| Recovery.AppendHolds | novadb/engine.py:1000-1010 | Appending a change's record moves what the disk loads to by exactly that change. |
| Recovery.TrailHolds | novadb/engine.py:960-1077 | Every durable state that any call passes through loads to the tables before it or after it. |
| Recovery.CrashIsAtomic | novadb/engine.py:865-887 | After any run, crashes included, a crash at any durable point of any call leaves a directory that opens, to the tables before the call or after it. |
| Recovery.AcknowledgedIsDurable | novadb/engine.py:1000-1029 | Once a call has returned, reopening gives its outcome. |
| Recovery.CommitIsSerial | novadb/engine.py:1000-1010 | A commit that goes through has the effect of all its statements run together on the tables it replaces. |
| EngineRuns.CommitsIffVersionStands | novadb/engine.py:1000-1010 | A transaction commits exactly when no call since it began raised the version and its record fits; the tables are then those its statements leave of those it began from, one version on; a refused commit changes nothing. |
| EngineRuns.BulkInsertLeaves | novadb/engine.py:979-998 | With distinct keys before, a bulk insert puts its rows last in one logged operation, or is refused, exactly where the table is missing, a key would repeat or the record does not fit, changing nothing. |
| EngineRuns.RestoresIffVersionStands | novadb/engine.py:960-969 | A restore asked for at a version goes through exactly when no call since raised it, and then the tables and the state image are the snapshot's. |
| EngineRuns.AtMostNineToReplay | novadb/engine.py:996-997 | However long a run of finished calls, at most nine versions lie after the state image, and none at a tenth version. |
| EngineRuns.PrimaryKeysHold | novadb/engine.py:588-611 | Over any run without UPDATE, with crashes at any durable state and restores of such snapshots, no two rows of a table share a primary key. |
| CrashBytes.FileHoldsLog | novadb/engine.py:971-1077 | After any run of calls, each ended or cut at any durable stage and any byte of its page write and reopened, the page file scans to exactly the engine's log, without a torn tail, and opens to its tables. |
| CrashBytes.CutAnywhereIsAtomic | novadb/engine.py:971-1077 | After any such run, a commit, bulk insert, checkpoint, compaction or restore cut at any stage and any byte leaves a directory that opens to the tables before the call or after it. |
| CrashBytes.TornOpens | novadb/page_store.py:51-104 | A record's append torn at any byte opens as the old file or as the new one. |
| Replication.StreamIsEnough | novadb/replication.py:11-28 | Applying the records streamed after any version the follower has reached is applying the whole log. |
| Replication.StreamMembers | novadb/replication.py:11-19 | A stream is exactly the log's records of later versions, in their order. |
| Replication.CompactedRebuilds | novadb/engine.py:1046-1077 | The compacted record rebuilds the tables exactly, over any state with no other tables. |
| Replication.FollowerCatchesUp | novadb/replication.py:31-46 | A follower at any state the leader's log described ends, streamed from there or earlier, with the leader's tables, across the leader's commits, compactions, crashes, and restores that put back what was there; streaming again changes nothing. |
| Replication.CompactedStreamAgrees | novadb/engine.py:1064-1070 | Replacing the log by its compacted form gives such a follower the same tables. |
| Replication.RestoreReachesIff | novadb/engine.py:960-969 | After any such run, a restore, and the log streamed: the follower has the leader's tables exactly when the restore put back what was there. |
| Replication.CompactionMakesUpIff | novadb/engine.py:1046-1077 | After a compaction that follows the restore it has them exactly when the snapshot has every table the follower has. |
| Replication.LaterCommitsReachIff | novadb/replication.py:31-46 | After commits that follow the restore, streaming raises exactly when one names a table that was neither there before the restore nor created since; otherwise the follower has the leader's tables exactly when those commits lead to the same ones from before the restore and from the snapshot. |
| Replication.RestoreIsNotStreamed | novadb/engine.py:960-969 | A concrete run with a restore after which a follower streamed the whole log still has a table the leader lost. |
| EngineMachine.Transaction.CreateTable | novadb/engine.py:574-578 | An existing name is refused; otherwise the table and its log entry are there. |
| EngineMachine.Transaction.CreateIndex | novadb/engine.py:580-586 | A missing table or column is refused; otherwise the index and its log entry are there. |
| EngineMachine.Transaction.Insert | novadb/engine.py:588-600 | A row refused by normalization or repeating a primary key changes nothing; otherwise table and log share the new row. |
| EngineMachine.Transaction.InsertMany | novadb/engine.py:602-611 | A batch goes in whole or, if any row is refused or repeats a primary key, not at all. |
| EngineMachine.Transaction.Update | novadb/engine.py:613-636 | The loop edits rows in place and logs each change, up to a row that raises, which is left half assigned and unlogged. |
| EngineMachine.Transaction.Delete | novadb/engine.py:638-651 | The loop keeps the other rows in order and logs one removal for each row that goes. |
| EngineMachine.BatchIsFresh | novadb/engine.py:536-558 | A batch is accepted exactly when no row repeats a primary key of the table or of an earlier row of the batch. |
| EngineMachine.Database.ApplyOperations | novadb/engine.py:918-946 | The replay loop equals the recursive replay, missing tables included. |
| EngineMachine.Database.Replay | novadb/engine.py:874-887 | The loop over records equals the recursive one, skipping what the state has. |
| EngineMachine.Database.LoadFromDisk | novadb/engine.py:865-887 | Opening gives the state image with every later record replayed. |
| EngineMachine.Database.CommitTransaction | novadb/engine.py:1000-1010 | Refused when closed, out of date or too large for a page, with nothing changed; otherwise logged if it did anything, applied, and checkpointed at every tenth version. |
| EngineMachine.Database.InsertBatch | novadb/engine.py:979-998 | A bulk insert is logged and applied whole, or refused with nothing changed. |
| EngineMachine.Database.TakeCheckpoint | novadb/engine.py:1012-1029 | The state image becomes the present tables and version. |
| EngineMachine.Database.SnapshotOperations | novadb/engine.py:1052-1062 | The loop over sorted tables and sorted index columns gives the operations that rebuild every table. |
| EngineMachine.Database.CompactLog | novadb/engine.py:1046-1077 | A checkpoint, then the log replaced by the one record, or kept where the record does not fit. |
| EngineMachine.Database.RestoreState | novadb/engine.py:960-969 | Refused if the version moved on; otherwise the snapshot, one version later, checkpointed. |
| EngineMachine.Database.ApplyStream | novadb/replication.py:31-46 | A follower replays the records and checkpoints what it has reached. |
| PageStore.UnframeFrames | novadb/page_store.py:127-138 | Decoding framed records gives the records back. |
| PageStore.PaginateOk | novadb/page_store.py:73-91 | Pages hold all the records in order, none empty, none over its capacity. |
| PageStore.PaginateIsGreedy | novadb/page_store.py:85-89 | A new page is started only where the next record would have overflowed the last. |
| PageStore.ReadWritten | novadb/page_store.py:116-138 | A written page passes its checks and reads back as its records. |
| PageStore.ScanReturnsAppends | novadb/page_store.py:140-142 | After any appends, the scan returns all the accepted records in order; only records too large for a page are refused. |
| PageStore.TornAppend | novadb/page_store.py:51-63 | Cut at any byte of the last append, the file opens with tail recovery to the old records and those of the new pages written whole; without recovery it opens exactly when the cut is at a page's end. |
| PageStore.OneRecordAppendIsAtomic | novadb/page_store.py:73-104 | A record appended by itself, cut at any byte, is there whole or not at all. |
| PageStore.OneRecordOpens | novadb/page_store.py:51-104 | Opening that cut file with tail recovery gives the old file or the new one, byte for byte. |
| PageStore.CheckpointHolds | novadb/page_store.py:144-156 | The replacement file holds exactly the given records. |
| PageDamage.FirstByteCountsMost | novadb/page_store.py:14 | Integers on pages are big-endian. |
| PageDamage.PageBytes | novadb/page_store.py:92-96 | Where on a written page the magic, version, id, length, checksum and payload are, and that the rest is zero. |
| PageDamage.ChangedByteIsRefused | novadb/page_store.py:116-138 | A written page with any one byte changed is refused, or reads as written where the byte is padding, provided the checksum tells the payload then read from the one written. |
| PageDamage.MisplacedIsRefused | novadb/page_store.py:119-121 | A page reads at the place it was written for and at no other. |
| PageDamage.AppendRefusedIff | novadb/page_store.py:80-84 | An append is refused exactly when one of its records, with its length, fits no page. |
| PageDamage.OpenedIff | novadb/page_store.py:51-63 | Without recovery a file opens, unchanged, exactly when it is whole pages. |
| PageFile.PageFile.Open | novadb/page_store.py:28-63 | Opening counts whole pages and cuts a torn tail if asked to; pages too small, and a torn tail that may not be cut, are refused. |
| PageFile.PageFile.AppendRecords | novadb/page_store.py:73-104 | The payload and page loops write exactly the pages of the specification; an oversized record changes nothing; the ids returned are consecutive. |
| PageFile.PageFile.ReadPage | novadb/page_store.py:116-138 | The checks and the decoding loop equal the recursive reading. |
| PageFile.PageFile.IterRecords | novadb/page_store.py:140-142 | The loop over pages equals the recursive scan. |
| PageFile.PageFile.Checkpoint | novadb/page_store.py:144-156 | The file is replaced by one with these records, or, if one does not fit, not at all. |
| SlottedPage.RoundTrip | novadb/slotted_page.py:56-101 | Decoding an encoded page succeeds, and gives the same slots with tombstones exactly when no slot holds the empty record. |
| SlottedPage.RecordsApart | novadb/slotted_page.py:62-70 | Records do not overlap. |
| SlottedPage.OffsetsInside | novadb/slotted_page.py:56-70 | Every record lies between the slot table and the end of the page. |
| SlottedPage.SmallPagesEncode | novadb/slotted_page.py:71-75 | Pages of up to 65535 bytes always fit their 16-bit fields. |
| PageDamage.SlottedHeader | novadb/slotted_page.py:71-75 | The fields of an encoded slotted page and where they are. |
| PageDamage.SlottedEntry | novadb/slotted_page.py:62-70 | Slot i is four bytes, its record's offset, which is the page's size less the records up to it, and its length; zero twice for a tombstone. |
| PageDamage.SlottedRecord | novadb/slotted_page.py:62-70 | At that offset are the record's bytes. |
| PageDamage.InsertIff | novadb/slotted_page.py:38-44 | A record goes on a page exactly when it is not empty and the page with it is still sound. |
| PageDamage.DeleteLeaves | novadb/slotted_page.py:46-49 | A delete goes through exactly on a slot with a record; that slot becomes a tombstone, its bytes are free again, and no other slot moves. |
| PageDamage.CompactLeaves | novadb/slotted_page.py:51-54 | Compacting leaves, in order, the slots at exactly the places that have a record, and four bytes more for each tombstone. |
| PageDamage.ChangedByteOfSlots | novadb/slotted_page.py:77-101 | An encoded slotted page with one byte changed is refused, where the checksum tells, except that padding does no harm and a changed page id is read as it is. |
| SlottedPageMachine.SlottedPageObject.Space | novadb/slotted_page.py:33-36 | The loop counts the free space. |
| SlottedPageMachine.SlottedPageObject.InsertRecord | novadb/slotted_page.py:38-44 | An empty record or one that does not fit is refused; otherwise it takes the next slot. |
| SlottedPageMachine.SlottedPageObject.DeleteSlot | novadb/slotted_page.py:46-49 | A present record becomes a tombstone, every other slot keeps its place. |
| SlottedPageMachine.SlottedPageObject.CompactSlots | novadb/slotted_page.py:51-54 | Tombstones go, records stay in order, and the count is right. |
| SlottedPageMachine.SlottedPageObject.Encode | novadb/slotted_page.py:56-75 | The buffer filled in place from both ends is the layout of the specification. |
| SlottedPageMachine.Decode | novadb/slotted_page.py:77-101 | The slot loop with its set of taken places accepts and decodes exactly what the specification does. |
| DurableIndex.SavedLoads | novadb/durable_index.py:26-78 | Whatever the entries and however many pages they take, what was saved loads back as it was, if the text of each entry parses back. |
| DurableIndex.SaveSucceeds | novadb/durable_index.py:26-49 | Saving only fails where an entry fits no page, for pages up to 65535 bytes. |
| DurableIndex.FillIsGreedy | novadb/durable_index.py:29-41 | Pages are numbered by their places, and none is started while the next entry still fits the one before. |
| DurableIndex.MisplacedIsRefused | novadb/durable_index.py:51-78 | A page at another place than its own is refused. |
| DurableIndex.DurableBPlusTree.SaveTree | novadb/durable_index.py:26-49 | The file becomes the pages of the tree's listing, or stays as it was. |
| DurableIndex.DurableBPlusTree.LoadTree | novadb/durable_index.py:51-78 | A valid tree with exactly the pairs of the file's entries; an error exactly for an unreadable file; a missing file is an empty tree. |
| DurableIndex.DurableBPlusTree.Verify | novadb/durable_index.py:80-85 | True exactly when the file loads to what the tree holds. |
| DurableIndex.DurableBPlusTree.SaveThenLoad | novadb/durable_index.py:26-85 | A tree saved and loaded holds what it held, and its file verifies, if the text of each of its entries parses back. |
| Bytecode.CompileRuns | novadb/bytecode.py:114-138 | A compiled expression, anywhere in a program, pushes its value on whatever is on the stack. |
| Bytecode.ExpressionRuns | novadb/bytecode.py:114-138 | A compiled expression runs to its recursive value, pops no empty stack, misses no parameter, and leaves one value. |
| Bytecode.PredicateRuns | novadb/bytecode.py:140-167 | The same for predicates, whose connectives give the conjunction or disjunction of all their parts. |
| Bytecode.FoldIsAll | novadb/bytecode.py:142-155 | Combining parts one by one is combining them all. |
| Comparisons.ComparisonsCutSortedRows | novadb/bytecode.py:100-107 | Run over rows that ascend in a column, compiled `column < c` takes exactly a prefix, `column > c` a suffix, `column = c` the rows between, which hold c; and `<=`, `>=`, `!=` what these leave. |
| Comparisons.Trichotomy | novadb/bytecode.py:100-107 | Of two compiled operands with ordered values, `=` holds when they are equal, `<` when the first comes before; `>` is `<` with the sides exchanged; the other three are complements. |
| Comparisons.NullEqualsOnlyNull | novadb/bytecode.py:101-102 | Of the comparisons with a NULL operand only NULL = NULL holds. |
| Comparisons.UnorderedSatisfyNothing | novadb/bytecode.py:103-107 | Values that do not order satisfy no comparison, not even `!=`. |
| Comparisons.ColumnRuns | novadb/bytecode.py:29-30 | A compiled column gives the row's own value, NULL where it has none. |
| Comparisons.NullTests | novadb/bytecode.py:59-62 | IS NULL takes exactly the rows without a value, IS NOT NULL the others. |
| Comparisons.AddedThenTaken | novadb/bytecode.py:41-46 | With integers, compiled (x + y) - y gives x. |
| Comparisons.MultipliedThenDivided | novadb/bytecode.py:47-55 | With integers, compiled (x * y) / y gives x as a float, and NULL where y is zero. |
| Comparisons.NullSpreads | novadb/bytecode.py:41-55 | Arithmetic with NULL gives NULL. |
| Prepared.RebasedRuns | novadb/prepared.py:11-16 | A rebased program does with all parameters what the program does with those from its offset on. |
| Prepared.SelectNumbering | novadb/prepared.py:52-68 | Over all projections and then the predicate, placeholders are numbered 0 to n-1 in order, without gap or clash. |
| Prepared.ProjectionRuns | novadb/prepared.py:84-86 | Each projection, run with the statement's parameters, gives the value its own placeholders stand for. |
| Prepared.PredicateOfSelectRuns | novadb/prepared.py:66-85 | So does the predicate. |
| Prepared.InsertBindsIff | novadb/prepared.py:99-114 | A prepared INSERT binds what it says for all parameters exactly when it writes out no NULL before a placeholder. |
| BytecodeMachine.Compiler.CompileValue | novadb/bytecode.py:114-138 | The instructions appended and the placeholders counted are those of the specification. |
| BytecodeMachine.Compiler.CompilePredicateCode | novadb/bytecode.py:140-167 | The same for predicates. |
| BytecodeMachine.RunProgram | novadb/bytecode.py:23-73 | The stack loop equals the recursive run. |
| BytecodeMachine.CompileStatement | novadb/prepared.py:52-68 | The loop over projections and the predicate equals the specification. |
| BytecodeMachine.BindTemplate | novadb/prepared.py:100-111 | The cursor loop binds as the specification says. |
| Joins.MergeCommutesIff | novadb/optimizer.py:98-99 | Which side's columns win matters exactly when the rows differ on a column they share. |
| Joins.LoopsAgree | novadb/optimizer.py:85-113 | Looping over the left side outside or inside finds the same bag of matches. |
| Joins.JoinsAgree | novadb/optimizer.py:85-113 | Hash join and nested loop give the same bag of rows in every column that only one side has, for all inputs and keys and whichever side is indexed. |
| Joins.StrategyDoesNotMatter | novadb/optimizer.py:209-236 | No choice of join strategy, step by step, changes what an answer holds in the columns of tables and aliases that name one relation each, if those own the join keys. |
| Joins.StrategyAnswersIff | novadb/optimizer.py:209-236 | Under any choice of strategies a chain answers exactly when the nested loops alone answer and no key is a list or an object at a step that is hashed; it then answers the same. |
| Joins.ExecuteAnswersIff | novadb/optimizer.py:232-234 | So does the choice by cost. |
| Joins.StrategyNeverMatters | novadb/optimizer.py:209-236 | Where no joined table holds lists or objects, every strategy refuses the same chains and answers the same. |
| Joins.ByCostIff | novadb/optimizer.py:232-234 | The cost rule hashes exactly where both sides have at least two rows, or neither has any. |
| Joins.StrategyMatters | novadb/optimizer.py:85-113 | Joined on a list or an object, the hash join raises and the nested loop answers. |
| JoinMeaning.ExecuteMeans | novadb/optimizer.py:209-236 | Whatever the strategy, where a chain answers, its answer is, as a bag and in the columns of owners that name one relation each, the combinations of one row from each relation that meet the clauses that are checked. |
| JoinMeaning.ExecuteMeansIff | novadb/optimizer.py:226-229 | It is the combinations that meet all clauses as written exactly when each combination meets these whenever it meets those checked, and the other way round. |
| JoinMeaning.JoinsMean | novadb/optimizer.py:209-236 | Where every clause compares a column of its own relation with one of another, in whatever order the joins are written, the answer is one row for each combination in which the two columns of every clause hold equal values. |
| JoinMeaning.UnlinkedClauseLosesRows | novadb/optimizer.py:226-229 | FROM a JOIN b ON a.id = c.x JOIN c ON c.x = a.id over tables of one row each, that all meet: the answer is empty. |
| JoinMeaning.SidesMayBeExchanged | novadb/optimizer.py:226-229 | Exchanging the sides of such clauses changes nothing: the same rows in the same order, the same refusals. |
| JoinMeaning.NestedAnswersIff | novadb/optimizer.py:209-225 | The nested loops answer exactly when every table exists and the clauses lead from the base table to every join. |
| JoinMeaning.SeenIs | novadb/optimizer.py:51-60 | Each row is seen whole under its table and under its alias, and nothing else is. |
| JoinsMachine.BuildIndex | novadb/optimizer.py:91-93 | The index files each row under its key, in order; a key that cannot be hashed raises. |
| JoinsMachine.HashJoinRows | novadb/optimizer.py:85-101 | Building and probing equals the specification, for either build side. |
| JoinsMachine.NestedJoinRows | novadb/optimizer.py:104-113 | The two loops equal the specification. |
| JoinsMachine.JoinAll | novadb/optimizer.py:209-236 | The loop that picks the next join, orients its keys and compares costs equals the specification. |
| Undo.UndoIsExact | novadb/prompting.py:443-461 | In any run of approvals, undos and redos, an undo goes through exactly when the newest record not waiting to be redone is in effect; it starts from the tables that mutation produced and restores those before it; otherwise nothing changes. |
| Undo.RedoIsExact | novadb/prompting.py:463-485 | A redo goes through whenever something is undone, and puts back what that mutation produced. |
| Undo.UndoRedoRoundTrip | novadb/prompting.py:443-485 | After n undos that went through, n redos go through and leave the same tables and records, with the version 2n higher, bounded and branched histories included. |
| Undo.BranchEndsUndo | novadb/prompting.py:453-455 | After an undo and a new approval, that one can be undone, and then the next undo is refused whatever is still in effect. |
| UndoDepth.UndoReachesBack | novadb/prompting.py:271 | After any number of approvals, k undos in a row go through exactly when k is at most their number and the limit of the history, and leave the tables that k approvals fewer had left. |
| UndoDepth.NamedUndo | novadb/prompting.py:448-450 | An undo that names a record does what an undo would where that would take this record, and nothing otherwise. |
| UndoDepth.NamedRedo | novadb/prompting.py:467-469 | The same for redo. |
| Undo.ForeignCommitLostIff | novadb/prompting.py:453-455 | With a commit from elsewhere between two approvals both undos go through; the second starts from what its mutation produced exactly when that commit changed nothing. |
| UndoForeign.UndoLosesIff | novadb/prompting.py:443-461 | In any run with commits from elsewhere anywhere, an undo goes through exactly when the newest record not waiting to be redone is in effect and the engine last moved through the service; it starts from what that mutation produced exactly when the engine's last move was no undo, or undid a mutation that had started from there; otherwise the mutation undone before it was approved right after a commit from elsewhere. |
| UndoForeign.RedoLosesIff | novadb/prompting.py:463-485 | In any such run a redo goes through exactly when something is undone and the engine last moved through the service; it starts from what its mutation started from exactly when the engine's last move was no redo, or redid a mutation that had produced that. |
| UndoForeign.RedoneThenUndone | novadb/prompting.py:443-485 | A concrete run in which a redo brings a mutation back and not the commit from elsewhere that followed it, and the next undo starts from what the mutation produced. |
| UndoMachine.PromptService.CommitApproved | novadb/prompting.py:425-440 | A mutation that commits leaves one record with its before and after tables and empties the redo stack; one that does not commit leaves nothing. |
| UndoMachine.PromptService.UndoApproved | novadb/prompting.py:443-461 | The shared record objects, the redo stack and the engine end as the specification says. |
| UndoMachine.PromptService.RedoApproved | novadb/prompting.py:463-485 | The same for redo. |

## Left out

- Raft clocks and election timeouts: any follower may stand for election at any time. Crashes fall between locked methods, each of which saves before it answers; a node without storage is never restarted.
- `ReplicatedEngine` is not part of this model.
- RaftSafety.LeaderCompleteness: needs acknowledgements that do not exceed the leader's log, because the code's own rule breaks it; the broken run and the exact condition are members of RaftUnclamped.
- RaftSafety.StateMachineSafety: needs the same, for the same reason.
- RaftOperations.ReplicationConverges: stated for the clamped rule; as written the round can index past the leader's log.
- BTree keys are any countable dense order, written as `real`; the JSON text of a key and its string order are not modelled.
- BTree.BPlusTree.Items: walks the leaf chain by way of Range with both ends open.
- MvccMachine.MVCCTransaction.Scan: consumed to its end at once and returned as a map; the generator's order by text and its laziness are not modelled. Keys are strings, and values are never aliased, since the code copies them.
- Table rows compare structurally: values that Python's `==` identifies across types (`1`, `1.0`, `True`) stay different, and NaN is not modelled. Column types, coercion and NOT NULL checks come in as the outcome of normalization or of an edit; vector columns, and the index rebuild they can refuse, are not modelled.
- Transactions.Duplicate: reads the present rows; after an UPDATE that raised, the code checks its key sets from before that UPDATE until the next rebuild.
- Statements on a transaction after it committed, which the code does not refuse, are not modelled; neither is a caller editing rows that a query returned.
- Transactions.ReplayMatchesTransaction: needs a transaction without failed statements and without updates of rows it inserted; the members of OwnRows say what happens beyond, for the last UPDATE of a transaction.
- Transactions.ReplayMatchesWhereOwnChangesMiss: a sufficient condition; the exact one is proved where the transaction's last UPDATE is the one that changes its own rows.
- Recovery: the in-memory mode, the legacy text log, the catalog file, index image repair, timestamps and transaction ids are left out; one writer at a time, since every method holds the engine's lock.
- EngineMachine.Database.CompactLog: whether the record fits a page comes in as a flag, as it does for commits and bulk inserts.
- EngineMachine.Database.LoadFromDisk: index images are rebuilt from the rows and not read.
- PageStore.ScanReturnsAppends: page ids stay below 2^64, page sizes below 2^32; records are their encoded bytes. The checksum is any function.
- PageDamage.ChangedByteIsRefused: that CRC-32 tells a changed payload from the one written is an assumption of the lemma, made of these two payloads.
- DurableIndex.SavedLoads: JSON text is any encoding under which the entries at hand decode back; a file whose pages exceed 65535 bytes can be refused by the 16-bit fields.
- CrashBytes.FileHoldsLog: JSON text is any encoding under which the records a run writes decode back, and a run is shorter than 2^64 calls. The state image is written to a temporary file and moved into place, so it is never seen half written.
- Bytecode.ExpressionRuns: parsing is left out, so expressions start as trees, and arithmetic, ordering and functions on values that are not NULL are parameters. The interpreter's own evaluation is a different grammar and is not compared.
- Prepared: aggregates, ORDER BY, LIMIT and the fallback to literal substitution are left out.
- Joins: parsing, WHERE, grouping, ordering and EXPLAIN estimates are left out. Lists and objects, which Python cannot hash, are the Json values.
- Comparisons.Trichotomy: the order is a parameter, assumed strict and total on the values compared; equality is structural.
- JoinMeaning.ExecuteMeans: needs the owners of the join keys to name one relation each.
- Joins.StrategyDoesNotMatter: speaks of runs that both answer, as StrategyAnswersIff says when they do; bare columns, and those of a table or alias that names two relations, depend on the strategy where the relations share them.
- Undo: planning, policies, hashes, expiry and snapshot size limits decide only whether an approval happens; tables are compared as values.
- HTTP, the command line, authentication, backups, vector search, aggregation, the buffer pool and agent memory are not part of this model.
