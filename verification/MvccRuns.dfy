/** Runs of many interleaved transactions on one store, and what they promise. */
module MvccRuns {
  import opened Mvcc

  /** An open or closed transaction, with the operations it has made and the answers it got. */
  datatype Session = Session(tx: Tx, ops: seq<Op>)

  datatype State = State(store: Store, sessions: seq<Session>, log: seq<Committed>)

  datatype Action =
    | BeginTransaction
    | Get(t: nat, key: Key)
    | PutKey(t: nat, key: Key, value: Value)
    | DeleteKey(t: nat, key: Key)
    | Scan(t: nat, prefix: string)
    | Commit(t: nat)
    | Rollback(t: nat)

  function Initial(): State {
    State(Store(0, map[]), [], [])
  }

  predicate Open(s: State, t: nat) {
    t < |s.sessions| && !s.sessions[t].tx.closed
  }

  function WithSession(s: State, t: nat, tx: Tx, op: Op): State
    requires t < |s.sessions|
  {
    s.(sessions := s.sessions[t := Session(tx, s.sessions[t].ops + [op])])
  }

  /** One call. A closed transaction refuses every call; a commit that fails validation changes nothing
      and leaves the transaction open. */
  function Next(s: State, action: Action): State {
    match action
    case BeginTransaction => s.(sessions := s.sessions + [Session(BeginTx(s.store), [])])
    case Get(t, key) =>
      if !Open(s, t) then s
      else WithSession(s, t, ReadTx(s.sessions[t].tx, key), Got(key, ReadValue(s.store, s.sessions[t].tx, key)))
    case PutKey(t, key, value) =>
      if !Open(s, t) then s
      else WithSession(s, t, WriteTx(s.sessions[t].tx, key, Some(value)), Put(key, value))
    case DeleteKey(t, key) =>
      if !Open(s, t) then s
      else WithSession(s, t, WriteTx(s.sessions[t].tx, key, None), Deleted(key))
    case Scan(t, prefix) =>
      if !Open(s, t) then s
      else WithSession(s, t, ScanTx(s.store, s.sessions[t].tx, prefix), Scanned(prefix, ScanResult(s.store, s.sessions[t].tx, prefix)))
    case Commit(t) =>
      if !Open(s, t) || Conflicts(s.store, s.sessions[t].tx) then s
      else
        var store := CommitStore(s.store, s.sessions[t].tx);
        State(store, s.sessions[t := s.sessions[t].(tx := s.sessions[t].tx.(closed := true))],
              s.log + [Committed(store.version, s.sessions[t].ops)])
    case Rollback(t) =>
      if t >= |s.sessions| then s
      else s.(sessions := s.sessions[t := s.sessions[t].(tx := s.sessions[t].tx.(closed := true, pending := map[]))])
  }

  function RunFrom(s: State, actions: seq<Action>): State
    decreases |actions|
  {
    if actions == [] then s else RunFrom(Next(s, actions[0]), actions[1..])
  }

  function Run(actions: seq<Action>): State {
    RunFrom(Initial(), actions)
  }

  // ---------------------------------------------------------------- invariant

  /** The operation depends on the key or writes it. */
  predicate Uses(op: Op, key: Key) {
    match op
    case Got(k, _) => k == key
    case Put(k, _) => k == key
    case Deleted(k) => k == key
    case Scanned(prefix, _) => prefix <= key
  }

  predicate Used(ops: seq<Op>, key: Key) {
    exists i :: 0 <= i < |ops| && Uses(ops[i], key)
  }

  /** Everything the validation watches was used by an operation, and nothing used is missed. */
  ghost predicate Tracks(tx: Tx, ops: seq<Op>) {
    && tx.pending == Writes(ops)
    && (forall i | 0 <= i < |ops| :: DependsOn(tx.readKeys, tx.readPrefixes, ops[i]))
    && (forall key | key in tx.readKeys :: Used(ops, key))
    && (forall prefix, key | prefix in tx.readPrefixes && prefix <= key :: Used(ops, key))
  }

  ghost predicate SessionOk(store: Store, s: Session) {
    s.tx.start <= store.version && Explains(Snapshot(store, s.tx.start), s.ops) && Tracks(s.tx, s.ops)
  }

  /** The i-th committed transaction changed what the key holds. */
  ghost predicate Touches(log: seq<Committed>, i: nat, key: Key)
    requires i < |log|
  {
    && key in Writes(log[i].ops)
    && (Writes(log[i].ops)[key].Some? || key in SerialDb(log[..i]))
  }

  ghost predicate TouchedAfter(log: seq<Committed>, key: Key, v: nat) {
    exists i :: 0 <= i < |log| && log[i].version > v && Touches(log, i, key)
  }

  ghost predicate ChangesOk(store: Store, log: seq<Committed>) {
    forall key, v: nat :: ChangedAfter(ChainOf(store, key), v) <==> TouchedAfter(log, key, v)
  }

  ghost predicate SnapshotsOk(store: Store, log: seq<Committed>) {
    && Snapshot(store, 0) == map[]
    && (forall i | 0 <= i < |log| :: log[i].version <= store.version && Snapshot(store, log[i].version) == SerialDb(log[..i + 1]))
    && Snapshot(store, store.version) == SerialDb(log)
  }

  ghost predicate Inv(s: State) {
    && StoreOk(s.store) && Serial(s.log) && SnapshotsOk(s.store, s.log) && ChangesOk(s.store, s.log)
    && (forall t | 0 <= t < |s.sessions| && !s.sessions[t].tx.closed :: SessionOk(s.store, s.sessions[t]))
  }

  // ---------------------------------------------------------------- one operation

  lemma ExplainsOneMore(db: Db, ops: seq<Op>, op: Op)
    requires Explains(db, ops) && Answers(PerformAll(db, ops), op)
    ensures Explains(db, ops + [op])
  {
    forall i | 0 <= i < |ops| + 1 ensures Answers(PerformAll(db, (ops + [op])[..i]), (ops + [op])[i]) {
      assert (ops + [op])[..i] == ops[..i];
      assert i == |ops| ==> ops[..i] == ops;
    }
  }

  lemma WritesOneMore(ops: seq<Op>, op: Op)
    ensures Writes(ops + [op]) ==
      if op.Put? then Writes(ops)[op.key := Some(op.newValue)] else if op.Deleted? then Writes(ops)[op.key := None] else Writes(ops)
  {
    assert (ops + [op])[..|ops|] == ops;
  }

  lemma UsedOneMore(ops: seq<Op>, op: Op, key: Key)
    ensures Used(ops + [op], key) <==> Used(ops, key) || Uses(op, key)
  {
    if Used(ops, key) {
      var i :| 0 <= i < |ops| && Uses(ops[i], key);
      assert Uses((ops + [op])[i], key);
    }
    if Uses(op, key) {
      assert Uses((ops + [op])[|ops|], key);
    }
  }

  lemma TracksOneMore(tx: Tx, ops: seq<Op>, tx': Tx, op: Op)
    requires Tracks(tx, ops)
    requires tx'.pending == Writes(ops + [op])
    requires tx.readKeys <= tx'.readKeys && tx.readPrefixes <= tx'.readPrefixes && DependsOn(tx'.readKeys, tx'.readPrefixes, op)
    requires forall key | key in tx'.readKeys - tx.readKeys :: Uses(op, key)
    requires forall prefix, key | prefix in tx'.readPrefixes - tx.readPrefixes && prefix <= key :: Uses(op, key)
    ensures Tracks(tx', ops + [op])
  {
    forall key ensures Used(ops + [op], key) <==> Used(ops, key) || Uses(op, key) {
      UsedOneMore(ops, op, key);
    }
    forall prefix, key | prefix in tx'.readPrefixes && prefix <= key ensures Used(ops + [op], key) {
      if prefix in tx.readPrefixes {
        assert Used(ops, key);
      } else {
        assert prefix in tx'.readPrefixes - tx.readPrefixes && Uses(op, key);
      }
    }
    forall i | 0 <= i < |ops| + 1 ensures DependsOn(tx'.readKeys, tx'.readPrefixes, (ops + [op])[i]) {
      assert i < |ops| ==> DependsOn(tx.readKeys, tx.readPrefixes, ops[i]);
    }
  }

  /** A read answers as the transaction's own plain map would. */
  lemma ReadIsLookup(store: Store, s: Session, key: Key)
    requires SessionOk(store, s)
    ensures ReadValue(store, s.tx, key) == Lookup(PerformAll(Snapshot(store, s.tx.start), s.ops), key)
  {
    PerformIsOverlay(Snapshot(store, s.tx.start), s.ops, key);
    LookupSnapshot(store, s.tx.start, key);
  }

  lemma ScanIsPrefix(store: Store, s: Session, prefix: string)
    requires SessionOk(store, s)
    ensures ScanResult(store, s.tx, prefix) == WithPrefix(PerformAll(Snapshot(store, s.tx.start), s.ops), prefix)
  {
    var db := PerformAll(Snapshot(store, s.tx.start), s.ops);
    var x, y := ScanResult(store, s.tx, prefix), WithPrefix(db, prefix);
    forall key ensures (key in x <==> key in y) && (key in x && key in y ==> x[key] == y[key]) {
      ReadIsLookup(store, s, key);
      assert ReadValue(store, s.tx, key).Some? ==> key in store.versions.Keys + s.tx.pending.Keys;
    }
  }

  lemma GetKeepsSession(store: Store, s: Session, key: Key)
    requires SessionOk(store, s)
    ensures SessionOk(store, Session(ReadTx(s.tx, key), s.ops + [Got(key, ReadValue(store, s.tx, key))]))
  {
    var op := Got(key, ReadValue(store, s.tx, key));
    ReadIsLookup(store, s, key);
    ExplainsOneMore(Snapshot(store, s.tx.start), s.ops, op);
    WritesOneMore(s.ops, op);
    TracksOneMore(s.tx, s.ops, ReadTx(s.tx, key), op);
  }

  lemma WriteKeepsSession(store: Store, s: Session, key: Key, value: Option<Value>)
    requires SessionOk(store, s)
    ensures SessionOk(store, Session(WriteTx(s.tx, key, value), s.ops + [if value.Some? then Put(key, value.value) else Deleted(key)]))
  {
    var op := if value.Some? then Put(key, value.value) else Deleted(key);
    ExplainsOneMore(Snapshot(store, s.tx.start), s.ops, op);
    WritesOneMore(s.ops, op);
    TracksOneMore(s.tx, s.ops, WriteTx(s.tx, key, value), op);
  }

  lemma ScanKeepsSession(store: Store, s: Session, prefix: string)
    requires SessionOk(store, s)
    ensures SessionOk(store, Session(ScanTx(store, s.tx, prefix), s.ops + [Scanned(prefix, ScanResult(store, s.tx, prefix))]))
  {
    var op := Scanned(prefix, ScanResult(store, s.tx, prefix));
    ScanIsPrefix(store, s, prefix);
    ExplainsOneMore(Snapshot(store, s.tx.start), s.ops, op);
    WritesOneMore(s.ops, op);
    TracksOneMore(s.tx, s.ops, ScanTx(store, s.tx, prefix), op);
  }

  // ---------------------------------------------------------------- commit

  /** Validation is sound: what was read from the old snapshot is still so, phantoms included. */
  lemma ValidatedReadsHold(store: Store, tx: Tx)
    requires StoreOk(store) && tx.start <= store.version && !Conflicts(store, tx)
    ensures SameOn(Snapshot(store, tx.start), Snapshot(store, store.version), tx.readKeys, tx.readPrefixes)
  {
    forall key | key in tx.readKeys || exists prefix :: prefix in tx.readPrefixes && prefix <= key
      ensures Lookup(Snapshot(store, tx.start), key) == Lookup(Snapshot(store, store.version), key)
    {
      LookupSnapshot(store, tx.start, key);
      LookupSnapshot(store, store.version, key);
      if key in store.versions {
        assert key in Watched(store, tx);
        SameViewUnlessChanged(ChainOf(store, key), tx.start, store.version);
      }
    }
  }

  /** The serial run gains the transaction's writes exactly where the store does. */
  lemma CommitIsSerial(store: Store, tx: Tx, log: seq<Committed>, ops: seq<Op>)
    requires StoreOk(store) && Snapshot(store, store.version) == SerialDb(log) && tx.pending == Writes(ops)
    ensures var store' := CommitStore(store, tx);
      Snapshot(store', store'.version) == SerialDb(log + [Committed(store'.version, ops)]) == PerformAll(SerialDb(log), ops)
  {
    var store' := CommitStore(store, tx);
    var entry := Committed(store'.version, ops);
    assert (log + [entry])[..|log|] == log;
    forall key ensures Lookup(Snapshot(store', store'.version), key) == Lookup(PerformAll(SerialDb(log), ops), key) {
      CommitShowsWrites(store, tx, key);
      PerformIsOverlay(SerialDb(log), ops, key);
    }
    SameLookups(Snapshot(store', store'.version), PerformAll(SerialDb(log), ops));
  }

  lemma CommitKeepsSnapshotsOk(store: Store, tx: Tx, log: seq<Committed>, ops: seq<Op>)
    requires StoreOk(store) && SnapshotsOk(store, log) && tx.pending == Writes(ops)
    ensures SnapshotsOk(CommitStore(store, tx), log + [Committed(CommitStore(store, tx).version, ops)])
  {
    var store' := CommitStore(store, tx);
    var log' := log + [Committed(store'.version, ops)];
    CommitIsSerial(store, tx, log, ops);
    CommitKeepsSnapshots(store, tx, 0);
    forall i | 0 <= i < |log'|
      ensures log'[i].version <= store'.version && Snapshot(store', log'[i].version) == SerialDb(log'[..i + 1])
    {
      if i < |log| {
        CommitKeepsSnapshots(store, tx, log[i].version);
        assert log'[..i + 1] == log[..i + 1];
      } else {
        assert log'[..i + 1] == log';
      }
    }
  }

  lemma TouchedOneMore(log: seq<Committed>, entry: Committed, key: Key, v: nat)
    ensures TouchedAfter(log + [entry], key, v) <==>
      TouchedAfter(log, key, v)
      || (entry.version > v && key in Writes(entry.ops) && (Writes(entry.ops)[key].Some? || key in SerialDb(log)))
  {
    var log' := log + [entry];
    assert log'[..|log|] == log;
    forall i | 0 <= i < |log| ensures Touches(log', i, key) == Touches(log, i, key) && log'[i] == log[i] {
      assert log'[..i] == log[..i];
    }
    if TouchedAfter(log, key, v) {
      var i :| 0 <= i < |log| && log[i].version > v && Touches(log, i, key);
      assert log'[i].version > v && Touches(log', i, key);
    }
    if entry.version > v && key in Writes(entry.ops) && (Writes(entry.ops)[key].Some? || key in SerialDb(log)) {
      assert log'[|log|].version > v && Touches(log', |log|, key);
    }
  }

  lemma ChainChanges(store: Store, tx: Tx, key: Key, v: nat)
    requires StoreOk(store)
    ensures ChangedAfter(ChainOf(CommitStore(store, tx), key), v)
      <==> (ChangedAfter(ChainOf(store, key), v)
            || (v <= store.version && key in tx.pending && (tx.pending[key].Some? || key in Snapshot(store, store.version))))
  {
    hide ChangedAfter, Written, Visible, ChainOk;
    if key in tx.pending {
      EmptyChainOk(store.version);
      WriteChanges(ChainOf(store, key), store.version, tx.pending[key], v);
      LookupSnapshot(store, store.version, key);
    }
  }

  lemma CommitKeepsChangesOk(store: Store, tx: Tx, log: seq<Committed>, ops: seq<Op>)
    requires StoreOk(store) && SnapshotsOk(store, log) && ChangesOk(store, log) && tx.pending == Writes(ops)
    ensures ChangesOk(CommitStore(store, tx), log + [Committed(CommitStore(store, tx).version, ops)])
  {
    hide StoreOk, SnapshotsOk, ChangedAfter, TouchedAfter, Snapshot, ChainOf;
    var store' := CommitStore(store, tx);
    var entry := Committed(store'.version, ops);
    LatestSnapshot(store, log);
    forall key, v: nat ensures ChangedAfter(ChainOf(store', key), v) <==> TouchedAfter(log + [entry], key, v) {
      TouchedOneMore(log, entry, key, v);
      assert ChangedAfter(ChainOf(store, key), v) <==> TouchedAfter(log, key, v);
      ChainChanges(store, tx, key, v);
    }
  }

  /** Validation answers exactly the question: has a transaction that committed since this one began
      changed a key this one used? */
  lemma ConflictMeansOverlap(store: Store, log: seq<Committed>, s: Session)
    requires ChangesOk(store, log) && Tracks(s.tx, s.ops)
    ensures Conflicts(store, s.tx) <==> exists key :: Used(s.ops, key) && TouchedAfter(log, key, s.tx.start)
  {
    if Conflicts(store, s.tx) {
      var key :| key in Watched(store, s.tx) && ChangedAfter(ChainOf(store, key), s.tx.start);
      if key in s.tx.pending { WrittenIsUsed(s.ops, key); }
      assert Used(s.ops, key) && TouchedAfter(log, key, s.tx.start);
    }
    if key :| Used(s.ops, key) && TouchedAfter(log, key, s.tx.start) {
      var i :| 0 <= i < |s.ops| && Uses(s.ops[i], key);
      assert DependsOn(s.tx.readKeys, s.tx.readPrefixes, s.ops[i]);
      assert ChangedAfter(ChainOf(store, key), s.tx.start);
      if s.ops[i].Put? || s.ops[i].Deleted? { WrittenIsPending(s.ops, i); }
      assert key in Watched(store, s.tx);
    }
  }

  lemma {:induction false} WrittenIsUsed(ops: seq<Op>, key: Key)
    requires key in Writes(ops)
    ensures Used(ops, key)
  {
    var last := |ops| - 1;
    if Uses(ops[last], key) {
    } else {
      WrittenIsUsed(ops[..last], key);
      UsedOneMore(ops[..last], ops[last], key);
      assert ops[..last] + [ops[last]] == ops;
    }
  }

  lemma {:induction false} WrittenIsPending(ops: seq<Op>, i: nat)
    requires i < |ops| && (ops[i].Put? || ops[i].Deleted?)
    ensures ops[i].key in Writes(ops)
  {
    if i < |ops| - 1 {
      WrittenIsPending(ops[..|ops| - 1], i);
    }
  }

  lemma SerialOneMore(log: seq<Committed>, entry: Committed)
    requires Serial(log) && Explains(SerialDb(log), entry.ops)
    ensures Serial(log + [entry])
  {
    var log' := log + [entry];
    forall i | 0 <= i < |log'| ensures Explains(SerialDb(log'[..i]), log'[i].ops) {
      assert log'[..i] == log[..i];
      assert i == |log| ==> log[..i] == log;
    }
  }

  lemma CommitKeepsInv(s: State, t: nat)
    requires Inv(s) && Open(s, t) && !Conflicts(s.store, s.sessions[t].tx)
    ensures Inv(Next(s, Commit(t)))
  {
    hide StoreOk, Serial, ChangesOk, SnapshotsOk, Explains, Tracks, SameOn;
    var session := s.sessions[t];
    var s' := Next(s, Commit(t));
    ValidatedReadsHold(s.store, session.tx);
    TrackedDepends(session.tx, session.ops);
    ExplainsTransfers(Snapshot(s.store, session.tx.start), Snapshot(s.store, s.store.version),
                      session.tx.readKeys, session.tx.readPrefixes, session.ops);
    LatestSnapshot(s.store, s.log);
    SerialOneMore(s.log, Committed(s'.store.version, session.ops));
    CommitKeepsSnapshotsOk(s.store, session.tx, s.log, session.ops);
    CommitKeepsChangesOk(s.store, session.tx, s.log, session.ops);
    CommitKeepsSnapshots(s.store, session.tx, 0);
    forall u | 0 <= u < |s'.sessions| && !s'.sessions[u].tx.closed ensures SessionOk(s'.store, s'.sessions[u]) {
      assert SessionOk(s.store, s.sessions[u]);
      CommitKeepsSnapshots(s.store, session.tx, s.sessions[u].tx.start);
    }
  }

  lemma TrackedDepends(tx: Tx, ops: seq<Op>)
    requires Tracks(tx, ops)
    ensures tx.pending == Writes(ops)
    ensures forall i | 0 <= i < |ops| :: DependsOn(tx.readKeys, tx.readPrefixes, ops[i])
  {
  }

  lemma LatestSnapshot(store: Store, log: seq<Committed>)
    requires SnapshotsOk(store, log)
    ensures Snapshot(store, store.version) == SerialDb(log)
  {
  }

  lemma StepKeepsInv(s: State, action: Action)
    requires Inv(s)
    ensures Inv(Next(s, action))
  {
    hide StoreOk, Serial, ChangesOk, SnapshotsOk, SessionOk;
    match action
    case BeginTransaction => FreshSessionOk(s.store);
    case Get(t, key) => if Open(s, t) { GetKeepsSession(s.store, s.sessions[t], key); }
    case PutKey(t, key, value) => if Open(s, t) { WriteKeepsSession(s.store, s.sessions[t], key, Some(value)); }
    case DeleteKey(t, key) => if Open(s, t) { WriteKeepsSession(s.store, s.sessions[t], key, None); }
    case Scan(t, prefix) => if Open(s, t) { ScanKeepsSession(s.store, s.sessions[t], prefix); }
    case Commit(t) => if Open(s, t) && !Conflicts(s.store, s.sessions[t].tx) { CommitKeepsInv(s, t); }
    case Rollback(t) =>
  }

  lemma FreshSessionOk(store: Store)
    ensures SessionOk(store, Session(BeginTx(store), []))
  {
  }

  lemma {:induction false} RunKeepsInv(s: State, actions: seq<Action>)
    requires Inv(s)
    ensures Inv(RunFrom(s, actions))
    decreases |actions|
  {
    if actions != [] {
      StepKeepsInv(s, actions[0]);
      RunKeepsInv(Next(s, actions[0]), actions[1..]);
    }
  }

  // ---------------------------------------------------------------- main results

  /** Every run is serializable in commit order: replayed one by one on a plain map, the committed
      transactions, read-only ones included, get every answer they got, and leave what the store shows. */
  lemma Serializable(actions: seq<Action>)
    ensures Serial(Run(actions).log)
    ensures SerialDb(Run(actions).log) == Snapshot(Run(actions).store, Run(actions).store.version)
  {
    assert Inv(Initial());
    RunKeepsInv(Initial(), actions);
  }

  /** A transaction that is still open has so far read from the serial state some committed prefix left. */
  lemma OpenReadsSerialState(actions: seq<Action>, t: nat)
    requires Open(Run(actions), t)
    ensures var s := Run(actions);
      && Explains(Snapshot(s.store, s.sessions[t].tx.start), s.sessions[t].ops)
      && (forall i | 0 <= i < |s.log| :: Snapshot(s.store, s.log[i].version) == SerialDb(s.log[..i + 1]))
  {
    assert Inv(Initial());
    RunKeepsInv(Initial(), actions);
  }

  /** A commit is refused exactly when a transaction that committed since this one began changed a key
      this one read, wrote, or scanned over. */
  lemma RefusedIffOverlap(actions: seq<Action>, t: nat)
    requires Open(Run(actions), t)
    ensures var s := Run(actions);
      Next(s, Commit(t)) == s <==> exists key :: Used(s.sessions[t].ops, key) && TouchedAfter(s.log, key, s.sessions[t].tx.start)
  {
    var s := Run(actions);
    SessionFacts(actions, t);
    ConflictMeansOverlap(s.store, s.log, s.sessions[t]);
    CommitRefused(s, t);
  }

  lemma SessionFacts(actions: seq<Action>, t: nat)
    requires Open(Run(actions), t)
    ensures var s := Run(actions); ChangesOk(s.store, s.log) && Tracks(s.sessions[t].tx, s.sessions[t].ops)
  {
    assert Inv(Initial());
    RunKeepsInv(Initial(), actions);
  }

  lemma CommitRefused(s: State, t: nat)
    requires Open(s, t)
    ensures Next(s, Commit(t)) == s <==> Conflicts(s.store, s.sessions[t].tx)
  {
    assert Open(Next(s, Commit(t)), t) <==> Conflicts(s.store, s.sessions[t].tx);
  }

  lemma OverlapLasts(ops: seq<Op>, ops': seq<Op>, log: seq<Committed>, log': seq<Committed>, key: Key, v: nat)
    requires ops <= ops' && log <= log' && Used(ops, key) && TouchedAfter(log, key, v)
    ensures Used(ops', key) && TouchedAfter(log', key, v)
  {
    var i :| 0 <= i < |ops| && Uses(ops[i], key);
    assert Uses(ops'[i], key);
    var j :| 0 <= j < |log| && log[j].version > v && Touches(log, j, key);
    assert log'[..j] == log[..j] && Touches(log', j, key);
  }

  lemma StepGrows(s: State, action: Action, t: nat)
    requires t < |s.sessions|
    ensures var s' := Next(s, action);
      && |s.sessions| <= |s'.sessions| && s.log <= s'.log && s.sessions[t].ops <= s'.sessions[t].ops
      && s'.sessions[t].tx.start == s.sessions[t].tx.start
      && (s.sessions[t].tx.closed ==> s'.sessions[t].tx.closed)
  {
  }

  lemma {:induction false} RunGrows(s: State, actions: seq<Action>, t: nat)
    requires t < |s.sessions|
    ensures var s' := RunFrom(s, actions);
      && |s.sessions| <= |s'.sessions| && s.log <= s'.log && s.sessions[t].ops <= s'.sessions[t].ops
      && s'.sessions[t].tx.start == s.sessions[t].tx.start
    decreases |actions|
  {
    if actions != [] {
      StepGrows(s, actions[0], t);
      RunGrows(Next(s, actions[0]), actions[1..], t);
    }
  }

  lemma {:induction false} RunSplits(s: State, first: seq<Action>, second: seq<Action>)
    ensures RunFrom(s, first + second) == RunFrom(RunFrom(s, first), second)
    decreases |first|
  {
    if first == [] {
      assert first + second == second;
    } else {
      assert (first + second)[1..] == first[1..] + second;
      RunSplits(Next(s, first[0]), first[1..], second);
    }
  }

  /** Retrying a refused commit never helps: as long as the transaction stays open it stays refused. */
  lemma DoomedStaysDoomed(actions: seq<Action>, more: seq<Action>, t: nat)
    requires Open(Run(actions), t) && Conflicts(Run(actions).store, Run(actions).sessions[t].tx)
    requires Open(Run(actions + more), t)
    ensures Conflicts(Run(actions + more).store, Run(actions + more).sessions[t].tx)
  {
    hide Conflicts, Used, TouchedAfter, RunFrom;
    var s, s' := Run(actions), Run(actions + more);
    SessionFacts(actions, t);
    SessionFacts(actions + more, t);
    RunSplits(Initial(), actions, more);
    RunGrows(s, more, t);
    ConflictMeansOverlap(s.store, s.log, s.sessions[t]);
    ConflictMeansOverlap(s'.store, s'.log, s'.sessions[t]);
    var key :| Used(s.sessions[t].ops, key) && TouchedAfter(s.log, key, s.sessions[t].tx.start);
    OverlapLasts(s.sessions[t].ops, s'.sessions[t].ops, s.log, s'.log, key, s.sessions[t].tx.start);
  }

  lemma StepKeepsSnapshot(s: State, action: Action, v: nat)
    requires Inv(s) && v <= s.store.version
    ensures s.store.version <= Next(s, action).store.version
    ensures Snapshot(Next(s, action).store, v) == Snapshot(s.store, v)
  {
    if action.Commit? && Open(s, action.t) {
      CommitKeepsSnapshots(s.store, s.sessions[action.t].tx, v);
    }
  }

  /** No later call changes what any earlier version shows. */
  lemma {:induction false} SnapshotsNeverChange(actions: seq<Action>, more: seq<Action>, v: nat)
    requires v <= Run(actions).store.version
    ensures Snapshot(Run(actions + more).store, v) == Snapshot(Run(actions).store, v)
    decreases |more|
  {
    assert Inv(Initial());
    RunKeepsInv(Initial(), actions);
    if more == [] {
      assert actions + more == actions;
    } else {
      RunSplits(Initial(), actions, [more[0]]);
      StepKeepsSnapshot(Run(actions), more[0], v);
      assert Run(actions + [more[0]]) == Next(Run(actions), more[0]) by {
        assert RunFrom(Run(actions), [more[0]]) == RunFrom(Next(Run(actions), more[0]), []);
      }
      SnapshotsNeverChange(actions + [more[0]], more[1..], v);
      assert actions + more == actions + [more[0]] + more[1..];
    }
  }

  // ---------------------------------------------------------------- from its own beginning

  /** The run up to `actions`, a transaction that begins there, and the run that goes on. */
  function Begun(actions: seq<Action>, more: seq<Action>): State {
    Run(actions + [BeginTransaction] + more)
  }

  lemma BegunIs(actions: seq<Action>, more: seq<Action>)
    ensures var s, t := Run(actions), |Run(actions).sessions|;
      && Inv(s) && Begun(actions, more) == RunFrom(Next(s, BeginTransaction), more)
      && t < |Begun(actions, more).sessions| && Begun(actions, more).sessions[t].tx.start == s.store.version
  {
    hide Inv;
    assert Inv(Initial()) by { InitialOk(); }
    RunKeepsInv(Initial(), actions);
    var s := Run(actions);
    RunSplits(Initial(), actions, [BeginTransaction] + more);
    assert actions + [BeginTransaction] + more == actions + ([BeginTransaction] + more);
    assert ([BeginTransaction] + more)[1..] == more;
    RunGrows(Next(s, BeginTransaction), more, |s.sessions|);
  }

  lemma InitialOk()
    ensures Inv(Initial())
  {
  }

  lemma {:induction false} RunKeepsSnapshot(s: State, more: seq<Action>, v: nat)
    requires Inv(s) && v <= s.store.version
    ensures v <= RunFrom(s, more).store.version && Snapshot(RunFrom(s, more).store, v) == Snapshot(s.store, v)
    decreases |more|
  {
    hide Inv, Snapshot, Next;
    if more != [] {
      StepKeepsSnapshot(s, more[0], v);
      StepKeepsInv(s, more[0]);
      RunKeepsSnapshot(Next(s, more[0]), more[1..], v);
    }
  }

  /** Whatever happens after it began, an open transaction has read from the serial state at its beginning, overlaid
      with its own writes, and will go on to. */
  lemma OpenReadsStateAtBegin(actions: seq<Action>, more: seq<Action>, key: Key, prefix: string)
    requires Open(Begun(actions, more), |Run(actions).sessions|)
    ensures var s, t, db := Begun(actions, more), |Run(actions).sessions|, SerialDb(Run(actions).log);
      var mine := PerformAll(db, s.sessions[t].ops);
      && Explains(db, s.sessions[t].ops)
      && Next(s, Get(t, key)).sessions[t].ops == s.sessions[t].ops + [Got(key, Lookup(mine, key))]
      && Next(s, Scan(t, prefix)).sessions[t].ops == s.sessions[t].ops + [Scanned(prefix, WithPrefix(mine, prefix))]
  {
    hide Inv, RunFrom, Explains, Snapshot, SerialDb;
    var s0, s, t := Run(actions), Begun(actions, more), |Run(actions).sessions|;
    BegunIs(actions, more);
    var b := Next(s0, BeginTransaction);
    StepKeepsInv(s0, BeginTransaction);
    RunKeepsInv(b, more);
    RunKeepsSnapshot(b, more, s0.store.version);
    InvFacts(s0);
    InvSession(s, t);
    ReadIsLookup(s.store, s.sessions[t], key);
    ScanIsPrefix(s.store, s.sessions[t], prefix);
  }

  lemma InvFacts(s: State)
    requires Inv(s)
    ensures Snapshot(s.store, s.store.version) == SerialDb(s.log)
    ensures forall i | 0 <= i < |s.log| :: s.log[i].version <= s.store.version
  {
  }

  lemma InvSession(s: State, t: nat)
    requires Inv(s) && Open(s, t)
    ensures SessionOk(s.store, s.sessions[t])
  {
  }

  /** So right after it begins, a transaction reads what the commits so far have left. */
  lemma BeginReadsPresent(actions: seq<Action>, key: Key, prefix: string)
    ensures var b, t, db := Run(actions + [BeginTransaction]), |Run(actions).sessions|, SerialDb(Run(actions).log);
      && Open(b, t)
      && Next(b, Get(t, key)).sessions[t].ops == [Got(key, Lookup(db, key))]
      && Next(b, Scan(t, prefix)).sessions[t].ops == [Scanned(prefix, WithPrefix(db, prefix))]
  {
    assert actions + [BeginTransaction] + [] == actions + [BeginTransaction];
    BegunIs(actions, []);
    assert Begun(actions, []).sessions[|Run(actions).sessions|] == Session(BeginTx(Run(actions).store), []);
    OpenReadsStateAtBegin(actions, [], key, prefix);
  }

  /** Commits that change something raise the version. */
  ghost predicate NewerFrom(log: seq<Committed>, n: nat, v: nat) {
    forall i, key | n <= i < |log| && Touches(log, i, key) :: log[i].version > v
  }

  lemma StepKeepsNewer(s: State, action: Action, n: nat, v: nat)
    requires Inv(s) && v <= s.store.version && n <= |s.log| && NewerFrom(s.log, n, v)
    ensures v <= Next(s, action).store.version && NewerFrom(Next(s, action).log, n, v)
  {
    if action.Commit? && Open(s, action.t) && !Conflicts(s.store, s.sessions[action.t].tx) {
      var t := action.t;
      var log' := Next(s, action).log;
      InvSession(s, t);
      hide Inv;
      forall i, key | n <= i < |log'| && Touches(log', i, key) ensures log'[i].version > v {
        assert log'[..i] == s.log[..i];
        assert i < |s.log| ==> Touches(s.log, i, key);
      }
    }
  }

  lemma {:induction false} RunKeepsNewer(s: State, more: seq<Action>, n: nat, v: nat)
    requires Inv(s) && v <= s.store.version && n <= |s.log| && NewerFrom(s.log, n, v)
    ensures NewerFrom(RunFrom(s, more).log, n, v)
    decreases |more|
  {
    hide Inv, NewerFrom;
    if more != [] {
      StepKeepsInv(s, more[0]);
      StepKeepsNewer(s, more[0], n, v);
      LogGrows(s, more[0]);
      RunKeepsNewer(Next(s, more[0]), more[1..], n, v);
    }
  }

  lemma LogGrows(s: State, action: Action)
    ensures s.log <= Next(s, action).log
  {
  }

  lemma {:induction false} RunGrowsLog(s: State, more: seq<Action>)
    ensures s.log <= RunFrom(s, more).log
    decreases |more|
  {
    if more != [] {
      LogGrows(s, more[0]);
      RunGrowsLog(Next(s, more[0]), more[1..]);
    }
  }

  /** A commit is refused exactly when a transaction that committed after this one began, in the run, changed a key
      this one read, wrote, or scanned over; so never when none committed in between. */
  lemma RefusedIffOverlapSinceBegin(actions: seq<Action>, more: seq<Action>)
    requires Open(Begun(actions, more), |Run(actions).sessions|)
    ensures var s0, s, t := Run(actions), Begun(actions, more), |Run(actions).sessions|;
      && s0.log <= s.log
      && (Next(s, Commit(t)) == s <==> exists key, i :: |s0.log| <= i < |s.log| && Used(s.sessions[t].ops, key) && Touches(s.log, i, key))
      && (s.log == s0.log ==> Next(s, Commit(t)) != s)
  {
    hide Inv, RunFrom, Conflicts, Used, Touches;
    var s0, s, t := Run(actions), Begun(actions, more), |Run(actions).sessions|;
    var v, n := s0.store.version, |s0.log|;
    BegunIs(actions, more);
    var b := Next(s0, BeginTransaction);
    StepKeepsInv(s0, BeginTransaction);
    RunGrowsLog(b, more);
    InvFacts(s0);
    RunKeepsNewer(b, more, n, v);
    RefusedIffOverlap(actions + [BeginTransaction] + more, t);
    assert forall i | 0 <= i < n :: s.log[i].version <= v;
    assert forall key :: TouchedAfter(s.log, key, v) <==> exists i :: n <= i < |s.log| && Touches(s.log, i, key) by {
      forall key ensures TouchedAfter(s.log, key, v) <==> exists i :: n <= i < |s.log| && Touches(s.log, i, key) {
        if TouchedAfter(s.log, key, v) {
          var i :| 0 <= i < |s.log| && s.log[i].version > v && Touches(s.log, i, key);
          assert i >= n;
        }
      }
    }
  }

  lemma {:induction false} RunStaysClosed(s: State, more: seq<Action>, t: nat)
    requires t < |s.sessions| && s.sessions[t].tx.closed
    ensures !Open(RunFrom(s, more), t) && t < |RunFrom(s, more).sessions| && RunFrom(s, more).sessions[t].ops == s.sessions[t].ops
    decreases |more|
  {
    if more != [] { RunStaysClosed(Next(s, more[0]), more[1..], t); }
  }

  /** A transaction that was rolled back answers nothing more and commits nothing, whatever is called. */
  lemma RolledBackIsOver(actions: seq<Action>, more: seq<Action>, t: nat)
    requires Open(Run(actions), t)
    ensures var s := Run(actions + [Rollback(t)] + more);
      && t < |s.sessions| && s.sessions[t].ops == Run(actions).sessions[t].ops
      && Next(s, Commit(t)) == s
      && forall key :: Next(s, Get(t, key)) == s
  {
    hide Conflicts, ReadValue;
    RunSplits(Initial(), actions, [Rollback(t)] + more);
    assert actions + [Rollback(t)] + more == actions + ([Rollback(t)] + more);
    assert ([Rollback(t)] + more)[1..] == more;
    RunStaysClosed(Next(Run(actions), Rollback(t)), more, t);
  }
}
