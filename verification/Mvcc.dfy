/** The multi-version store of novadb/mvcc.py: version chains, snapshot reads, and validation of a
    transaction's reads, writes and scanned prefixes when it commits. */
module Mvcc {

  type Key = string
  type Value(==, !new)
  type Db = map<Key, Value>

  datatype Option<T> = None | Some(value: T)

  // ---------------------------------------------------------------- version chains

  datatype Version = Version(created: nat, value: Value, deleted: Option<nat>)

  /** The version is what a reader at `v` sees. */
  predicate LiveAt(item: Version, v: nat) {
    item.created <= v && (item.deleted.Some? ==> v < item.deleted.value)
  }

  /** _visible: the newest version alive at `v`. */
  function Visible(chain: seq<Version>, v: nat): (r: Option<Value>)
  {
    if chain == [] then None
    else if LiveAt(chain[|chain| - 1], v) then Some(chain[|chain| - 1].value)
    else Visible(chain[..|chain| - 1], v)
  }

  /** The version appeared or disappeared after `v`. */
  predicate After(item: Version, v: nat) {
    item.created > v || (item.deleted.Some? && item.deleted.value > v)
  }

  predicate ChangedAfter(chain: seq<Version>, v: nat) {
    exists i :: 0 <= i < |chain| && After(chain[i], v)
  }

  /** One pending write, at version `now`: the live version ends, a new one begins unless the key is deleted. */
  function Written(chain: seq<Version>, now: nat, value: Option<Value>): seq<Version> {
    var last := |chain| - 1;
    var ended := if Visible(chain, now).Some? && chain != [] && chain[last].deleted.None?
                 then chain[last := chain[last].(deleted := Some(now))] else chain;
    if value.Some? then ended + [Version(now, value.value, None)] else ended
  }

  predicate Precedes(a: Version, b: Version) {
    a.deleted.Some? && a.deleted.value <= b.created
  }

  /** Lifetimes follow each other without overlap, all within the first `version` commits. */
  ghost predicate ChainOk(chain: seq<Version>, version: nat) {
    && (forall i | 0 <= i < |chain| :: chain[i].created <= version)
    && (forall i | 0 <= i < |chain| && chain[i].deleted.Some? :: chain[i].created < chain[i].deleted.value <= version)
    && (forall i, j | 0 <= i < j < |chain| :: Precedes(chain[i], chain[j]))
  }

  lemma {:induction false} DeadChain(chain: seq<Version>, v: nat)
    requires forall i | 0 <= i < |chain| :: !LiveAt(chain[i], v)
    ensures Visible(chain, v) == None
  {
    if chain != [] { DeadChain(chain[..|chain| - 1], v); }
  }

  /** Between versions that saw no change, readers see the same. */
  lemma {:induction false} SameViewUnlessChanged(chain: seq<Version>, v: nat, w: nat)
    requires v <= w && !ChangedAfter(chain, v)
    ensures Visible(chain, v) == Visible(chain, w)
  {
    if chain != [] {
      var last := |chain| - 1;
      assert !After(chain[last], v);
      forall i | 0 <= i < last ensures !After(chain[..last][i], v) {
        assert chain[..last][i] == chain[i];
      }
      SameViewUnlessChanged(chain[..last], v, w);
    }
  }

  function Ended(chain: seq<Version>, now: nat): seq<Version> {
    var last := |chain| - 1;
    if chain != [] && chain[last].deleted.None? then chain[last := chain[last].(deleted := Some(now))] else chain
  }

  lemma EndedOk(chain: seq<Version>, version: nat)
    requires ChainOk(chain, version)
    ensures ChainOk(Ended(chain, version + 1), version + 1)
    ensures forall item | item in Ended(chain, version + 1) :: item.deleted.Some?
  {
    var last := |chain| - 1;
    var ended := Ended(chain, version + 1);
    forall i, j | 0 <= i < j < |ended| ensures Precedes(ended[i], ended[j]) {
      assert Precedes(chain[i], chain[j]);
    }
    forall i | 0 <= i < |chain| ensures ended[i].deleted.Some? {
      assert i < last ==> Precedes(chain[i], chain[last]);
    }
  }

  lemma AppendedOk(chain: seq<Version>, item: Version, version: nat)
    requires ChainOk(chain, version) && item.created == version && item.deleted.None?
    requires forall item | item in chain :: item.deleted.Some?
    ensures ChainOk(chain + [item], version)
  {
    var longer := chain + [item];
    forall i, j | 0 <= i < j < |longer| ensures Precedes(longer[i], longer[j]) {
      assert j < |chain| ==> Precedes(chain[i], chain[j]);
    }
  }

  lemma WriteKeepsChain(chain: seq<Version>, version: nat, value: Option<Value>)
    requires ChainOk(chain, version)
    ensures ChainOk(Written(chain, version + 1, value), version + 1)
  {
    var now := version + 1;
    if chain != [] {
      DeadChainBefore(chain, now);
    }
    EndedOk(chain, version);
    if value.Some? {
      hide ChainOk;
      AppendedOk(Ended(chain, now), Version(now, value.value, None), now);
    }
  }

  /** Only the last version of a chain can be alive now. */
  lemma DeadChainBefore(chain: seq<Version>, now: nat)
    requires chain != [] && ChainOk(chain, now)
    ensures Visible(chain[..|chain| - 1], now) == None
    ensures Visible(chain, now).Some? <==> LiveAt(chain[|chain| - 1], now)
  {
    var last := |chain| - 1;
    forall i | 0 <= i < last ensures !LiveAt(chain[..last][i], now) {
      assert chain[..last][i] == chain[i] && Precedes(chain[i], chain[last]);
    }
    DeadChain(chain[..last], now);
  }

  /** The new version shows the new value. */
  lemma WriteShows(chain: seq<Version>, version: nat, value: Option<Value>)
    requires ChainOk(chain, version)
    ensures Visible(Written(chain, version + 1, value), version + 1) == value
  {
    if chain != [] && value.None? {
      var last := |chain| - 1;
      DeadChainBefore(chain, version + 1);
      assert Written(chain, version + 1, value)[..last] == chain[..last];
    }
  }

  /** Every earlier reader sees what it saw before. */
  lemma WriteKeepsOld(chain: seq<Version>, version: nat, value: Option<Value>, v: nat)
    requires ChainOk(chain, version) && v <= version
    ensures Visible(Written(chain, version + 1, value), v) == Visible(chain, v)
  {
    var now := version + 1;
    var last := |chain| - 1;
    var ended := if Visible(chain, now).Some? && chain != [] && chain[last].deleted.None?
                 then chain[last := chain[last].(deleted := Some(now))] else chain;
    if chain != [] {
      assert ended[..last] == chain[..last];
    }
    if value.Some? {
      assert (ended + [Version(now, value.value, None)])[..|ended|] == ended;
    }
  }

  /** Exactly the effective writes count as changes: a new value, or a deletion of something visible. */
  lemma WriteChanges(chain: seq<Version>, version: nat, value: Option<Value>, v: nat)
    requires ChainOk(chain, version)
    ensures ChangedAfter(Written(chain, version + 1, value), v)
      <==> ChangedAfter(chain, v) || (v <= version && (value.Some? || Visible(chain, version).Some?))
  {
    var now := version + 1;
    var last := |chain| - 1;
    var written := Written(chain, now, value);
    if chain != [] {
      assert !ChangedAfter(chain, version);
      SameViewUnlessChanged(chain, version, now);
      var before := chain[..last];
      assert forall i | 0 <= i < last :: before[i] == chain[i] == written[i];
      DeadChain(before, now);
      assert Visible(chain, now).Some? <==> chain[last].deleted.None?;
      if ChangedAfter(chain, v) {
        var i :| 0 <= i < |chain| && After(chain[i], v);
        assert After(written[i], v);
      }
      if v <= version && chain[last].deleted.None? {
        assert After(written[last], v);
      }
    }
    if v <= version && value.Some? {
      assert After(written[|written| - 1], v);
    }
  }

  // ---------------------------------------------------------------- store and transactions

  datatype Store = Store(version: nat, versions: map<Key, seq<Version>>)

  datatype Tx = Tx(start: nat, pending: map<Key, Option<Value>>, readKeys: set<Key>, readPrefixes: set<string>, closed: bool)

  function ChainOf(store: Store, key: Key): seq<Version> {
    if key in store.versions then store.versions[key] else []
  }

  function BeginTx(store: Store): Tx {
    Tx(store.version, map[], {}, {}, false)
  }

  /** _read: own writes first, then the snapshot. */
  function ReadValue(store: Store, tx: Tx, key: Key): Option<Value> {
    if key in tx.pending then tx.pending[key] else Visible(ChainOf(store, key), tx.start)
  }

  function ReadTx(tx: Tx, key: Key): Tx {
    tx.(readKeys := tx.readKeys + {key})
  }

  function WriteTx(tx: Tx, key: Key, value: Option<Value>): Tx {
    tx.(pending := tx.pending[key := value])
  }

  function ScanKeys(store: Store, tx: Tx, prefix: string): set<Key> {
    set key | key in store.versions.Keys + tx.pending.Keys && prefix <= key
  }

  function ScanTx(store: Store, tx: Tx, prefix: string): Tx {
    tx.(readPrefixes := tx.readPrefixes + {prefix}, readKeys := tx.readKeys + ScanKeys(store, tx, prefix))
  }

  function ScanResult(store: Store, tx: Tx, prefix: string): map<Key, Value> {
    map key | key in ScanKeys(store, tx, prefix) && ReadValue(store, tx, key).Some? :: ReadValue(store, tx, key).value
  }

  /** The keys a commit validates: read, written, or under a scanned prefix now. */
  function Watched(store: Store, tx: Tx): set<Key> {
    tx.readKeys + tx.pending.Keys
    + (set prefix, key | prefix in tx.readPrefixes && key in store.versions.Keys + tx.pending.Keys && prefix <= key :: key)
  }

  predicate Conflicts(store: Store, tx: Tx) {
    exists key :: key in Watched(store, tx) && ChangedAfter(ChainOf(store, key), tx.start)
  }

  function CommitStore(store: Store, tx: Tx): Store {
    if tx.pending == map[] then store
    else
      var now := store.version + 1;
      Store(now, map key | key in store.versions.Keys + tx.pending.Keys ::
        if key in tx.pending then Written(ChainOf(store, key), now, tx.pending[key]) else ChainOf(store, key))
  }

  /** What a reader at version `v` sees. */
  function Snapshot(store: Store, v: nat): Db {
    map key | key in store.versions && Visible(store.versions[key], v).Some? :: Visible(store.versions[key], v).value
  }

  ghost predicate StoreOk(store: Store) {
    forall key | key in store.versions :: ChainOk(store.versions[key], store.version)
  }

  function Lookup(db: Db, key: Key): Option<Value> {
    if key in db then Some(db[key]) else None
  }

  lemma EmptyChainOk(version: nat)
    ensures ChainOk([], version)
  {
  }

  lemma NothingLater(chain: seq<Version>, version: nat)
    requires ChainOk(chain, version)
    ensures !ChangedAfter(chain, version) && ChainOk(chain, version + 1)
  {
  }

  /** One key's chain across a commit. */
  lemma ChainAcrossCommit(store: Store, tx: Tx, key: Key)
    requires StoreOk(store) && tx.pending != map[]
    ensures var store' := CommitStore(store, tx);
      && ChainOk(ChainOf(store', key), store'.version)
      && (forall v: nat | v <= store.version :: Visible(ChainOf(store', key), v) == Visible(ChainOf(store, key), v))
      && Visible(ChainOf(store', key), store'.version)
         == if key in tx.pending then tx.pending[key] else Visible(ChainOf(store, key), store.version)
  {
    hide ChainOk, Visible, Written, ChangedAfter;
    var chain := ChainOf(store, key);
    EmptyChainOk(store.version);
    if key in tx.pending {
      WriteKeepsChain(chain, store.version, tx.pending[key]);
      WriteShows(chain, store.version, tx.pending[key]);
      forall v: nat | v <= store.version ensures Visible(Written(chain, store.version + 1, tx.pending[key]), v) == Visible(chain, v) {
        WriteKeepsOld(chain, store.version, tx.pending[key], v);
      }
    } else {
      NothingLater(chain, store.version);
      SameViewUnlessChanged(chain, store.version, store.version + 1);
    }
  }

  lemma LookupSnapshot(store: Store, v: nat, key: Key)
    ensures Lookup(Snapshot(store, v), key) == Visible(ChainOf(store, key), v)
  {
  }

  /** A commit leaves every earlier snapshot alone. */
  lemma CommitKeepsSnapshots(store: Store, tx: Tx, v: nat)
    requires StoreOk(store) && v <= store.version
    ensures StoreOk(CommitStore(store, tx))
    ensures Snapshot(CommitStore(store, tx), v) == Snapshot(store, v)
  {
    if tx.pending != map[] {
      var store' := CommitStore(store, tx);
      forall key ensures ChainOk(ChainOf(store', key), store'.version) && Lookup(Snapshot(store', v), key) == Lookup(Snapshot(store, v), key) {
        ChainAcrossCommit(store, tx, key);
        LookupSnapshot(store, v, key);
        LookupSnapshot(store', v, key);
      }
      SameLookups(Snapshot(store', v), Snapshot(store, v));
      assert forall key | key in store'.versions :: ChainOf(store', key) == store'.versions[key];
    }
  }

  /** A commit puts its writes over the latest snapshot. */
  lemma CommitShowsWrites(store: Store, tx: Tx, key: Key)
    requires StoreOk(store)
    ensures var store' := CommitStore(store, tx);
      Lookup(Snapshot(store', store'.version), key) == Under(Snapshot(store, store.version), tx.pending, key)
  {
    if tx.pending != map[] {
      var store' := CommitStore(store, tx);
      ChainAcrossCommit(store, tx, key);
      LookupSnapshot(store, store.version, key);
      LookupSnapshot(store', store'.version, key);
    }
  }

  // ---------------------------------------------------------------- serial reference

  /** One operation of a transaction, with the answer it got. */
  datatype Op =
    | Got(key: Key, value: Option<Value>)
    | Put(key: Key, newValue: Value)
    | Deleted(key: Key)
    | Scanned(prefix: string, found: map<Key, Value>)

  /** Running one operation alone on a plain map. */
  function Perform(db: Db, op: Op): Db {
    match op
    case Got(_, _) => db
    case Put(key, value) => db[key := value]
    case Deleted(key) => db - {key}
    case Scanned(_, _) => db
  }

  function PerformAll(db: Db, ops: seq<Op>): Db {
    if ops == [] then db else Perform(PerformAll(db, ops[..|ops| - 1]), ops[|ops| - 1])
  }

  function WithPrefix(db: Db, prefix: string): Db {
    map key | key in db && prefix <= key :: db[key]
  }

  /** The plain map gives the same answer. */
  predicate Answers(db: Db, op: Op) {
    match op
    case Got(key, value) => value == Lookup(db, key)
    case Scanned(prefix, found) => found == WithPrefix(db, prefix)
    case _ => true
  }

  /** Run alone from `db`, a transaction would have got every answer it got. */
  ghost predicate Explains(db: Db, ops: seq<Op>) {
    forall i | 0 <= i < |ops| :: Answers(PerformAll(db, ops[..i]), ops[i])
  }

  /** A transaction that committed, and the version its commit returned. */
  datatype Committed = Committed(version: nat, ops: seq<Op>)

  /** The plain map after the first committed transactions, one by one. */
  function SerialDb(log: seq<Committed>): Db {
    if log == [] then map[] else PerformAll(SerialDb(log[..|log| - 1]), log[|log| - 1].ops)
  }

  /** Every committed transaction got the answers of the serial run in commit order. */
  ghost predicate Serial(log: seq<Committed>) {
    forall i | 0 <= i < |log| :: Explains(SerialDb(log[..i]), log[i].ops)
  }

  function Writes(ops: seq<Op>): map<Key, Option<Value>> {
    if ops == [] then map[]
    else
      var before := Writes(ops[..|ops| - 1]);
      match ops[|ops| - 1]
      case Put(key, value) => before[key := Some(value)]
      case Deleted(key) => before[key := None]
      case _ => before
  }

  function Under(db: Db, writes: map<Key, Option<Value>>, key: Key): Option<Value> {
    if key in writes then writes[key] else Lookup(db, key)
  }

  lemma {:induction false} PerformIsOverlay(db: Db, ops: seq<Op>, key: Key)
    ensures Lookup(PerformAll(db, ops), key) == Under(db, Writes(ops), key)
  {
    if ops != [] {
      PerformIsOverlay(db, ops[..|ops| - 1], key);
    }
  }

  /** The keys whose value an answer depends on. */
  ghost predicate DependsOn(readKeys: set<Key>, readPrefixes: set<string>, op: Op) {
    match op
    case Got(key, _) => key in readKeys
    case Scanned(prefix, _) => prefix in readPrefixes
    case _ => true
  }

  ghost predicate SameOn(a: Db, b: Db, readKeys: set<Key>, readPrefixes: set<string>) {
    && (forall key | key in readKeys :: Lookup(a, key) == Lookup(b, key))
    && (forall prefix, key | prefix in readPrefixes && prefix <= key :: Lookup(a, key) == Lookup(b, key))
  }

  /** Answers carry over to any map that agrees on the keys and prefixes read. */
  lemma ExplainsTransfers(a: Db, b: Db, readKeys: set<Key>, readPrefixes: set<string>, ops: seq<Op>)
    requires SameOn(a, b, readKeys, readPrefixes)
    requires forall i | 0 <= i < |ops| :: DependsOn(readKeys, readPrefixes, ops[i])
    requires Explains(a, ops)
    ensures Explains(b, ops)
  {
    forall i | 0 <= i < |ops| ensures Answers(PerformAll(b, ops[..i]), ops[i]) {
      var a', b' := PerformAll(a, ops[..i]), PerformAll(b, ops[..i]);
      assert DependsOn(readKeys, readPrefixes, ops[i]) && Answers(a', ops[i]);
      forall key ensures Lookup(a', key) == Under(a, Writes(ops[..i]), key) && Lookup(b', key) == Under(b, Writes(ops[..i]), key) {
        PerformIsOverlay(a, ops[..i], key);
        PerformIsOverlay(b, ops[..i], key);
      }
      match ops[i]
      case Scanned(prefix, _) =>
        SameLookupsSamePrefix(a', b', prefix);
      case _ =>
    }
  }

  lemma SameLookupsSamePrefix(a: Db, b: Db, prefix: string)
    requires forall key | prefix <= key :: Lookup(a, key) == Lookup(b, key)
    ensures WithPrefix(a, prefix) == WithPrefix(b, prefix)
  {
    var x, y := WithPrefix(a, prefix), WithPrefix(b, prefix);
    forall key ensures (key in x <==> key in y) && (key in x && key in y ==> x[key] == y[key]) {
      if prefix <= key { assert Lookup(a, key) == Lookup(b, key); }
    }
  }

  lemma SameLookups(a: Db, b: Db)
    requires forall key :: Lookup(a, key) == Lookup(b, key)
    ensures a == b
  {
    forall key ensures (key in a <==> key in b) && (key in a && key in b ==> a[key] == b[key]) {
      assert Lookup(a, key) == Lookup(b, key);
    }
  }
}
