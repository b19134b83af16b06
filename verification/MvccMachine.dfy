/** The store and transaction objects of novadb/mvcc.py: fields updated in place, each method one step
    of the model in Mvcc. */
module MvccMachine {
  import opened Mvcc

  /** MVCCConflict, raised by a closed transaction or by a failed validation. */
  datatype Result<T> = Ok(value: T) | Conflict

  class MVCCStore {
    var version: nat
    var versions: map<Key, seq<Version>>

    function Model(): Store
      reads this
    {
      Store(version, versions)
    }

    constructor ()
      ensures Model() == Store(0, map[])
    {
      version, versions := 0, map[];
    }

    method Begin() returns (tx: MVCCTransaction)
      ensures fresh(tx) && tx.store == this && tx.Model() == BeginTx(Model())
    {
      tx := new MVCCTransaction(this, version);
    }

    method VisibleAt(key: Key, v: nat) returns (value: Option<Value>)
      ensures value == Visible(ChainOf(Model(), key), v)
    {
      var candidates := if key in versions then versions[key] else [];
      var i := |candidates|;
      assert candidates[..i] == candidates;
      while i > 0
        invariant 0 <= i <= |candidates|
        invariant Visible(candidates, v) == Visible(candidates[..i], v)
      {
        i := i - 1;
        assert candidates[..i + 1][..i] == candidates[..i];
        if LiveAt(candidates[i], v) {
          return Some(candidates[i].value);
        }
      }
      value := None;
    }

    method Read(tx: MVCCTransaction, key: Key) returns (r: Result<Option<Value>>)
      modifies tx`readKeys
      ensures tx.closed ==> r == Conflict && tx.Model() == old(tx.Model())
      ensures !tx.closed ==> r == Ok(ReadValue(Model(), old(tx.Model()), key)) && tx.Model() == ReadTx(old(tx.Model()), key)
    {
      if tx.closed {
        return Conflict;
      }
      tx.readKeys := tx.readKeys + {key};
      if key in tx.pending {
        return Ok(tx.pending[key]);
      }
      var value := VisibleAt(key, tx.startVersion);
      r := Ok(value);
    }

    method HasChangedAfter(key: Key, v: nat) returns (changed: bool)
      ensures changed == ChangedAfter(ChainOf(Model(), key), v)
    {
      var chain := if key in versions then versions[key] else [];
      for i := 0 to |chain|
        invariant forall j | 0 <= j < i :: !After(chain[j], v)
      {
        if After(chain[i], v) {
          return true;
        }
      }
      changed := false;
    }

    /** _commit: validate every watched key, then write every pending value at the next version. */
    method CommitTransaction(tx: MVCCTransaction) returns (r: Result<nat>)
      modifies this
      ensures if Conflicts(old(Model()), tx.Model()) then r == Conflict && Model() == old(Model())
              else Model() == CommitStore(old(Model()), tx.Model()) && r == Ok(version)
    {
      var watched := Watched(Model(), tx.Model());
      var todo := watched;
      while todo != {}
        invariant todo <= watched && Model() == old(Model())
        invariant forall key | key in watched - todo :: !ChangedAfter(ChainOf(Model(), key), tx.startVersion)
      {
        var key :| key in todo;
        var changed := HasChangedAfter(key, tx.startVersion);
        if changed {
          return Conflict;
        }
        todo := todo - {key};
      }
      assert !Conflicts(Model(), tx.Model());
      if tx.pending == map[] {
        return Ok(version);
      }
      version := version + 1;
      WritePending(tx.pending);
      assert versions == CommitStore(old(Model()), tx.Model()).versions;
      r := Ok(version);
    }

    method WritePending(pending: map<Key, Option<Value>>)
      modifies this`versions
      ensures versions.Keys == old(versions.Keys) + pending.Keys
      ensures forall key | key in versions ::
        versions[key] == if key in pending then Written(ChainOf(old(Model()), key), version, pending[key]) else ChainOf(old(Model()), key)
    {
      hide Written, Visible;
      var todo := pending.Keys;
      while todo != {}
        invariant todo <= pending.Keys
        invariant versions.Keys == old(versions.Keys) + (pending.Keys - todo)
        invariant forall key | key in versions && key !in pending.Keys - todo :: versions[key] == old(versions[key])
        invariant forall key | key in pending.Keys - todo :: versions[key] == Written(ChainOf(old(Model()), key), version, pending[key])
      {
        var key :| key in todo;
        WriteOne(key, pending[key]);
        todo := todo - {key};
      }
    }

    /** The body of the loop over the pending writes. */
    method WriteOne(key: Key, value: Option<Value>)
      modifies this`versions
      ensures versions == old(versions)[key := Written(ChainOf(old(Model()), key), version, value)]
    {
      var current := if key in versions then versions[key] else [];
      var last := |current| - 1;
      versions := versions[key := current];
      var visible := VisibleAt(key, version);
      if visible.Some? && current != [] && current[last].deleted.None? {
        current := current[last := current[last].(deleted := Some(version))];
      }
      if value.Some? {
        current := current + [Version(version, value.value, None)];
      }
      versions := versions[key := current];
    }
  }

  /** What a transaction reads depends on its writes and its snapshot alone. */
  lemma ReadSame(store: Store, a: Tx, b: Tx, key: Key)
    requires a.pending == b.pending && a.start == b.start
    ensures ReadValue(store, a, key) == ReadValue(store, b, key)
  {
  }

  /** What a scan has watched and found when it has been through these keys. */
  function Matching(keys: set<Key>, prefix: string): set<Key> {
    set key | key in keys && prefix <= key
  }

  function FoundAmong(store: Store, tx: Tx, keys: set<Key>, prefix: string): map<Key, Value> {
    map key | key in keys && prefix <= key && ReadValue(store, tx, key).Some? :: ReadValue(store, tx, key).value
  }

  lemma NoneRead(store: Store, tx: Tx, prefix: string)
    ensures forall keys: set<Key> :: keys - keys == {}
    ensures Matching({}, prefix) == {} && FoundAmong(store, tx, {}, prefix) == map[]
  {
  }

  lemma OneRead(store: Store, tx: Tx, keys: set<Key>, key: Key, prefix: string)
    requires key !in keys
    ensures Matching(keys + {key}, prefix) == Matching(keys, prefix) + if prefix <= key then {key} else {}
    ensures FoundAmong(store, tx, keys + {key}, prefix)
      == var value := ReadValue(store, tx, key);
         if prefix <= key && value.Some? then FoundAmong(store, tx, keys, prefix)[key := value.value] else FoundAmong(store, tx, keys, prefix)
  {
    hide ReadValue;
  }

  lemma AllRead(store: Store, tx: Tx, prefix: string)
    ensures var keys := store.versions.Keys + tx.pending.Keys;
      Matching(keys, prefix) == ScanKeys(store, tx, prefix) && FoundAmong(store, tx, keys, prefix) == ScanResult(store, tx, prefix)
  {
    hide ReadValue;
  }

  class MVCCTransaction {
    const store: MVCCStore
    const startVersion: nat
    var pending: map<Key, Option<Value>>
    var readKeys: set<Key>
    var readPrefixes: set<string>
    var closed: bool

    function Model(): Tx
      reads this
    {
      Tx(startVersion, pending, readKeys, readPrefixes, closed)
    }

    constructor (store: MVCCStore, startVersion: nat)
      ensures this.store == store && Model() == Tx(startVersion, map[], {}, {}, false)
    {
      this.store, this.startVersion := store, startVersion;
      pending, readKeys, readPrefixes, closed := map[], {}, {}, false;
    }

    method Get(key: Key) returns (r: Result<Option<Value>>)
      modifies this`readKeys
      ensures closed ==> r == Conflict && Model() == old(Model())
      ensures !closed ==> r == Ok(ReadValue(store.Model(), old(Model()), key)) && Model() == ReadTx(old(Model()), key)
    {
      r := store.Read(this, key);
    }

    method Put(key: Key, value: Value) returns (r: Result<()>)
      modifies this`pending
      ensures if closed then r == Conflict && Model() == old(Model()) else r == Ok(()) && Model() == WriteTx(old(Model()), key, Some(value))
    {
      if closed {
        return Conflict;
      }
      pending := pending[key := Some(value)];
      r := Ok(());
    }

    method Delete(key: Key) returns (r: Result<()>)
      modifies this`pending
      ensures if closed then r == Conflict && Model() == old(Model()) else r == Ok(()) && Model() == WriteTx(old(Model()), key, None)
    {
      if closed {
        return Conflict;
      }
      pending := pending[key := None];
      r := Ok(());
    }

    /** scan, consumed to its end: each matching key is read, and so watched. */
    method Scan(prefix: string) returns (r: Result<map<Key, Value>>)
      modifies this`readKeys, this`readPrefixes
      ensures closed ==> r == Conflict && Model() == old(Model())
      ensures !closed ==> r == Ok(ScanResult(store.Model(), old(Model()), prefix)) && Model() == ScanTx(store.Model(), old(Model()), prefix)
    {
      if closed {
        return Conflict;
      }
      hide ReadValue, Matching, FoundAmong;
      readPrefixes := readPrefixes + {prefix};
      var keys := store.versions.Keys + pending.Keys;
      var todo := keys;
      var found := map[];
      ghost var before := old(Model());
      NoneRead(store.Model(), before, prefix);
      while todo != {}
        invariant todo <= keys && !closed
        invariant pending == before.pending && readPrefixes == before.readPrefixes + {prefix}
        invariant readKeys == before.readKeys + Matching(keys - todo, prefix)
        invariant found == FoundAmong(store.Model(), before, keys - todo, prefix)
      {
        var key :| key in todo;
        OneRead(store.Model(), before, keys - todo, key, prefix);
        assert keys - (todo - {key}) == (keys - todo) + {key};
        if prefix <= key {
          ReadSame(store.Model(), before, Model(), key);
          var value := store.Read(this, key);
          if value.value.Some? {
            found := found[key := value.value.value];
          }
        }
        todo := todo - {key};
      }
      assert keys - {} == keys;
      AllRead(store.Model(), before, prefix);
      r := Ok(found);
    }

    method Commit() returns (r: Result<nat>)
      modifies this`closed, store
      ensures old(closed) || Conflicts(old(store.Model()), old(Model()))
              ==> r == Conflict && Model() == old(Model()) && store.Model() == old(store.Model())
      ensures !old(closed) && !Conflicts(old(store.Model()), old(Model())) ==>
        && store.Model() == CommitStore(old(store.Model()), old(Model())) && r == Ok(store.version)
        && Model() == old(Model()).(closed := true)
    {
      if closed {
        return Conflict;
      }
      r := store.CommitTransaction(this);
      if r.Ok? {
        closed := true;
      }
    }

    method Rollback()
      modifies this`closed, this`pending
      ensures Model() == old(Model()).(closed := true, pending := map[])
    {
      closed, pending := true, map[];
    }
  }
}
