/** The transaction and engine objects of novadb/engine.py, changed in place by loops; each method is one
    step of the models in Transactions, Recovery and Replication. */
module EngineMachine {
  import opened Tables
  import opened Transactions
  import opened Recovery
  import opened Replication

  // ---------------------------------------------------------------- batches

  /** Whether a row repeats a primary key: the loop over the table's key sets. */
  method HasDuplicate(columns: seq<Column>, rows: seq<Row>, row: Row) returns (found: bool)
    ensures found == Duplicate(columns, rows, row)
  {
    for i := 0 to |columns|
      invariant forall j, r | 0 <= j < i && columns[j].primaryKey && r in rows :: Get(r, columns[j].name) != Get(row, columns[j].name)
    {
      if columns[i].primaryKey {
        for k := 0 to |rows|
          invariant forall m | 0 <= m < k :: Get(rows[m], columns[i].name) != Get(row, columns[i].name)
        {
          if Get(rows[k], columns[i].name) == Get(row, columns[i].name) {
            assert columns[i] in columns && rows[k] in rows;
            return true;
          }
        }
      }
    }
    found := false;
  }

  /** _prepare_many_rows: each row of a batch against the table and the rows before it. */
  method BatchIsFresh(columns: seq<Column>, rows: seq<Row>, batch: seq<Row>) returns (ok: bool)
    ensures ok == NoneDuplicate(columns, rows, batch)
  {
    for i := 0 to |batch|
      invariant forall j | 0 <= j < i :: !Duplicate(columns, rows + batch[..j], batch[j])
    {
      var found := HasDuplicate(columns, rows + batch[..i], batch[i]);
      if found {
        return false;
      }
    }
    ok := true;
  }

  // ---------------------------------------------------------------- transactions

  class Transaction {
    const baseVersion: nat
    var tables: map<string, TxTable>
    var own: seq<Row>
    var ops: seq<TxOp>
    var closed: bool

    function Model(): Tx
      reads this
    {
      Tx(tables, own, ops)
    }

    constructor (state: State, version: nat)
      ensures Model() == Begin(state) && baseVersion == version && !closed
    {
      baseVersion := version;
      tables := map name | name in state :: TxTable(state[name].columns, BaseRows(state[name].rows), state[name].indexes);
      own, ops, closed := [], [], false;
    }

    method CreateTable(name: string, columns: seq<Column>) returns (ok: bool)
      modifies this`tables, this`ops
      ensures Outcome(Model(), ok) == Execute(old(Model()), CreateTableStmt(name, columns))
    {
      if name in tables {
        return false;
      }
      tables := tables[name := TxTable(columns, [], {})];
      ops := ops + [NewTable(name, columns)];
      ok := true;
    }

    method CreateIndex(table: string, column: string) returns (ok: bool)
      modifies this`tables, this`ops
      ensures Outcome(Model(), ok) == Execute(old(Model()), CreateIndexStmt(table, column))
    {
      if table !in tables || !(exists c :: c in tables[table].columns && c.name == column) {
        return false;
      }
      var t := tables[table];
      tables := tables[table := t.(indexes := t.indexes + {column})];
      ops := ops + [NewIndex(table, column)];
      ok := true;
    }

    method Insert(table: string, row: Option<Row>) returns (ok: bool)
      modifies this`tables, this`own, this`ops
      ensures Outcome(Model(), ok) == Execute(old(Model()), InsertStmt(table, row))
    {
      if table !in tables || row.None? {
        return false;
      }
      var t := tables[table];
      var found := HasDuplicate(t.columns, RowsOf(t.items, own), row.value);
      if found {
        return false;
      }
      var id := |own|;
      own := own + [row.value];
      tables := tables[table := t.(items := t.items + [Own(id)])];
      ops := ops + [NewRow(table, id)];
      ok := true;
    }

    method InsertMany(table: string, rows: Option<seq<Row>>) returns (ok: bool)
      modifies this`tables, this`own, this`ops
      ensures Outcome(Model(), ok) == Execute(old(Model()), InsertManyStmt(table, rows))
    {
      if table !in tables || rows.None? {
        return false;
      }
      var t := tables[table];
      var isFresh := BatchIsFresh(t.columns, RowsOf(t.items, own), rows.value);
      if !isFresh {
        return false;
      }
      var ids := Ids(|own|, |rows.value|);
      own := own + rows.value;
      tables := tables[table := t.(items := t.items + OwnRows(ids))];
      ops := ops + [NewRows(table, ids)];
      ok := true;
    }

    method Update(table: string, columnsKnown: bool, edit: Row -> Edit) returns (ok: bool)
      modifies this`tables, this`own, this`ops
      ensures Outcome(Model(), ok) == Execute(old(Model()), UpdateStmt(table, columnsKnown, edit))
    {
      if table !in tables || !columnsKnown {
        return false;
      }
      var t := tables[table];
      var done, changes := [], [];
      ghost var held := own;
      for i := 0 to |t.items|
        invariant |done| == i
        invariant UpdateItems(table, t.items[..i], held, edit) == Updated(done, own, changes, true)
        invariant tables == old(tables) && ops == old(ops)
      {
        var item := t.items[i];
        var row := RowOf(item, own);
        var result := edit(row);
        if result.Fail? {
          UpdateStops(table, t.items, i, held, edit, Updated(done, own, changes, true));
        } else {
          UpdateOneMore(table, t.items, i, held, edit, Updated(done, own, changes, true));
        }
        hide UpdateItems;
        match result {
          case Keep =>
            done := done + [item];
          case Change(after) =>
            var put := PutRow(item, own, after);
            done, own := done + [put.0], put.1;
            changes := changes + [Changed(table, row, after)];
          case Fail(partial) =>
            var put := PutRow(item, own, partial);
            own := put.1;
            tables := tables[table := t.(items := done + ([put.0] + t.items[i + 1..]))];
            ops := ops + changes;
            return false;
        }
      }
      assert t.items[..|t.items|] == t.items;
      tables := tables[table := t.(items := done)];
      ops := ops + changes;
      ok := true;
    }

    method Delete(table: string, pick: Row -> Option<bool>) returns (ok: bool)
      modifies this`tables, this`ops
      ensures Outcome(Model(), ok) == Execute(old(Model()), DeleteStmt(table, pick))
    {
      if table !in tables {
        return false;
      }
      var t := tables[table];
      var kept, deleted := [], [];
      for i := 0 to |t.items|
        invariant kept == Kept(t.items[..i], own, pick) && deleted == Dropped(t.items[..i], own, pick)
        invariant forall j | 0 <= j < i :: pick(RowOf(t.items[j], own)).Some?
        invariant tables == old(tables) && ops == old(ops)
      {
        var item := t.items[i];
        KeptOneMore(t.items, i, own, pick);
        hide Kept, Dropped;
        var picked := pick(RowOf(item, own));
        if picked.None? {
          assert item in t.items;
          return false;
        }
        if picked.value {
          deleted := deleted + [item];
        } else {
          kept := kept + [item];
        }
      }
      assert t.items[..|t.items|] == t.items;
      tables := tables[table := t.(items := kept)];
      ops := ops + Removals(table, deleted);
      ok := true;
    }

    method Rollback()
      modifies this`closed
      ensures closed && Model() == old(Model())
    {
      closed := true;
    }
  }

  // ---------------------------------------------------------------- the engine

  datatype Verdict = Committed | Closed | TransactionConflict | TooLarge

  /** The engine's fields; `image` and `log` stand for the state file and the page file. */
  class Database {
    var tables: State
    var version: nat
    var image: Option<Image>
    var log: seq<Record>

    function Model(): Engine
      reads this
    {
      Engine(tables, version, Disk(image, log), [])
    }

    /** The state as the follower's side of replication sees it. */
    function Now(): Image
      reads this
    {
      Image(version, tables)
    }

    constructor (image: Option<Image>, log: seq<Record>)
      ensures Model() == Engine(map[], 0, Disk(image, log), [])
    {
      tables, version, this.image, this.log := map[], 0, image, log;
    }

    /** _apply_operations: one operation after the other; false is the KeyError of a missing table. */
    method ApplyOperations(ops: seq<LogOp>) returns (ok: bool)
      modifies this`tables
      ensures ok <==> ApplyAll(old(tables), ops).Some?
      ensures ok ==> ApplyAll(old(tables), ops) == Some(tables)
    {
      for i := 0 to |ops|
        invariant ApplyAll(old(tables), ops) == ApplyAll(tables, ops[i..])
      {
        var op := ops[i];
        assert ops[i..][0] == op && ops[i..][1..] == ops[i + 1..];
        if op.CreateTable? {
          tables := tables[op.name := Table(op.columns, [], {})];
        } else if op.table !in tables {
          return false;
        } else {
          var t := tables[op.table];
          match op {
            case CreateIndex(_, column) => t := t.(indexes := t.indexes + {column});
            case Insert(_, row) => t := t.(rows := t.rows + [row]);
            case InsertMany(_, rows) => t := t.(rows := t.rows + rows);
            case Update(_, before, after) =>
              var at := Position(t.rows, before);
              if at < |t.rows| { t := t.(rows := t.rows[at := after]); }
            case Delete(_, row) =>
              var at := Position(t.rows, row);
              if at < |t.rows| { t := t.(rows := t.rows[..at] + t.rows[at + 1..]); }
          }
          tables := tables[op.table := t];
        }
      }
      ok := true;
    }

    method Position(rows: seq<Row>, row: Row) returns (at: nat)
      ensures at == FirstEqual(rows, row)
    {
      at := 0;
      while at < |rows| && rows[at] != row
        invariant at <= |rows| && FirstEqual(rows, row) == at + FirstEqual(rows[at..], row)
      {
        at := at + 1;
      }
    }

    /** The loop of _load and of apply_records over records in order. */
    method Replay(records: seq<Record>) returns (ok: bool)
      modifies this`tables, this`version
      ensures ok <==> AbsorbAll(old(Now()), records).Some?
      ensures ok ==> AbsorbAll(old(Now()), records) == Some(Now())
    {
      for i := 0 to |records|
        invariant AbsorbAll(old(Now()), records) == AbsorbAll(Now(), records[i..])
      {
        var record := records[i];
        assert records[i..][0] == record && records[i..][1..] == records[i + 1..];
        if record.version > version {
          ok := ApplyOperations(record.ops);
          if !ok {
            return;
          }
          version := record.version;
        }
      }
      ok := true;
    }

    /** _load on a freshly made engine. */
    method LoadFromDisk() returns (ok: bool)
      requires tables == map[] && version == 0
      modifies this`tables, this`version
      ensures ok <==> Reopen(Disk(image, log)).Some?
      ensures ok ==> Reopen(Disk(image, log)) == Some(Model())
    {
      if image.Some? {
        tables, version := image.value.tables, image.value.version;
      }
      ok := Replay(log);
    }

    method TakeCheckpoint()
      modifies this`image
      ensures Model() == WithImage(old(Model()))
    {
      image := Some(Image(version, tables));
    }

    method CommitTransaction(tx: Transaction, fits: bool) returns (verdict: Verdict)
      modifies this, tx`closed
      ensures verdict == if old(tx.closed) then Closed
                         else if tx.baseVersion != old(version) then TransactionConflict
                         else if tx.ops != [] && !fits then TooLarge else Committed
      ensures verdict == Committed ==>
        (tx.closed && Model() == MaybeCheckpoint(Applied(old(Model()), View(tx.tables, tx.own), Logged(tx.ops, tx.own))))
      ensures verdict != Committed ==> Model() == old(Model()) && tx.closed == old(tx.closed)
    {
      if tx.closed {
        return Closed;
      }
      if tx.baseVersion != version {
        return TransactionConflict;
      }
      if tx.ops != [] {
        if !fits {
          return TooLarge;
        }
        log := log + [Record(version + 1, Logged(tx.ops, tx.own))];
      }
      tables := View(tx.tables, tx.own);
      version := version + 1;
      if version % 10 == 0 {
        TakeCheckpoint();
      }
      tx.closed := true;
      verdict := Committed;
    }

    method InsertBatch(table: string, rows: Option<seq<Row>>, fits: bool) returns (ok: bool)
      modifies this
      ensures ok <==> BulkInserts(old(Model()), table, rows, fits)
      ensures Model() == Next(old(Model()), BulkInsert(table, rows, fits))
    {
      if table !in tables || rows.None? {
        return false;
      }
      var t := tables[table];
      var isFresh := BatchIsFresh(t.columns, t.rows, rows.value);
      if !isFresh || !fits {
        return false;
      }
      log := log + [Record(version + 1, [InsertMany(table, rows.value)])];
      tables := tables[table := t.(rows := t.rows + rows.value)];
      version := version + 1;
      if version % 10 == 0 {
        TakeCheckpoint();
      }
      ok := true;
    }

    method RestoreState(snapshot: State, expected: Option<nat>) returns (ok: bool)
      modifies this
      ensures ok <==> Restores(old(Model()), expected)
      ensures Model() == Next(old(Model()), Restore(snapshot, expected))
    {
      if expected.Some? && version != expected.value {
        return false;
      }
      tables := snapshot;
      version := version + 1;
      TakeCheckpoint();
      ok := true;
    }

    /** The operations that rebuild every table: the loop of compact. */
    method SnapshotOperations() returns (ops: seq<LogOp>)
      ensures ops == SnapshotOps(tables, Sorted(tables.Keys))
    {
      hide TableOps;
      var names := Sorted(tables.Keys);
      ops := [];
      assert names[0..] == names && [] + SnapshotOps(tables, names) == SnapshotOps(tables, names);
      for i := 0 to |names|
        invariant SnapshotOps(tables, names) == ops + SnapshotOps(tables, names[i..])
      {
        assert names[i..][0] == names[i] && names[i..][1..] == names[i + 1..] && names[i] in names;
        var table := OneTableOps(names[i], tables[names[i]]);
        OpsRegrouped(ops, table, SnapshotOps(tables, names[i + 1..]));
        ops := ops + table;
      }
      assert ops + [] == ops;
    }

    lemma OpsRegrouped(a: seq<LogOp>, b: seq<LogOp>, c: seq<LogOp>)
      ensures a + (b + c) == (a + b) + c
    {
    }

    method OneTableOps(name: string, table: Table) returns (ops: seq<LogOp>)
      ensures ops == TableOps(name, table)
    {
      ops := [LogOp.CreateTable(name, table.columns)];
      if table.rows != [] {
        ops := ops + [LogOp.InsertMany(name, table.rows)];
      }
      var columns := Sorted(table.indexes);
      ghost var before := ops;
      assert columns[0..] == columns;
      for i := 0 to |columns|
        invariant before + IndexOps(name, columns) == ops + IndexOps(name, columns[i..])
      {
        assert columns[i..][0] == columns[i] && columns[i..][1..] == columns[i + 1..];
        var index := LogOp.CreateIndex(name, columns[i]);
        OpsRegrouped(ops, [index], IndexOps(name, columns[i + 1..]));
        ops := ops + [index];
      }
      assert ops + [] == ops;
    }

    /** compact: a checkpoint, then the log replaced by one record, if that fits a page. */
    method CompactLog(fits: bool) returns (ok: bool)
      modifies this`image, this`log
      ensures ok == fits && Model() == Next(old(Model()), Compact(fits))
    {
      hide SnapshotOps, Sorted;
      var operations := SnapshotOperations();
      TakeCheckpoint();
      if !fits {
        return false;
      }
      log := if operations == [] then [] else [Record(version, operations)];
      ok := true;
    }

    /** apply_records, on a follower: replay, then checkpoint. */
    method ApplyStream(records: seq<Record>) returns (ok: bool)
      modifies this
      ensures ok <==> ApplyRecords(old(Now()), records).Some?
      ensures ok ==> ApplyRecords(old(Now()), records) == Some(Now()) && image == Some(Now())
      ensures log == old(log)
    {
      ok := Replay(records);
      if ok {
        TakeCheckpoint();
      }
    }
  }
}
