/** Log shipping (novadb/replication.py): a follower replays the leader's page log from its own version on,
    through commits, compactions and crashes of the leader. */
module Replication {
  import opened Tables
  import opened Transactions
  import opened Recovery

  /** stream_wal: the records after a version. */
  function Stream(log: seq<Record>, after: nat): seq<Record> {
    if log == [] then []
    else (if log[0].version > after then [log[0]] else []) + Stream(log[1..], after)
  }

  /** apply_records: the loop body is Absorb, the record of an old version is skipped. */
  function ApplyRecords(follower: Image, records: seq<Record>): Option<Image> {
    AbsorbAll(follower, records)
  }

  /** Records the follower has anyway may be streamed or not. */
  lemma {:induction false} StreamIsEnough(follower: Image, log: seq<Record>, after: nat)
    requires after <= follower.version
    ensures ApplyRecords(follower, Stream(log, after)) == AbsorbAll(follower, log)
    decreases |log|
  {
    if log != [] {
      var rest := Stream(log[1..], after);
      if log[0].version > after {
        assert ([log[0]] + rest)[1..] == rest;
        if Absorb(follower, log[0]).Some? {
          StreamIsEnough(Absorb(follower, log[0]).value, log[1..], after);
        }
      } else {
        assert [] + rest == rest;
        StreamIsEnough(follower, log[1..], after);
      }
    }
  }

  /** A stream is the later records of the log, all of them and no others, in order. */
  lemma {:induction false} StreamMembers(log: seq<Record>, after: nat)
    ensures forall record :: record in Stream(log, after) <==> record in log && record.version > after
    ensures Ascending(log) ==> Ascending(Stream(log, after))
  {
    if log != [] {
      StreamMembers(log[1..], after);
      if Ascending(log) && log[0].version > after { FirstBelow(log[0], log[1..], Stream(log[1..], after)); }
    }
  }

  lemma FirstBelow(first: Record, log: seq<Record>, rest: seq<Record>)
    requires Ascending([first] + log) && Ascending(rest) && forall record | record in rest :: record in log
    ensures Ascending([first] + rest)
  {
    var longer := [first] + rest;
    forall j | 0 < j < |longer| ensures first.version < longer[j].version {
      assert longer[j] in rest;
      var i :| 0 <= i < |log| && log[i] == longer[j];
      assert ([first] + log)[0].version < ([first] + log)[i + 1].version;
    }
  }

  lemma {:induction false} AbsorbRespectsBags(a: Image, b: Image, log: seq<Record>)
    requires a.version == b.version && Same(a.tables, b.tables)
    ensures var x, y := AbsorbAll(a, log), AbsorbAll(b, log);
      (x.Some? <==> y.Some?) && (x.Some? ==> x.value.version == y.value.version && Same(x.value.tables, y.value.tables))
    decreases |log|
  {
    if log != [] {
      ReplayRespectsBags(a.tables, b.tables, log[0].ops);
      if Absorb(a, log[0]).Some? {
        AbsorbRespectsBags(Absorb(a, log[0]).value, Absorb(b, log[0]).value, log[1..]);
      }
    }
  }

  // ---------------------------------------------------------------- rebuilding from a compacted record

  lemma ApplyFirst(state: State, op: LogOp, next: State, rest: seq<LogOp>)
    requires ApplyOp(state, op) == Some(next)
    ensures ApplyAll(state, [op] + rest) == ApplyAll(next, rest)
  {
    assert ([op] + rest)[1..] == rest;
  }

  function Indexed(table: Table, columns: seq<string>): Table
    decreases |columns|
  {
    if columns == [] then table else Indexed(table.(indexes := table.indexes + {columns[0]}), columns[1..])
  }

  lemma {:induction false} IndexedBy(table: Table, columns: seq<string>)
    ensures Indexed(table, columns) == table.(indexes := table.indexes + (set column | column in columns))
    decreases |columns|
  {
    var all := set column | column in columns;
    if columns == [] {
      assert table.indexes + all == table.indexes;
    } else {
      var next := table.(indexes := table.indexes + {columns[0]});
      IndexedBy(next, columns[1..]);
      assert columns == [columns[0]] + columns[1..];
      assert next.indexes + (set column | column in columns[1..]) == table.indexes + all;
    }
  }

  lemma {:induction false} IndexOpsApply(state: State, name: string, columns: seq<string>)
    requires name in state
    ensures ApplyAll(state, IndexOps(name, columns)) == Some(state[name := Indexed(state[name], columns)])
    decreases |columns|
  {
    if columns == [] {
      assert state == state[name := state[name]];
    } else {
      var table := state[name].(indexes := state[name].indexes + {columns[0]});
      var next := state[name := table];
      ApplyFirst(state, CreateIndex(name, columns[0]), next, IndexOps(name, columns[1..]));
      IndexOpsApply(next, name, columns[1..]);
      assert next[name := Indexed(table, columns[1..])] == state[name := Indexed(table, columns[1..])];
    }
  }

  lemma IndexesRestored(state: State, name: string, table: Table)
    ensures ApplyAll(state[name := table.(indexes := {})], IndexOps(name, Sorted(table.indexes))) == Some(state[name := table])
  {
    hide ApplyAll, Indexed, IndexOps;
    var bare, columns := table.(indexes := {}), Sorted(table.indexes);
    IndexOpsApply(state[name := bare], name, columns);
    IndexedBy(bare, columns);
    assert {} + (set column | column in columns) == table.indexes;
    assert Indexed(bare, columns) == table;
    assert state[name := bare][name := table] == state[name := table];
  }

  lemma TableOpsApply(state: State, name: string, table: Table)
    ensures ApplyAll(state, TableOps(name, table)) == Some(state[name := table])
  {
    hide ApplyAll, IndexOps;
    var index := IndexOps(name, Sorted(table.indexes));
    var s1 := state[name := Table(table.columns, [], {})];
    var s2 := state[name := table.(indexes := {})];
    IndexesRestored(state, name, table);
    if table.rows == [] {
      assert TableOps(name, table) == [CreateTable(name, table.columns)] + index;
      ApplyFirst(state, CreateTable(name, table.columns), s1, index);
    } else {
      var insert := InsertMany(name, table.rows);
      assert TableOps(name, table) == [CreateTable(name, table.columns)] + ([insert] + index);
      ApplyFirst(state, CreateTable(name, table.columns), s1, [insert] + index);
      InsertIntoEmpty(state, name, table.columns, table.rows);
      ApplyFirst(s1, insert, s2, index);
    }
  }

  lemma InsertIntoEmpty(state: State, name: string, columns: seq<Column>, rows: seq<Row>)
    ensures ApplyOp(state[name := Table(columns, [], {})], InsertMany(name, rows)) == Some(state[name := Table(columns, rows, {})])
  {
    assert [] + rows == rows;
    assert state[name := Table(columns, [], {})][name := Table(columns, rows, {})] == state[name := Table(columns, rows, {})];
  }

  function Overwritten(state: State, tables: State, names: seq<string>): State
    requires forall name | name in names :: name in tables
    decreases |names|
  {
    if names == [] then state else Overwritten(state[names[0] := tables[names[0]]], tables, names[1..])
  }

  lemma {:induction false} SnapshotOpsApply(state: State, tables: State, names: seq<string>)
    requires forall name | name in names :: name in tables
    ensures ApplyAll(state, SnapshotOps(tables, names)) == Some(Overwritten(state, tables, names))
    decreases |names|
  {
    if names != [] {
      var next := state[names[0] := tables[names[0]]];
      TableOpsApply(state, names[0], tables[names[0]]);
      ReplaySplits(state, TableOps(names[0], tables[names[0]]), SnapshotOps(tables, names[1..]));
      SnapshotOpsApply(next, tables, names[1..]);
    }
  }

  lemma {:induction false} OverwrittenAt(state: State, tables: State, names: seq<string>, name: string)
    requires forall n | n in names :: n in tables
    ensures name in Overwritten(state, tables, names) <==> name in state || name in names
    ensures name in names ==> Overwritten(state, tables, names)[name] == tables[name]
    ensures name !in names && name in state ==> Overwritten(state, tables, names)[name] == state[name]
    decreases |names|
  {
    if names != [] {
      assert names == [names[0]] + names[1..];
      OverwrittenAt(state[names[0] := tables[names[0]]], tables, names[1..], name);
    }
  }

  /** The compacted record rebuilds the tables exactly, on top of any state with no other tables. */
  lemma CompactedRebuilds(e: Engine, state: State)
    requires state.Keys <= e.tables.Keys
    ensures ApplyAll(state, SnapshotOps(e.tables, Sorted(e.tables.Keys))) == Some(e.tables)
  {
    var names := Sorted(e.tables.Keys);
    SnapshotOpsApply(state, e.tables, names);
    var r := Overwritten(state, e.tables, names);
    forall name ensures (name in r <==> name in e.tables) && (name in r && name in e.tables ==> r[name] == e.tables[name]) {
      OverwrittenAt(state, e.tables, names, name);
    }
    assert r == e.tables;
  }

  // ---------------------------------------------------------------- what a follower can be at

  /** From `image`, the log leads to these tables. */
  ghost predicate CatchesUp(image: Image, log: seq<Record>, tables: State) {
    var r := AbsorbAll(image, log);
    r.Some? && Same(r.value.tables, tables)
  }

  /** The leader's log, version and tables fit the states it passed through. */
  ghost predicate Follows(log: seq<Record>, version: nat, tables: State, trace: seq<Image>) {
    && trace != [] && trace[|trace| - 1].version <= version
    && (forall record | record in log :: record.version <= trace[|trace| - 1].version)
    && (forall i | 0 <= i < |trace| ::
          && trace[i].version <= trace[|trace| - 1].version && trace[i].tables.Keys <= tables.Keys
          && CatchesUp(trace[i], log, tables))
  }

  lemma FollowsSame(log: seq<Record>, version: nat, tables: State, trace: seq<Image>, version': nat, tables': State)
    requires Follows(log, version, tables, trace) && Same(tables, tables') && trace[|trace| - 1].version <= version'
    ensures Follows(log, version', tables', trace)
  {
    forall i | 0 <= i < |trace| ensures CatchesUp(trace[i], log, tables') {
      assert CatchesUp(trace[i], log, tables);
      SameTrans(AbsorbAll(trace[i], log).value.tables, tables, tables');
    }
  }

  lemma CatchesUpAppended(image: Image, log: seq<Record>, tables: State, record: Record, tables': State)
    requires CatchesUp(image, log, tables) && image.version < record.version && forall r | r in log :: r.version < record.version
    requires ApplyAll(tables, record.ops).Some? && Same(ApplyAll(tables, record.ops).value, tables')
    ensures CatchesUp(image, log + [record], tables')
  {
    var reached := AbsorbAll(image, log).value;
    AbsorbBounded(image, log, record.version);
    AbsorbSplits(image, log, [record]);
    ReplayRespectsBags(reached.tables, tables, record.ops);
    var next := Image(record.version, ApplyAll(reached.tables, record.ops).value);
    assert AbsorbAll(reached, [record]) == AbsorbAll(next, [record][1..]) == Some(next);
    SameTrans(next.tables, ApplyAll(tables, record.ops).value, tables');
  }

  lemma {:induction false} AbsorbBounded(image: Image, log: seq<Record>, bound: nat)
    requires image.version < bound && forall r | r in log :: r.version < bound
    requires AbsorbAll(image, log).Some?
    ensures AbsorbAll(image, log).value.version < bound
    decreases |log|
  {
    if log != [] { AbsorbBounded(Absorb(image, log[0]).value, log[1..], bound); }
  }

  /** A logged change extends what a follower can be at. */
  lemma FollowsAppended(log: seq<Record>, version: nat, tables: State, trace: seq<Image>, ops: seq<LogOp>, tables': State)
    requires Follows(log, version, tables, trace)
    requires ApplyAll(tables, ops).Some? && Same(ApplyAll(tables, ops).value, tables') && tables.Keys <= tables'.Keys
    ensures Follows(log + [Record(version + 1, ops)], version + 1, tables', trace + [Image(version + 1, tables')])
  {
    var record := Record(version + 1, ops);
    var trace' := trace + [Image(version + 1, tables')];
    forall i | 0 <= i < |trace'| ensures CatchesUp(trace'[i], log + [record], tables') {
      if i < |trace| {
        assert CatchesUp(trace[i], log, tables);
        CatchesUpAppended(trace[i], log, tables, record, tables');
      } else {
        NothingNew(trace'[i], log + [record]);
        SameSelf(tables');
      }
    }
  }

  /** A compaction leaves every state a follower can be at just as able to catch up. */
  lemma FollowsCompacted(e: Engine, trace: seq<Image>)
    requires Follows(e.disk.log, e.version, e.tables, trace)
    ensures Follows(Compacted(e), e.version, e.tables, trace + [Image(e.version, e.tables)])
  {
    hide Compacted, AbsorbAll, Same;
    var trace' := trace + [Image(e.version, e.tables)];
    CompactedVersion(e);
    forall i | 0 <= i < |trace'| ensures CatchesUp(trace'[i], Compacted(e), e.tables) {
      SameSelf(e.tables);
      if i == |trace| {
        NothingNew(trace'[i], Compacted(e));
      } else {
        assert CatchesUp(trace[i], e.disk.log, e.tables);
        if trace[i].version == e.version {
          NothingNew(trace[i], e.disk.log);
          NothingNew(trace[i], Compacted(e));
        } else {
          RebuildsFrom(trace[i], e);
        }
      }
    }
  }

  lemma CompactedVersion(e: Engine)
    ensures forall record | record in Compacted(e) :: record.version == e.version
  {
  }

  lemma RebuildsFrom(image: Image, e: Engine)
    requires image.version < e.version && image.tables.Keys <= e.tables.Keys
    ensures AbsorbAll(image, Compacted(e)).Some? && AbsorbAll(image, Compacted(e)).value.tables == e.tables
  {
    CompactedRebuilds(e, image.tables);
    var ops := SnapshotOps(e.tables, Sorted(e.tables.Keys));
    if ops != [] {
      var next := Image(e.version, e.tables);
      assert Absorb(image, Record(e.version, ops)) == Some(next);
      assert AbsorbAll(image, Compacted(e)) == AbsorbAll(next, Compacted(e)[1..]);
    }
  }

  // ---------------------------------------------------------------- runs of the leader

  /** A new last record makes the state after it one a follower can be at. */
  function Traced(trace: seq<Image>, e: Engine): seq<Image>
    requires trace != []
  {
    if e.disk.log == [] || e.disk.log[|e.disk.log| - 1].version <= trace[|trace| - 1].version then trace
    else trace + [Image(e.disk.log[|e.disk.log| - 1].version, e.tables)]
  }

  /** A restore that goes through puts back the tables as they are, up to row order. */
  ghost predicate Harmless(e: Engine, action: Action) {
    action.Restore? && Restores(e, action.expected) ==> Same(e.tables, action.snapshot)
  }

  ghost predicate HarmlessRun(e: Engine, steps: seq<Step>)
    requires Runs(e, steps)
    decreases |steps|
  {
    steps == [] || (Harmless(e, steps[0].action) && HarmlessRun(After(e, steps[0]), steps[1..]))
  }

  ghost function TraceFrom(e: Engine, trace: seq<Image>, steps: seq<Step>): seq<Image>
    requires Runs(e, steps) && trace != []
    decreases |steps|
  {
    if steps == [] then trace else TraceFrom(After(e, steps[0]), Traced(trace, After(e, steps[0])), steps[1..])
  }

  /** The states the leader's log has described, from the empty database on. */
  ghost function Trace(steps: seq<Step>): seq<Image>
    requires Runs(Fresh(), steps)
  {
    TraceFrom(Fresh(), [Image(0, map[])], steps)
  }

  lemma {:induction false} TablesOnlyGrow(tx: Tx, stmts: seq<Stmt>)
    ensures tx.tables.Keys <= ExecuteAll(tx, stmts).tables.Keys
    decreases |stmts|
  {
    if stmts != [] { TablesOnlyGrow(Execute(tx, stmts[0]).tx, stmts[1..]); }
  }

  lemma CommitGrows(e: Engine, t: nat, fits: bool)
    requires Inv(e) && Commits(e, t, fits)
    ensures var tx := e.sessions[t].tx; e.tables.Keys <= View(tx.tables, tx.own).Keys
  {
    TablesOnlyGrow(Begin(e.tables), e.sessions[t].stmts);
    assert SessionOk(e, e.sessions[t]);
  }

  // ---------------------------------------------------------------- what one step does to the log

  ghost predicate LoadsPast(e: Engine, version: nat) {
    Load(e.disk).Some? && version <= Load(e.disk).value.version && version <= e.version
  }

  /** The log stays, and so do the tables. */
  ghost predicate Unlogged(e: Engine, e': Engine) {
    && e'.disk.log == e.disk.log && Same(e.tables, e'.tables)
    && forall v: nat | LoadsPast(e, v) :: LoadsPast(e', v)
  }

  /** The log gains the record of what happened to the tables. */
  ghost predicate Logs(e: Engine, e': Engine, ops: seq<LogOp>) {
    && e'.disk.log == e.disk.log + [Record(e.version + 1, ops)]
    && ApplyAll(e.tables, ops).Some? && Same(ApplyAll(e.tables, ops).value, e'.tables)
    && e.tables.Keys <= e'.tables.Keys && LoadsPast(e', e.version + 1)
  }

  ghost predicate Compacts(e: Engine, e': Engine) {
    e'.disk.log == Compacted(e) && e'.tables == e.tables && LoadsPast(e', e.version)
  }

  lemma {:induction false} LoadAtLeast(image: Image, log: seq<Record>)
    requires AbsorbAll(image, log).Some?
    ensures image.version <= AbsorbAll(image, log).value.version
    ensures forall record | record in log :: record.version <= AbsorbAll(image, log).value.version
    decreases |log|
  {
    if log != [] { LoadAtLeast(Absorb(image, log[0]).value, log[1..]); }
  }

  lemma LoadsPastAll(e: Engine, version: nat)
    requires Inv(e) && (version <= Start(e.disk).version || exists record :: record in e.disk.log && record.version == version)
    ensures LoadsPast(e, version)
  {
    LoadAtLeast(Start(e.disk), e.disk.log);
  }

  /** A commit or bulk insert, run to its end or cut short. */
  lemma ChangeShape(e: Engine, ops: seq<LogOp>, tables: State, disk: Disk, e': Engine)
    requires Inv(e) && Inv(e') && e.tables.Keys <= tables.Keys
    requires ApplyAll(e.tables, ops).Some? && Same(ApplyAll(e.tables, ops).value, tables)
    requires e'.disk == disk && (disk == e.disk || disk == Applied(e, tables, ops).disk || disk == MaybeCheckpoint(Applied(e, tables, ops)).disk)
    requires if disk == e.disk then Same(e.tables, e'.tables) || (ops == [] && Same(tables, e'.tables)) else Same(tables, e'.tables)
    requires disk == e.disk ==> e'.version >= Load(disk).value.version
    ensures Unlogged(e, e') || Logs(e, e', ops)
  {
    ApplyNothing(e.tables);
    if ops == [] || disk == e.disk {
      if ops == [] && Same(tables, e'.tables) {
        SameTrans(e.tables, tables, e'.tables);
      }
      forall v: nat | LoadsPast(e, v) ensures LoadsPast(e', v) {
        if disk != e.disk { LoadsPastAll(e', v); }
      }
    } else {
      SameTrans(ApplyAll(e.tables, ops).value, tables, e'.tables);
      assert disk.log[|e.disk.log|] in disk.log;
      LoadsPastAll(e', e.version + 1);
    }
  }

  lemma ReopenedShape(e: Engine, e': Engine)
    requires Inv(e) && Reopen(e.disk) == Some(e')
    ensures Unlogged(e, e')
  {
    ReopenKeepsInv(e.disk, e.version, e.tables);
    SameBack(e'.tables, e.tables);
  }

  /** With a new state image, loading stops at it. */
  lemma ImageLoads(e: Engine, log: seq<Record>)
    requires forall record | record in log :: record.version <= e.version
    ensures Load(WithImage(e).disk.(log := log)) == Some(Image(e.version, e.tables))
  {
    NothingNew(Image(e.version, e.tables), log);
  }

  lemma CheckpointShape(e: Engine, e': Engine)
    requires Inv(e) && e'.disk == WithImage(e).disk && (e' == WithImage(e) || Reopen(e'.disk) == Some(e'))
    ensures Unlogged(e, e')
  {
    ImageLoads(e, e.disk.log);
    SameSelf(e.tables);
  }

  lemma CompactShape(e: Engine, e': Engine)
    requires Inv(e) && e'.disk == WithImage(e).disk.(log := Compacted(e))
    requires e' == Next(e, Compact(true)) || Reopen(e'.disk) == Some(e')
    ensures Compacts(e, e')
  {
    CompactedVersion(e);
    hide Compacted, AbsorbAll, Inv;
    ImageLoads(e, Compacted(e));
  }

  /** What the step loads to, where it is a commit or a bulk insert that went through. */
  lemma ChangeStepShape(e: Engine, step: Step, ops: seq<LogOp>, tables: State)
    requires Inv(e) && Enabled(e, step) && e.tables.Keys <= tables.Keys
    requires ApplyAll(e.tables, ops).Some? && Same(ApplyAll(e.tables, ops).value, tables)
    requires Trail(e, step.action) == [e.disk, Applied(e, tables, ops).disk, MaybeCheckpoint(Applied(e, tables, ops)).disk]
    requires var e' := Next(e, step.action);
      e'.tables == tables && e'.disk == MaybeCheckpoint(Applied(e, tables, ops)).disk && e'.version == e.version + 1
    ensures Unlogged(e, After(e, step)) || Logs(e, After(e, step), ops)
  {
    hide Inv, Holds, Same, Load, ApplyAll, Trail, Next, Unlogged, Logs;
    var e' := After(e, step);
    StepKeepsInv(e, step);
    InvHolds(e);
    AppliedHolds(e, tables, ops);
    SameSelf(tables);
    if step.Done? {
      if e'.disk == e.disk { HoldsVersion(e'.disk, e.version, e.tables); SameEmpty(e, ops, tables); }
      ChangeShape(e, ops, tables, e'.disk, e');
    } else if step.at == 0 {
      ReopenedShape(e, e');
    } else {
      var disk := Trail(e, step.action)[step.at];
      ReopenKeepsInv(disk, e.version + 1, tables);
      SameBack(e'.tables, tables);
      if disk == e.disk {
        ReopenedShape(e, e');
      } else {
        ChangeShape(e, ops, tables, disk, e');
      }
    }
  }

  lemma InvHolds(e: Engine)
    requires Inv(e)
    ensures Holds(e.disk, e.version, e.tables)
  {
  }

  lemma HoldsVersion(disk: Disk, version: nat, tables: State)
    requires Holds(disk, version, tables)
    ensures Load(disk).Some? && Load(disk).value.version <= version
  {
  }

  lemma SameEmpty(e: Engine, ops: seq<LogOp>, tables: State)
    ensures ops != [] ==> |MaybeCheckpoint(Applied(e, tables, ops)).disk.log| == |e.disk.log| + 1
  {
  }

  /** A harmless restore that goes through. */
  lemma RestoreShape(e: Engine, snapshot: State, e': Engine)
    requires Inv(e) && Same(e.tables, snapshot)
    requires var restored := WithImage(e.(tables := snapshot, version := e.version + 1));
      e'.disk == restored.disk && (e' == restored || Reopen(e'.disk) == Some(e'))
    ensures Unlogged(e, e')
  {
    ImageLoads(e.(tables := snapshot, version := e.version + 1), e.disk.log);
  }

  /** Every step leaves the log alone, logs what it does, or compacts. */
  lemma StepShape(e: Engine, step: Step)
    requires Inv(e) && Enabled(e, step) && Harmless(e, step.action)
    ensures var e' := After(e, step);
      Unlogged(e, e') || (exists ops :: Logs(e, e', ops)) || (step.action.Compact? && Compacts(e, e'))
  {
    hide Inv, Same, Load, ApplyAll, Unlogged, Logs, Compacts, ExecuteAll, View, Logged;
    var e' := After(e, step);
    match step.action
    case Commit(t, fits) =>
      if Commits(e, t, fits) { CommitShape(e, step); } else { QuietShape(e, step); }
    case BulkInsert(table, rows, fits) =>
      if BulkInserts(e, table, rows, fits) { BulkInsertShape(e, step); } else { QuietShape(e, step); }
    case Checkpoint =>
      if step.Crash? && step.at == 0 { ReopenedShape(e, e'); } else { CheckpointShape(e, e'); }
    case Compact(fits) =>
      if step.Crash? && step.at == 0 { ReopenedShape(e, e'); }
      else if fits && (step.Done? || step.at == 2) { CompactShape(e, e'); }
      else { CheckpointShape(e, e'); }
    case Restore(snapshot, expected) =>
      if !Restores(e, expected) { QuietShape(e, step); }
      else if step.Crash? && step.at == 0 { ReopenedShape(e, e'); }
      else { RestoreShape(e, snapshot, e'); }
    case _ => QuietShape(e, step);
  }

  lemma CommitShape(e: Engine, step: Step)
    requires Inv(e) && Enabled(e, step) && step.action.Commit? && Commits(e, step.action.t, step.action.fits)
    ensures Unlogged(e, After(e, step)) || (exists ops :: Logs(e, After(e, step), ops))
  {
    hide Inv, Same, Load, ApplyAll, Unlogged, Logs, ExecuteAll, View, Logged;
    var t, fits := step.action.t, step.action.fits;
    var s := e.sessions[t];
    CommitReplays(e, t, fits);
    CommitGrows(e, t, fits);
    ChangeStepShape(e, step, SessionLog(s), View(s.tx.tables, s.tx.own));
  }

  lemma BulkInsertShape(e: Engine, step: Step)
    requires Inv(e) && Enabled(e, step) && step.action.BulkInsert? && BulkInserts(e, step.action.table, step.action.rows, step.action.fits)
    ensures Unlogged(e, After(e, step)) || (exists ops :: Logs(e, After(e, step), ops))
  {
    hide Inv, Same, Load, ApplyAll, Unlogged, Logs;
    var table, rows := step.action.table, step.action.rows.value;
    var t := e.tables[table];
    BulkInsertReplays(e, table, rows);
    SameSelf(e.tables[table := t.(rows := t.rows + rows)]);
    ChangeStepShape(e, step, [InsertMany(table, rows)], e.tables[table := t.(rows := t.rows + rows)]);
  }

  /** A step that neither writes nor changes a table. */
  lemma QuietShape(e: Engine, step: Step)
    requires Inv(e) && Enabled(e, step)
    requires (forall disk | disk in Trail(e, step.action) :: disk == e.disk)
    requires var e' := Next(e, step.action); e'.tables == e.tables && e'.disk == e.disk && e'.version == e.version
    ensures Unlogged(e, After(e, step))
  {
    if step.Crash? {
      ReopenedShape(e, After(e, step));
    } else {
      SameSelf(e.tables);
    }
  }

  // ---------------------------------------------------------------- runs

  ghost predicate Traces(e: Engine, trace: seq<Image>) {
    && Inv(e) && Follows(e.disk.log, e.version, e.tables, trace)
    && LoadsPast(e, trace[|trace| - 1].version)
  }

  lemma {:induction false} TracedNothing(trace: seq<Image>, log: seq<Record>, version: nat, tables: State, e: Engine)
    requires Follows(log, version, tables, trace) && e.disk.log == log
    ensures Traced(trace, e) == trace
  {
    assert log != [] ==> log[|log| - 1] in log;
  }

  lemma CompactFollows(e: Engine, trace: seq<Image>, e': Engine)
    requires Traces(e, trace) && Inv(e') && Compacts(e, e')
    ensures Traces(e', Traced(trace, e'))
  {
    hide Compacted, Inv, CatchesUp;
    FollowsCompacted(e, trace);
    CompactedVersion(e);
    var longer := trace + [Image(e.version, e.tables)];
    assert Follows(e'.disk.log, e'.version, e'.tables, longer) by {
      SameSelf(e.tables);
      FollowsSame(Compacted(e), e.version, e.tables, longer, e'.version, e'.tables);
    }
    if Traced(trace, e') == trace {
      var log := e'.disk.log;
      forall record | record in log ensures record.version <= trace[|trace| - 1].version {
        assert record.version == log[|log| - 1].version;
      }
      assert forall i | 0 <= i < |trace| :: longer[i] == trace[i];
    } else {
      assert Traced(trace, e') == longer;
    }
  }

  lemma UnloggedFollows(e: Engine, trace: seq<Image>, e': Engine)
    requires trace != [] && Traces(e, trace) && Inv(e') && Unlogged(e, e')
    ensures Traces(e', Traced(trace, e'))
  {
    hide Follows, Inv, Same, Load;
    assert LoadsPast(e', trace[|trace| - 1].version);
    TracedNothing(trace, e.disk.log, e.version, e.tables, e');
    FollowsSame(e.disk.log, e.version, e.tables, trace, e'.version, e'.tables);
  }

  lemma LogsFollows(e: Engine, trace: seq<Image>, e': Engine, ops: seq<LogOp>)
    requires trace != [] && Traces(e, trace) && Inv(e') && Logs(e, e', ops)
    ensures Traces(e', Traced(trace, e'))
  {
    hide Follows, Inv, Same, Load, ApplyAll;
    var longer := trace + [Image(e.version + 1, e'.tables)];
    FollowsAppended(e.disk.log, e.version, e.tables, trace, ops, e'.tables);
    SameSelf(e'.tables);
    FollowsSame(e'.disk.log, e.version + 1, e'.tables, longer, e'.version, e'.tables);
    assert Traced(trace, e') == longer;
  }

  lemma StepTraces(e: Engine, trace: seq<Image>, step: Step)
    requires trace != [] && Traces(e, trace) && Enabled(e, step) && Harmless(e, step.action)
    ensures Traces(After(e, step), Traced(trace, After(e, step)))
  {
    hide Follows, Inv, Unlogged, Logs, Compacts, LoadsPast, Enabled, After;
    var e' := After(e, step);
    StepShape(e, step);
    StepKeepsInv(e, step);
    if Unlogged(e, e') {
      UnloggedFollows(e, trace, e');
    } else if ops :| Logs(e, e', ops) {
      LogsFollows(e, trace, e', ops);
    } else {
      CompactFollows(e, trace, e');
    }
  }

  lemma {:induction false} RunTraces(e: Engine, trace: seq<Image>, steps: seq<Step>)
    requires trace != [] && Traces(e, trace) && Runs(e, steps) && HarmlessRun(e, steps)
    ensures Traces(RunFrom(e, steps), TraceFrom(e, trace, steps))
    decreases |steps|
  {
    if steps != [] {
      StepTraces(e, trace, steps[0]);
      RunTraces(After(e, steps[0]), Traced(trace, After(e, steps[0])), steps[1..]);
    }
  }

  // ---------------------------------------------------------------- main results

  lemma FreshTraces()
    ensures Traces(Fresh(), [Image(0, map[])])
  {
  }

  /** A follower that holds the leader's tables at any version its log described, however long ago, and is
      streamed the log from there or from earlier, ends with the leader's tables; so it does whether or not
      the leader compacted, checkpointed or crashed in between. Streaming again changes nothing. */
  lemma FollowerCatchesUp(steps: seq<Step>, i: nat, follower: Image, after: nat, again: nat)
    requires Runs(Fresh(), steps) && HarmlessRun(Fresh(), steps) && i < |Trace(steps)|
    requires follower.version == Trace(steps)[i].version && Same(follower.tables, Trace(steps)[i].tables) && after <= follower.version
    ensures var e := RunFrom(Fresh(), steps);
      var r := ApplyRecords(follower, Stream(e.disk.log, after));
      && r.Some? && Same(r.value.tables, e.tables) && r.value.version >= follower.version
      && ApplyRecords(r.value, Stream(e.disk.log, again)) == r
  {
    FreshTraces();
    RunTraces(Fresh(), [Image(0, map[])], steps);
    var e, at := RunFrom(Fresh(), steps), Trace(steps)[i];
    assert CatchesUp(at, e.disk.log, e.tables);
    StreamIsEnough(follower, e.disk.log, after);
    AbsorbRespectsBags(follower, at, e.disk.log);
    var r := AbsorbAll(follower, e.disk.log).value;
    SameTrans(r.tables, AbsorbAll(at, e.disk.log).value.tables, e.tables);
    LoadAtLeast(follower, e.disk.log);
    StreamMembers(e.disk.log, again);
    NothingNew(r, Stream(e.disk.log, again));
  }

  /** Replacing the log by its compacted form gives such a follower the same tables. */
  lemma CompactedStreamAgrees(steps: seq<Step>, i: nat)
    requires Runs(Fresh(), steps) && HarmlessRun(Fresh(), steps) && i < |Trace(steps)|
    ensures var e := RunFrom(Fresh(), steps);
      var x, y := ApplyRecords(Trace(steps)[i], e.disk.log), ApplyRecords(Trace(steps)[i], Compacted(e));
      x.Some? && y.Some? && Same(x.value.tables, y.value.tables)
  {
    FreshTraces();
    RunTraces(Fresh(), [Image(0, map[])], steps);
    var e, at := RunFrom(Fresh(), steps), Trace(steps)[i];
    FollowsCompacted(e, Trace(steps));
    assert (Trace(steps) + [Image(e.version, e.tables)])[i] == at;
    assert CatchesUp(at, e.disk.log, e.tables) && CatchesUp(at, Compacted(e), e.tables);
    var x, y := AbsorbAll(at, e.disk.log).value.tables, AbsorbAll(at, Compacted(e)).value.tables;
    SameBack(y, e.tables);
    SameTrans(x, e.tables, y);
  }

  /** After such a run, a restore: a follower streamed the log ends with the leader's tables exactly when the
      restore put back what was there. */
  lemma RestoreReachesIff(steps: seq<Step>, snapshot: State, expected: Option<nat>, i: nat, follower: Image, after: nat)
    requires Runs(Fresh(), steps) && HarmlessRun(Fresh(), steps) && i < |Trace(steps)| && Restores(RunFrom(Fresh(), steps), expected)
    requires follower.version == Trace(steps)[i].version && Same(follower.tables, Trace(steps)[i].tables) && after <= follower.version
    ensures var e := RunFrom(Fresh(), steps);
      var e' := Next(e, Restore(snapshot, expected));
      var r := ApplyRecords(follower, Stream(e'.disk.log, after));
      r.Some? && (Same(r.value.tables, e'.tables) <==> Same(e.tables, snapshot))
  {
    hide Same, Runs, HarmlessRun, Stream, ApplyRecords;
    FollowerCatchesUp(steps, i, follower, after, after);
    var e := RunFrom(Fresh(), steps);
    var reached := ApplyRecords(follower, Stream(e.disk.log, after)).value.tables;
    SameBack(reached, e.tables);
    if Same(e.tables, snapshot) {
      SameTrans(reached, e.tables, snapshot);
    } else if Same(reached, snapshot) {
      SameTrans(e.tables, reached, snapshot);
    }
  }

  // ---------------------------------------------------------------- commits after a restore

  /** Every operation names a table that is among these or created on the way. */
  predicate NamesKnown(names: set<string>, ops: seq<LogOp>)
    decreases |ops|
  {
    if ops == [] then true
    else if ops[0].CreateTable? then NamesKnown(names + {ops[0].name}, ops[1..])
    else ops[0].table in names && NamesKnown(names, ops[1..])
  }

  /** Replay raises exactly where a table is missing. */
  lemma {:induction false} AppliesIff(state: State, ops: seq<LogOp>)
    ensures ApplyAll(state, ops).Some? <==> NamesKnown(state.Keys, ops)
    decreases |ops|
  {
    if ops != [] && ApplyOp(state, ops[0]).Some? {
      var next := ApplyOp(state, ops[0]).value;
      assert next.Keys == if ops[0].CreateTable? then state.Keys + {ops[0].name} else state.Keys;
      AppliesIff(next, ops[1..]);
    }
  }

  predicate Uncompacted(steps: seq<Step>) {
    forall i | 0 <= i < |steps| :: !steps[i].action.Compact?
  }

  /** Past the records of `base`, the log leads from these tables to the engine's, at versions past `version`. */
  ghost predicate Grown(base: seq<Record>, version: nat, start: State, e: Engine) {
    && Inv(e) && base <= e.disk.log && LoadsPast(e, version + 1)
    && (forall k | |base| <= k < |e.disk.log| :: version < e.disk.log[k].version)
    && var r := ApplyAll(start, OpsAfter(e.disk.log[|base|..], version)); r.Some? && Same(r.value, e.tables)
  }

  lemma {:induction false} OpsAfterAppended(log: seq<Record>, record: Record, version: nat)
    requires record.version > version
    ensures OpsAfter(log + [record], version) == OpsAfter(log, version) + record.ops
  {
    if log == [] {
      assert ([] + [record])[1..] == [] && record.ops + [] == record.ops;
    } else {
      assert (log + [record])[1..] == log[1..] + [record];
      OpsAfterAppended(log[1..], record, version);
    }
  }

  lemma LogsGrows(base: seq<Record>, version: nat, start: State, e: Engine, e': Engine, ops: seq<LogOp>)
    requires Grown(base, version, start, e) && Inv(e') && Logs(e, e', ops)
    ensures Grown(base, version, start, e')
  {
    hide Inv, LoadsPast, Same, ApplyAll, OpsAfter;
    var more, record := e.disk.log[|base|..], Record(e.version + 1, ops);
    assert e'.disk.log[|base|..] == more + [record];
    LoadsPastLess(e, version + 1, version + 1);
    OpsAfterAppended(more, record, version);
    ReplaySplits(start, OpsAfter(more, version), ops);
    var reached := ApplyAll(start, OpsAfter(more, version)).value;
    ReplayRespectsBags(reached, e.tables, ops);
    SameTrans(ApplyAll(reached, ops).value, ApplyAll(e.tables, ops).value, e'.tables);
    LoadsPastLess(e', e.version + 1, version + 1);
  }

  lemma LoadsPastLess(e: Engine, version: nat, less: nat)
    requires LoadsPast(e, version) && less <= version
    ensures LoadsPast(e, less) && version <= e.version
  {
  }

  lemma UnloggedGrows(base: seq<Record>, version: nat, start: State, e: Engine, e': Engine)
    requires Grown(base, version, start, e) && Inv(e') && Unlogged(e, e')
    ensures Grown(base, version, start, e')
  {
    hide Inv, Load, Same;
    SameTrans(ApplyAll(start, OpsAfter(e.disk.log[|base|..], version)).value, e.tables, e'.tables);
  }

  lemma {:induction false} RunGrows(base: seq<Record>, version: nat, start: State, e: Engine, steps: seq<Step>)
    requires Grown(base, version, start, e) && Runs(e, steps) && HarmlessRun(e, steps) && Uncompacted(steps)
    ensures Grown(base, version, start, RunFrom(e, steps))
    decreases |steps|
  {
    hide Grown, Inv, Unlogged, Logs, Compacts, Enabled, After, Harmless;
    if steps != [] {
      var e' := After(e, steps[0]);
      GrownInv(base, version, start, e);
      StepShape(e, steps[0]);
      StepKeepsInv(e, steps[0]);
      if Unlogged(e, e') {
        UnloggedGrows(base, version, start, e, e');
      } else {
        var ops :| Logs(e, e', ops);
        LogsGrows(base, version, start, e, e', ops);
      }
      RunGrows(base, version, start, e', steps[1..]);
    }
  }

  lemma GrownInv(base: seq<Record>, version: nat, start: State, e: Engine)
    requires Grown(base, version, start, e)
    ensures Inv(e)
  {
  }

  lemma RestoredGrown(e: Engine, snapshot: State, e': Engine)
    requires Inv(e) && e' == WithImage(e.(tables := snapshot, version := e.version + 1)) && Inv(e')
    ensures Grown(e.disk.log, e.version, snapshot, e')
  {
    ImageLoads(e.(tables := snapshot, version := e.version + 1), e.disk.log);
    assert e.disk.log[|e.disk.log|..] == [];
    ApplyNothing(snapshot);
    SameSelf(snapshot);
  }

  /** What a follower that reached the tables before the restore makes of a log that grew since. */
  lemma GrownStream(base: seq<Record>, version: nat, start: State, e: Engine, follower: Image, before: State)
    requires Grown(base, version, start, e) && (forall record | record in base :: record.version <= version)
    requires follower.version <= version && CatchesUp(follower, base, before)
    ensures OpsAfter(e.disk.log, version) == OpsAfter(e.disk.log[|base|..], version)
    ensures var x, y := AbsorbAll(follower, e.disk.log), ApplyAll(before, OpsAfter(e.disk.log, version));
      (x.Some? <==> y.Some?) && (x.Some? ==> Same(x.value.tables, y.value))
  {
    hide Same, Grown, ApplyAll, AbsorbAll, OpsAfter;
    GrownLog(base, version, start, e);
    var more := e.disk.log[|base|..];
    OpsBelow(base, more, version);
    AbsorbSplits(follower, base, more);
    var reached := AbsorbAll(follower, base).value;
    AbsorbBounded(follower, base, version + 1);
    EachRecordOnce(reached, more);
    SkippedBelow(more, version, reached.version);
    ReplayRespectsBags(reached.tables, before, OpsAfter(more, version));
  }

  lemma GrownLog(base: seq<Record>, version: nat, start: State, e: Engine)
    requires Grown(base, version, start, e)
    ensures base <= e.disk.log && e.disk.log == base + e.disk.log[|base|..] && Ascending(e.disk.log[|base|..])
    ensures forall record | record in e.disk.log[|base|..] :: record.version > version
  {
    hide Same, LoadsPast, Load, ApplyAll;
    var more := e.disk.log[|base|..];
    forall k | 0 <= k < |more| ensures more[k] == e.disk.log[|base| + k] {
    }
  }

  lemma {:induction false} OpsBelow(base: seq<Record>, more: seq<Record>, version: nat)
    requires forall record | record in base :: record.version <= version
    ensures OpsAfter(base + more, version) == OpsAfter(more, version)
  {
    if base == [] {
      assert base + more == more;
    } else {
      assert (base + more)[1..] == base[1..] + more;
      OpsBelow(base[1..], more, version);
    }
  }

  /** After such a run, a restore, and then commits, bulk inserts, checkpoints and crashes: streaming raises at a
      follower exactly when an operation logged since names a table that was not there before the restore nor created
      since; otherwise the follower ends with the leader's tables exactly when those operations lead from the tables
      before the restore and from the snapshot to the same ones. */
  lemma LaterCommitsReachIff(steps: seq<Step>, snapshot: State, expected: Option<nat>, later: seq<Step>, i: nat, follower: Image, after: nat)
    requires Runs(Fresh(), steps) && HarmlessRun(Fresh(), steps) && i < |Trace(steps)| && Restores(RunFrom(Fresh(), steps), expected)
    requires var restored := Next(RunFrom(Fresh(), steps), Restore(snapshot, expected));
      Runs(restored, later) && HarmlessRun(restored, later) && Uncompacted(later)
    requires follower.version == Trace(steps)[i].version && Same(follower.tables, Trace(steps)[i].tables) && after <= follower.version
    ensures var e := RunFrom(Fresh(), steps);
      var e' := RunFrom(Next(e, Restore(snapshot, expected)), later);
      var ops := OpsAfter(e'.disk.log, e.version);
      var r := ApplyRecords(follower, Stream(e'.disk.log, after));
      && (r.Some? <==> NamesKnown(e.tables.Keys, ops)) && (r.Some? <==> ApplyAll(e.tables, ops).Some?)
      && ApplyAll(snapshot, ops).Some?
      && (r.Some? ==> (Same(r.value.tables, e'.tables) <==> Same(ApplyAll(e.tables, ops).value, ApplyAll(snapshot, ops).value)))
  {
    hide Same, Grown, Inv, NamesKnown, LoadsPast, AbsorbAll, ApplyAll, Follows, HarmlessRun, Runs, Uncompacted;
    FreshTraces();
    RunTraces(Fresh(), [Image(0, map[])], steps);
    var e, at := RunFrom(Fresh(), steps), Trace(steps)[i];
    TracedBase(e, Trace(steps), i);
    var restored := Next(e, Restore(snapshot, expected));
    NextKeepsInv(e, Restore(snapshot, expected));
    RestoredGrown(e, snapshot, restored);
    RunGrows(e.disk.log, e.version, snapshot, restored, later);
    var e' := RunFrom(restored, later);
    var ops := OpsAfter(e'.disk.log, e.version);
    GrownStream(e.disk.log, e.version, snapshot, e', at, e.tables);
    GrownReached(e.disk.log, e.version, snapshot, e');
    AppliesIff(e.tables, ops);
    StreamIsEnough(follower, e'.disk.log, after);
    AbsorbRespectsBags(follower, at, e'.disk.log);
    if AbsorbAll(at, e'.disk.log).Some? {
      SameSquare(AbsorbAll(follower, e'.disk.log).value.tables, AbsorbAll(at, e'.disk.log).value.tables,
                 ApplyAll(e.tables, ops).value, ApplyAll(snapshot, ops).value, e'.tables);
    }
  }

  lemma TracedBase(e: Engine, trace: seq<Image>, i: nat)
    requires trace != [] && Traces(e, trace) && i < |trace|
    ensures Inv(e) && trace[i].version <= e.version && CatchesUp(trace[i], e.disk.log, e.tables)
    ensures forall record | record in e.disk.log :: record.version <= e.version
  {
  }

  lemma GrownReached(base: seq<Record>, version: nat, start: State, e: Engine)
    requires Grown(base, version, start, e)
    ensures var r := ApplyAll(start, OpsAfter(e.disk.log[|base|..], version)); r.Some? && Same(r.value, e.tables)
  {
  }

  /** Two chains of alike tables are alike at one end exactly when they are at the other. */
  lemma SameSquare(a: State, b: State, c: State, d: State, e: State)
    requires Same(a, b) && Same(b, c) && Same(d, e)
    ensures Same(a, e) <==> Same(c, d)
  {
    hide Same;
    SameTrans(a, b, c);
    SameBack(a, c);
    SameBack(d, e);
    if Same(a, e) {
      SameTrans(c, a, e);
      SameTrans(c, e, d);
    }
    if Same(c, d) {
      SameTrans(a, c, d);
      SameTrans(a, d, e);
    }
  }

  /** A compaction after the restore makes up for it, for a follower at any state the log described before,
      exactly when every table the follower has is in the snapshot. */
  lemma CompactionMakesUpIff(steps: seq<Step>, snapshot: State, expected: Option<nat>, i: nat)
    requires Runs(Fresh(), steps) && HarmlessRun(Fresh(), steps) && i < |Trace(steps)| && Restores(RunFrom(Fresh(), steps), expected)
    ensures var e := Next(Next(RunFrom(Fresh(), steps), Restore(snapshot, expected)), Compact(true));
      var r := ApplyRecords(Trace(steps)[i], e.disk.log);
      r.Some? && (Same(r.value.tables, e.tables) <==> Trace(steps)[i].tables.Keys <= e.tables.Keys)
  {
    FreshTraces();
    RunTraces(Fresh(), [Image(0, map[])], steps);
    TraceVersions(RunFrom(Fresh(), steps), Trace(steps), i);
    hide Traces, Same, Compacted, AbsorbAll, Runs, HarmlessRun, Next;
    RestoredCompacted(RunFrom(Fresh(), steps), snapshot, expected);
    CompactedReaches(Next(RunFrom(Fresh(), steps), Restore(snapshot, expected)), Trace(steps)[i]);
  }

  lemma TraceVersions(e: Engine, trace: seq<Image>, i: nat)
    requires trace != [] && Traces(e, trace) && i < |trace|
    ensures trace[i].version <= e.version
  {
  }

  lemma RestoredCompacted(e: Engine, snapshot: State, expected: Option<nat>)
    requires Restores(e, expected)
    ensures var e1 := Next(e, Restore(snapshot, expected));
      var e2 := Next(e1, Compact(true));
      e1.version == e.version + 1 && e2.tables == e1.tables && e2.disk.log == Compacted(e1)
  {
    hide Compacted;
  }

  lemma AbsorbsCompacted(e: Engine, image: Image)
    requires image.version < e.version
    ensures var r := AbsorbAll(image, Compacted(e)); r.Some? && r.value.tables == Overwritten(image.tables, e.tables, Sorted(e.tables.Keys))
  {
    var names := Sorted(e.tables.Keys);
    var ops := SnapshotOps(e.tables, names);
    SnapshotOpsApply(image.tables, e.tables, names);
    var reached := Overwritten(image.tables, e.tables, names);
    hide SnapshotOps, Overwritten, ApplyAll;
    if ops == [] {
      ApplyNothing(image.tables);
      assert AbsorbAll(image, Compacted(e)) == Some(image);
    } else {
      assert Absorb(image, Record(e.version, ops)) == Some(Image(e.version, reached));
      assert AbsorbAll(image, Compacted(e)) == AbsorbAll(Image(e.version, reached), Compacted(e)[1..]);
    }
  }

  lemma CompactedReaches(e: Engine, image: Image)
    requires image.version < e.version
    ensures var r := AbsorbAll(image, Compacted(e));
      r.Some? && (Same(r.value.tables, e.tables) <==> image.tables.Keys <= e.tables.Keys)
  {
    var names := Sorted(e.tables.Keys);
    var reached := Overwritten(image.tables, e.tables, names);
    AbsorbsCompacted(e, image);
    hide Overwritten, Compacted, AbsorbAll;
    forall name ensures (name in reached <==> name in image.tables || name in e.tables) && (name in e.tables ==> reached[name] == e.tables[name]) {
      OverwrittenAt(image.tables, e.tables, names, name);
    }
    if image.tables.Keys <= e.tables.Keys {
      assert reached == e.tables;
      SameSelf(e.tables);
    }
  }

  function TableMade(name: string, columns: seq<Column>): Engine {
    var stmt := CreateTableStmt(name, columns);
    Engine(map[], 0, Disk(None, []), [Session(0, map[], [stmt], Execute(Begin(map[]), stmt).tx, false)])
  }

  function TableLog(name: string, columns: seq<Column>): seq<Record> {
    [Record(1, [CreateTable(name, columns)])]
  }

  lemma MakesTable(name: string, columns: seq<Column>)
    ensures var a1, a2 := Done(BeginTransaction), Done(Statement(0, CreateTableStmt(name, columns)));
      Enabled(Fresh(), a1) && Enabled(After(Fresh(), a1), a2) && After(After(Fresh(), a1), a2) == TableMade(name, columns)
  {
    var e1, stmt := Next(Fresh(), BeginTransaction), CreateTableStmt(name, columns);
    assert e1.sessions == [Session(0, map[], [], Begin(map[]), false)];
    assert [] + [stmt] == [stmt];
    assert Next(e1, Statement(0, stmt)).sessions == TableMade(name, columns).sessions;
  }

  lemma LosesTable(name: string, columns: seq<Column>)
    ensures var e, a3, a4 := TableMade(name, columns), Done(Commit(0, true)), Done(Restore(map[], None));
      && Enabled(e, a3) && Enabled(After(e, a3), a4)
      && After(After(e, a3), a4).tables == map[] && After(After(e, a3), a4).disk.log == TableLog(name, columns)
  {
    var stmt := CreateTableStmt(name, columns);
    var e, tx := TableMade(name, columns), Execute(Begin(map[]), stmt).tx;
    assert tx.ops == [NewTable(name, columns)];
    assert Misses(Begin(map[]), [stmt], tx.own) by {
      assert Misses(tx, [stmt][1..], tx.own);
    }
    assert SessionLog(e.sessions[0]) == [CreateTable(name, columns)];
    hide View, Execute, Begin, Misses;
    var e3 := Next(e, Commit(0, true));
    assert e3.version == 1 && e3.disk.log == TableLog(name, columns);
  }

  lemma StreamsTable(name: string, columns: seq<Column>)
    ensures var r := ApplyRecords(Image(0, map[]), Stream(TableLog(name, columns), 0)); r.Some? && name in r.value.tables
  {
    var log := TableLog(name, columns);
    var made: State := map[name := Table(columns, [], {})];
    StreamIsEnough(Image(0, map[]), log, 0);
    ApplyFirst(map[], CreateTable(name, columns), made, []);
    assert [CreateTable(name, columns)] + [] == [CreateTable(name, columns)];
    assert AbsorbAll(Image(0, map[]), log) == AbsorbAll(Image(1, made), log[1..]);
  }

  lemma OneStep(e: Engine, step: Step, rest: seq<Step>)
    requires Enabled(e, step) && Runs(After(e, step), rest)
    ensures Runs(e, [step] + rest) && RunFrom(e, [step] + rest) == RunFrom(After(e, step), rest)
  {
    assert ([step] + rest)[1..] == rest;
  }

  /** Restores are not logged: after creating a table and restoring the empty snapshot, the leader has no
      table and a follower streamed the whole log has one. */
  lemma RestoreIsNotStreamed(name: string, columns: seq<Column>)
    ensures var steps := [Done(BeginTransaction), Done(Statement(0, CreateTableStmt(name, columns))), Done(Commit(0, true)),
                          Done(Restore(map[], None))];
      && Runs(Fresh(), steps) && RunFrom(Fresh(), steps).tables == map[]
      && var r := ApplyRecords(Image(0, map[]), Stream(RunFrom(Fresh(), steps).disk.log, 0));
         r.Some? && name in r.value.tables
  {
    hide Enabled, After, Fresh, Stream, ApplyRecords, TableMade, TableLog;
    var a1, a2, a3, a4 := Done(BeginTransaction), Done(Statement(0, CreateTableStmt(name, columns))), Done(Commit(0, true)), Done(Restore(map[], None));
    MakesTable(name, columns);
    LosesTable(name, columns);
    StreamsTable(name, columns);
    var e := TableMade(name, columns);
    assert [a4] + [] == [a4] && [a3] + [a4] == [a3, a4] && [a2] + [a3, a4] == [a2, a3, a4];
    assert [a1] + [a2, a3, a4] == [a1, a2, a3, a4];
    OneStep(After(e, a3), a4, []);
    OneStep(e, a3, [a4]);
    OneStep(After(Fresh(), a1), a2, [a3, a4]);
    OneStep(Fresh(), a1, [a2, a3, a4]);
  }
}
