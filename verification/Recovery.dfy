/** The durable engine of novadb/engine.py: commits, bulk inserts, checkpoints, compaction, restores,
    and a crash at any point of any of them. */
module Recovery {
  import opened Tables
  import opened Transactions

  /** A committed record of the page log, and the state image a checkpoint writes. */
  datatype Record = Record(version: nat, ops: seq<LogOp>)

  datatype Image = Image(version: nat, tables: State)

  datatype Disk = Disk(image: Option<Image>, log: seq<Record>)

  /** A transaction, with the version and the tables it began from and the statements it has run. */
  datatype Session = Session(base: nat, baseTables: State, stmts: seq<Stmt>, tx: Tx, closed: bool)

  datatype Engine = Engine(tables: State, version: nat, disk: Disk, sessions: seq<Session>)

  // ---------------------------------------------------------------- loading

  /** One record of the log: skipped when the state already has it. */
  function Absorb(image: Image, record: Record): Option<Image> {
    if record.version <= image.version then Some(image)
    else
      match ApplyAll(image.tables, record.ops)
      case None => None
      case Some(tables) => Some(Image(record.version, tables))
  }

  function AbsorbAll(image: Image, log: seq<Record>): Option<Image>
    decreases |log|
  {
    if log == [] then Some(image)
    else
      match Absorb(image, log[0])
      case None => None
      case Some(next) => AbsorbAll(next, log[1..])
  }

  function Start(disk: Disk): Image {
    if disk.image.Some? then disk.image.value else Image(0, map[])
  }

  /** _load: the state image, then every later record of the page log. */
  function Load(disk: Disk): Option<Image> {
    AbsorbAll(Start(disk), disk.log)
  }

  // ---------------------------------------------------------------- operations

  /** `fits` says whether the encoded record fits a page; one that does not is refused before any write. */
  datatype Action =
    | BeginTransaction
    | Statement(t: nat, stmt: Stmt)
    | Commit(t: nat, fits: bool)
    | BulkInsert(table: string, rows: Option<seq<Row>>, fits: bool)
    | Checkpoint
    | Compact(fits: bool)
    | Restore(snapshot: State, expected: Option<nat>)

  function WithImage(e: Engine): Engine {
    e.(disk := e.disk.(image := Some(Image(e.version, e.tables))))
  }

  /** Every tenth version is checkpointed. */
  function MaybeCheckpoint(e: Engine): Engine {
    if e.version % 10 == 0 then WithImage(e) else e
  }

  function Append(disk: Disk, record: Record): Disk {
    disk.(log := disk.log + [record])
  }

  function Applied(e: Engine, tables: State, ops: seq<LogOp>): Engine {
    e.(tables := tables, version := e.version + 1,
       disk := if ops == [] then e.disk else Append(e.disk, Record(e.version + 1, ops)))
  }

  predicate Open(e: Engine, t: nat) {
    t < |e.sessions| && !e.sessions[t].closed
  }

  function SessionLog(s: Session): seq<LogOp> {
    Logged(s.tx.ops, s.tx.own)
  }

  /** _commit succeeds: nothing committed since the transaction began, and its record fits. */
  predicate Commits(e: Engine, t: nat, fits: bool) {
    Open(e, t) && e.sessions[t].base == e.version && (fits || e.sessions[t].tx.ops == [])
  }

  predicate BulkInserts(e: Engine, table: string, rows: Option<seq<Row>>, fits: bool) {
    table in e.tables && rows.Some? && fits && NoneDuplicate(e.tables[table].columns, e.tables[table].rows, rows.value)
  }

  predicate Restores(e: Engine, expected: Option<nat>) {
    expected.Some? ==> expected.value == e.version
  }

  /** Python's order on strings. */
  predicate Before(a: string, b: string) {
    b != [] && (a == [] || a[0] < b[0] || (a[0] == b[0] && Before(a[1..], b[1..])))
  }

  lemma {:induction false} OneComesFirst(a: string, b: string)
    ensures a != b ==> Before(a, b) || Before(b, a)
    ensures !(Before(a, b) && Before(b, a))
  {
    if a != [] && b != [] {
      OneComesFirst(a[1..], b[1..]);
      assert a == [a[0]] + a[1..] && b == [b[0]] + b[1..];
    }
  }

  lemma {:induction false} BeforeTransitive(a: string, b: string, c: string)
    requires Before(a, b) && Before(b, c)
    ensures Before(a, c)
  {
    if a != [] && a[0] == b[0] == c[0] {
      BeforeTransitive(a[1..], b[1..], c[1..]);
    }
  }

  predicate Least(m: string, names: set<string>) {
    m in names && forall n | n in names && n != m :: Before(m, n)
  }

  lemma {:induction false} LeastExists(names: set<string>)
    requires names != {}
    ensures exists m :: Least(m, names)
  {
    var x :| x in names;
    var rest := names - {x};
    assert names == rest + {x};
    if rest == {} {
      assert Least(x, names);
    } else {
      LeastExists(rest);
      var m :| Least(m, rest);
      OneComesFirst(x, m);
      if Before(x, m) {
        forall n | n in names && n != x ensures Before(x, n) {
          if n != m { BeforeTransitive(x, m, n); }
        }
        assert Least(x, names);
      } else {
        assert Least(m, names);
      }
    }
  }

  lemma LeastUnique(names: set<string>, a: string, b: string)
    requires Least(a, names) && Least(b, names)
    ensures a == b
  {
    OneComesFirst(a, b);
  }

  /** sorted. */
  function Sorted(names: set<string>): (s: seq<string>)
    ensures forall name :: name in s <==> name in names
    ensures |s| == |names|
  {
    if names == {} then []
    else
      LeastExists(names);
      assert forall a, b | Least(a, names) && Least(b, names) :: a == b by {
        forall a, b | Least(a, names) && Least(b, names) ensures a == b { LeastUnique(names, a, b); }
      }
      var name :| name in names && Least(name, names);
      [name] + Sorted(names - {name})
  }

  function IndexOps(name: string, columns: seq<string>): seq<LogOp> {
    if columns == [] then [] else [CreateIndex(name, columns[0])] + IndexOps(name, columns[1..])
  }

  /** The operations that rebuild one table from nothing. */
  function TableOps(name: string, table: Table): seq<LogOp> {
    [CreateTable(name, table.columns)]
    + (if table.rows == [] then [] else [InsertMany(name, table.rows)])
    + IndexOps(name, Sorted(table.indexes))
  }

  function SnapshotOps(tables: State, names: seq<string>): seq<LogOp>
    requires forall name | name in names :: name in tables
  {
    if names == [] then [] else TableOps(names[0], tables[names[0]]) + SnapshotOps(tables, names[1..])
  }

  function Compacted(e: Engine): seq<Record> {
    var ops := SnapshotOps(e.tables, Sorted(e.tables.Keys));
    if ops == [] then [] else [Record(e.version, ops)]
  }

  /** One call that runs to its end. Calls that raise change nothing, except that a compaction whose
      record does not fit has already checkpointed. */
  ghost function Next(e: Engine, action: Action): Engine {
    match action
    case BeginTransaction => e.(sessions := e.sessions + [Session(e.version, e.tables, [], Begin(e.tables), false)])
    case Statement(t, stmt) =>
      if !Open(e, t) then e
      else
        var s := e.sessions[t];
        e.(sessions := e.sessions[t := s.(stmts := s.stmts + [stmt], tx := Execute(s.tx, stmt).tx)])
    case Commit(t, fits) =>
      if !Commits(e, t, fits) then e
      else
        var s := e.sessions[t];
        var e' := Applied(e, View(s.tx.tables, s.tx.own), SessionLog(s));
        MaybeCheckpoint(e'.(sessions := e.sessions[t := s.(closed := true)]))
    case BulkInsert(table, rows, fits) =>
      if !BulkInserts(e, table, rows, fits) then e
      else
        var t := e.tables[table];
        MaybeCheckpoint(Applied(e, e.tables[table := t.(rows := t.rows + rows.value)], [InsertMany(table, rows.value)]))
    case Checkpoint => WithImage(e)
    case Compact(fits) =>
      var e' := WithImage(e);
      if fits then e'.(disk := e'.disk.(log := Compacted(e))) else e'
    case Restore(snapshot, expected) =>
      if !Restores(e, expected) then e else WithImage(e.(tables := snapshot, version := e.version + 1))
  }

  /** The durable states the call passes through; a crash leaves one of them. */
  ghost function Trail(e: Engine, action: Action): (trail: seq<Disk>)
    ensures trail != []
  {
    var done := Next(e, action).disk;
    match action
    case Commit(t, fits) =>
      if !Commits(e, t, fits) then [e.disk]
      else [e.disk, Applied(e, e.tables, SessionLog(e.sessions[t])).disk, done]
    case BulkInsert(table, rows, fits) =>
      if !BulkInserts(e, table, rows, fits) then [e.disk]
      else [e.disk, Applied(e, e.tables, [InsertMany(table, rows.value)]).disk, done]
    case Compact(fits) => [e.disk, WithImage(e).disk, done]
    case _ => [e.disk, done]
  }

  /** A call that ends, or the crash that cuts it at some durable state and the reopening after it. */
  datatype Step = Done(action: Action) | Crash(action: Action, at: nat)

  /** Opening the directory; None if a record cannot be replayed. */
  function Reopen(disk: Disk): Option<Engine> {
    match Load(disk)
    case None => None
    case Some(image) => Some(Engine(image.tables, image.version, disk, []))
  }

  /** What a step promises to be used on: the committing transaction had no failed statement, and its changes to
      rows it inserted, if any, miss when they are replayed. */
  predicate Careful(e: Engine, action: Action) {
    action.Commit? && Commits(e, action.t, action.fits) ==>
      var s := e.sessions[action.t]; Misses(Begin(s.baseTables), s.stmts, s.tx.own)
  }

  ghost predicate Enabled(e: Engine, step: Step) {
    Careful(e, step.action) && (step.Crash? ==> step.at < |Trail(e, step.action)| && Reopen(Trail(e, step.action)[step.at]).Some?)
  }

  ghost function After(e: Engine, step: Step): Engine
    requires Enabled(e, step)
  {
    if step.Done? then Next(e, step.action) else Reopen(Trail(e, step.action)[step.at]).value
  }

  ghost predicate Runs(e: Engine, steps: seq<Step>)
    decreases |steps|
  {
    steps == [] || (Enabled(e, steps[0]) && Runs(After(e, steps[0]), steps[1..]))
  }

  ghost function RunFrom(e: Engine, steps: seq<Step>): Engine
    requires Runs(e, steps)
    decreases |steps|
  {
    if steps == [] then e else RunFrom(After(e, steps[0]), steps[1..])
  }

  function Fresh(): Engine {
    Engine(map[], 0, Disk(None, []), [])
  }

  // ---------------------------------------------------------------- loading, once over

  ghost predicate Ascending(log: seq<Record>) {
    forall i, j | 0 <= i < j < |log| :: log[i].version < log[j].version
  }

  function OpsAfter(log: seq<Record>, version: nat): seq<LogOp> {
    if log == [] then []
    else (if log[0].version > version then log[0].ops else []) + OpsAfter(log[1..], version)
  }

  function LastVersion(log: seq<Record>, version: nat): nat {
    if log == [] || log[|log| - 1].version <= version then version else log[|log| - 1].version
  }

  lemma {:induction false} SkippedBelow(log: seq<Record>, version: nat, other: nat)
    requires forall record | record in log :: record.version > version && record.version > other
    ensures OpsAfter(log, version) == OpsAfter(log, other)
  {
    if log != [] { SkippedBelow(log[1..], version, other); }
  }

  /** Absorbing a log replays each record above the starting version exactly once, in order. */
  lemma {:induction false} EachRecordOnce(image: Image, log: seq<Record>)
    requires Ascending(log)
    ensures var r := ApplyAll(image.tables, OpsAfter(log, image.version));
      AbsorbAll(image, log) == if r.None? then None else Some(Image(LastVersion(log, image.version), r.value))
    decreases |log|
  {
    if log != [] {
      var rest := log[1..];
      var v := image.version;
      if log[0].version > v {
        SkippedBelow(rest, v, log[0].version);
        ReplaySplits(image.tables, log[0].ops, OpsAfter(rest, v));
        if ApplyAll(image.tables, log[0].ops).Some? {
          EachRecordOnce(Image(log[0].version, ApplyAll(image.tables, log[0].ops).value), rest);
        }
      } else {
        assert [] + OpsAfter(rest, v) == OpsAfter(rest, v);
        EachRecordOnce(image, rest);
      }
    }
  }

  lemma {:induction false} AbsorbSplits(image: Image, first: seq<Record>, second: seq<Record>)
    ensures AbsorbAll(image, first + second)
      == (if AbsorbAll(image, first).None? then None else AbsorbAll(AbsorbAll(image, first).value, second))
    decreases |first|
  {
    if first == [] {
      assert first + second == second;
    } else {
      assert (first + second)[1..] == first[1..] + second;
      if Absorb(image, first[0]).Some? {
        AbsorbSplits(Absorb(image, first[0]).value, first[1..], second);
      }
    }
  }

  lemma {:induction false} NothingNew(image: Image, log: seq<Record>)
    requires forall record | record in log :: record.version <= image.version
    ensures AbsorbAll(image, log) == Some(image)
  {
    if log != [] { NothingNew(image, log[1..]); }
  }

  // ---------------------------------------------------------------- invariant

  /** The disk loads to these tables, up to row order, at a version no later than this one. */
  ghost predicate Holds(disk: Disk, version: nat, tables: State) {
    && Load(disk).Some? && Load(disk).value.version <= version && Same(Load(disk).value.tables, tables)
    && Ascending(disk.log) && (forall record | record in disk.log :: record.version <= version)
    && Start(disk).version <= version
  }

  ghost predicate SessionOk(e: Engine, s: Session) {
    && s.base <= e.version && (s.base == e.version ==> s.baseTables == e.tables)
    && s.tx == ExecuteAll(Begin(s.baseTables), s.stmts)
  }

  ghost predicate Inv(e: Engine) {
    Holds(e.disk, e.version, e.tables) && forall t | 0 <= t < |e.sessions| && !e.sessions[t].closed :: SessionOk(e, e.sessions[t])
  }

  lemma ImageHolds(disk: Disk, version: nat, tables: State)
    requires Ascending(disk.log) && forall record | record in disk.log :: record.version <= version
    ensures Holds(disk.(image := Some(Image(version, tables))), version, tables)
  {
    NothingNew(Image(version, tables), disk.log);
  }

  /** Appending the record of a change moves the loaded state by that change. */
  lemma AppendHolds(disk: Disk, version: nat, tables: State, ops: seq<LogOp>, tables': State)
    requires Holds(disk, version, tables)
    requires ApplyAll(tables, ops).Some? && Same(ApplyAll(tables, ops).value, tables')
    ensures Holds(Append(disk, Record(version + 1, ops)), version + 1, tables')
  {
    var loaded := Load(disk).value;
    var record := Record(version + 1, ops);
    AbsorbSplits(Start(disk), disk.log, [record]);
    ReplayRespectsBags(loaded.tables, tables, ops);
    var next := ApplyAll(loaded.tables, ops).value;
    assert AbsorbAll(loaded, [record]) == AbsorbAll(Image(version + 1, next), [record][1..]);
    SameTrans(next, ApplyAll(tables, ops).value, tables');
  }

  /** The disk states of a logged change: the old tables until the record is in, the new ones from there. */
  lemma AppliedHolds(e: Engine, tables: State, ops: seq<LogOp>)
    requires Holds(e.disk, e.version, e.tables)
    requires ApplyAll(e.tables, ops).Some? && Same(ApplyAll(e.tables, ops).value, tables)
    ensures Holds(Applied(e, tables, ops).disk, e.version + 1, tables)
    ensures Holds(MaybeCheckpoint(Applied(e, tables, ops)).disk, e.version + 1, tables)
  {
    hide ApplyAll, Same;
    if ops == [] {
      assert ApplyAll(e.tables, []) == Some(e.tables) by { ApplyNothing(e.tables); }
      EmptyHolds(e.disk, e.version, e.tables, tables);
    } else {
      AppendHolds(e.disk, e.version, e.tables, ops, tables);
    }
    hide Holds;
    var e' := Applied(e, tables, ops);
    HoldsVersions(e'.disk, e'.version, tables);
    ImageHolds(e'.disk, e'.version, tables);
  }

  lemma ApplyNothing(tables: State)
    ensures ApplyAll(tables, []) == Some(tables)
  {
  }

  lemma EmptyHolds(disk: Disk, version: nat, tables: State, tables': State)
    requires Holds(disk, version, tables) && Same(tables, tables')
    ensures Holds(disk, version + 1, tables')
  {
    SameTrans(Load(disk).value.tables, tables, tables');
  }

  lemma CommitReplays(e: Engine, t: nat, fits: bool)
    requires Inv(e) && Commits(e, t, fits) && Careful(e, Commit(t, fits))
    ensures var s := e.sessions[t];
      && s.tx == ExecuteAll(Begin(e.tables), s.stmts)
      && var r := ApplyAll(e.tables, SessionLog(s));
         r.Some? && Same(r.value, View(s.tx.tables, s.tx.own))
  {
    ReplayMatchesWhereOwnChangesMiss(e.tables, e.sessions[t].stmts);
  }

  lemma BulkInsertReplays(e: Engine, table: string, rows: seq<Row>)
    requires table in e.tables
    ensures var t := e.tables[table];
      ApplyAll(e.tables, [InsertMany(table, rows)]) == Some(e.tables[table := t.(rows := t.rows + rows)])
  {
    assert ApplyAll(e.tables, [InsertMany(table, rows)]) == ApplyOp(e.tables, InsertMany(table, rows));
  }

  /** A crash is atomic: every durable state of a call loads to the tables before it or after it. */
  lemma TrailHolds(e: Engine, action: Action, at: nat)
    requires Inv(e) && Careful(e, action) && at < |Trail(e, action)|
    ensures var disk := Trail(e, action)[at];
      Holds(disk, e.version, e.tables) || Holds(disk, Next(e, action).version, Next(e, action).tables)
    ensures var e' := Next(e, action); Holds(e'.disk, e'.version, e'.tables)
  {
    hide Holds, Same, ApplyAll, ExecuteAll, Misses, Load, Compacted, View, Logged;
    HoldsVersions(e.disk, e.version, e.tables);
    CompactedVersions(e);
    match action
    case Commit(t, fits) =>
      if Commits(e, t, fits) {
        CommitReplays(e, t, fits);
        var s := e.sessions[t];
        AppliedHolds(e, View(s.tx.tables, s.tx.own), SessionLog(s));
      }
    case BulkInsert(table, rows, fits) =>
      if BulkInserts(e, table, rows, fits) {
        BulkInsertReplays(e, table, rows.value);
        var t := e.tables[table];
        var tables := e.tables[table := t.(rows := t.rows + rows.value)];
        SameSelf(tables);
        AppliedHolds(e, tables, [InsertMany(table, rows.value)]);
      }
    case Checkpoint => ImageHolds(e.disk, e.version, e.tables);
    case Compact(fits) =>
      ImageHolds(e.disk, e.version, e.tables);
      ImageHolds(e.disk.(log := Compacted(e)), e.version, e.tables);
    case Restore(snapshot, expected) => ImageHolds(e.disk, e.version + 1, snapshot);
    case _ =>
  }

  lemma CompactedVersions(e: Engine)
    ensures Ascending(Compacted(e)) && forall record | record in Compacted(e) :: record.version <= e.version
  {
  }

  lemma SameSelf(a: State)
    ensures Same(a, a)
  {
  }

  lemma HoldsVersions(disk: Disk, version: nat, tables: State)
    requires Holds(disk, version, tables)
    ensures Ascending(disk.log) && forall record | record in disk.log :: record.version <= version
  {
  }

  lemma {:induction false} ExecuteOneMore(tx: Tx, stmts: seq<Stmt>, stmt: Stmt)
    ensures ExecuteAll(tx, stmts + [stmt]) == Execute(ExecuteAll(tx, stmts), stmt).tx
    decreases |stmts|
  {
    if stmts == [] {
      assert (stmts + [stmt])[1..] == [];
    } else {
      assert (stmts + [stmt])[1..] == stmts[1..] + [stmt];
      ExecuteOneMore(Execute(tx, stmts[0]).tx, stmts[1..], stmt);
    }
  }

  lemma NextKeepsInv(e: Engine, action: Action)
    requires Inv(e) && Careful(e, action)
    ensures Inv(Next(e, action))
  {
    hide Holds, Execute, ExecuteAll, Begin, Misses, Compacted, Logged;
    TrailHolds(e, action, 0);
    var e' := Next(e, action);
    forall t | 0 <= t < |e'.sessions| && !e'.sessions[t].closed ensures SessionOk(e', e'.sessions[t]) {
      if t < |e.sessions| {
        assert SessionOk(e, e.sessions[t]);
        if action.Statement? && t == action.t {
          ExecuteOneMore(Begin(e.sessions[t].baseTables), e.sessions[t].stmts, action.stmt);
        }
      } else {
        ExecuteNothing(Begin(e.tables));
      }
    }
  }

  lemma ExecuteNothing(tx: Tx)
    ensures ExecuteAll(tx, []) == tx
  {
  }

  lemma ReopenKeepsInv(disk: Disk, version: nat, tables: State)
    requires Holds(disk, version, tables)
    ensures Reopen(disk).Some? && Inv(Reopen(disk).value) && Same(Reopen(disk).value.tables, tables)
  {
    var e := Reopen(disk).value;
    EachRecordOnce(Start(disk), disk.log);
    var last := |disk.log| - 1;
    forall record | record in disk.log ensures record.version <= e.version {
      var i :| 0 <= i < |disk.log| && disk.log[i] == record;
      assert i < last ==> disk.log[i].version < disk.log[last].version;
    }
  }

  lemma StepKeepsInv(e: Engine, step: Step)
    requires Inv(e) && Enabled(e, step)
    ensures Inv(After(e, step))
  {
    if step.Done? {
      NextKeepsInv(e, step.action);
    } else {
      var disk := Trail(e, step.action)[step.at];
      TrailHolds(e, step.action, step.at);
      if Holds(disk, e.version, e.tables) {
        ReopenKeepsInv(disk, e.version, e.tables);
      } else {
        ReopenKeepsInv(disk, Next(e, step.action).version, Next(e, step.action).tables);
      }
    }
  }

  lemma {:induction false} RunKeepsInv(e: Engine, steps: seq<Step>)
    requires Inv(e) && Runs(e, steps)
    ensures Inv(RunFrom(e, steps))
    decreases |steps|
  {
    if steps != [] {
      StepKeepsInv(e, steps[0]);
      RunKeepsInv(After(e, steps[0]), steps[1..]);
    }
  }

  // ---------------------------------------------------------------- main results

  /** However the run went, crashes included, whatever the next call does and wherever it is cut, the
      directory opens again, and to the tables before the call or after it. */
  lemma CrashIsAtomic(steps: seq<Step>, action: Action, at: nat)
    requires Runs(Fresh(), steps) && Careful(RunFrom(Fresh(), steps), action)
    requires at < |Trail(RunFrom(Fresh(), steps), action)|
    ensures var e := RunFrom(Fresh(), steps);
      var r := Reopen(Trail(e, action)[at]);
      r.Some? && (Same(r.value.tables, e.tables) || Same(r.value.tables, Next(e, action).tables))
  {
    assert Inv(Fresh());
    RunKeepsInv(Fresh(), steps);
    var e := RunFrom(Fresh(), steps);
    TrailHolds(e, action, at);
    var disk := Trail(e, action)[at];
    if Holds(disk, e.version, e.tables) {
      ReopenKeepsInv(disk, e.version, e.tables);
    } else {
      ReopenKeepsInv(disk, Next(e, action).version, Next(e, action).tables);
    }
  }

  /** Once a call has returned, its outcome is durable. */
  lemma AcknowledgedIsDurable(steps: seq<Step>)
    requires Runs(Fresh(), steps)
    ensures var e := RunFrom(Fresh(), steps);
      Reopen(e.disk).Some? && Same(Reopen(e.disk).value.tables, e.tables) && Reopen(e.disk).value.version <= e.version
  {
    assert Inv(Fresh());
    RunKeepsInv(Fresh(), steps);
    var e := RunFrom(Fresh(), steps);
    ReopenKeepsInv(e.disk, e.version, e.tables);
  }

  /** A commit that succeeds has the effect of its statements run, all together, on the tables it replaces:
      nothing committed in between is lost. */
  lemma CommitIsSerial(steps: seq<Step>, t: nat, fits: bool)
    requires Runs(Fresh(), steps) && Commits(RunFrom(Fresh(), steps), t, fits)
    ensures var e := RunFrom(Fresh(), steps);
      var tx := ExecuteAll(Begin(e.tables), e.sessions[t].stmts);
      Next(e, Commit(t, fits)).tables == View(tx.tables, tx.own)
  {
    assert Inv(Fresh());
    RunKeepsInv(Fresh(), steps);
    assert SessionOk(RunFrom(Fresh(), steps), RunFrom(Fresh(), steps).sessions[t]);
  }
}
