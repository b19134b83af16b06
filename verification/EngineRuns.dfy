/** What calls on the engine (novadb/engine.py) come to over whole runs: which commits, bulk inserts and restores go
    through, how much is left to replay, and that primary keys stay distinct. */
module EngineRuns {
  import opened Tables
  import opened Transactions
  import opened Statements
  import opened Recovery

  // ---------------------------------------------------------------- commits

  /** All calls ran to their end. */
  ghost predicate Finished(steps: seq<Step>) {
    forall i | 0 <= i < |steps| :: steps[i].Done?
  }

  /** None of the calls commits the transaction. */
  ghost predicate LeavesOpen(steps: seq<Step>, t: nat) {
    forall i | 0 <= i < |steps| :: !(steps[i].action.Commit? && steps[i].action.t == t)
  }

  lemma {:induction false} StaysOpen(e: Engine, steps: seq<Step>, t: nat)
    requires Runs(e, steps) && Finished(steps) && LeavesOpen(steps, t) && Open(e, t)
    ensures Open(RunFrom(e, steps), t) && RunFrom(e, steps).sessions[t].base == e.sessions[t].base
    ensures RunFrom(e, steps).version >= e.version
    decreases |steps|
  {
    if steps != [] {
      assert steps[0].Done? && !(steps[0].action.Commit? && steps[0].action.t == t);
      OneCallLeavesOpen(e, steps[0].action, t);
      hide Next, Careful;
      StaysOpen(After(e, steps[0]), steps[1..], t);
    }
  }

  lemma OneCallLeavesOpen(e: Engine, action: Action, t: nat)
    requires Open(e, t) && !(action.Commit? && action.t == t)
    ensures Open(Next(e, action), t) && Next(e, action).sessions[t].base == e.sessions[t].base && Next(e, action).version >= e.version
  {
    hide Execute, View, SessionLog, Compacted, NoneDuplicate, Begin;
  }

  /** A transaction commits exactly when no call since it began has raised the version, whatever calls there were, and its
      record fits; the engine then has the tables its statements leave of those it began from, one version on. A refused
      commit changes nothing. */
  lemma CommitsIffVersionStands(steps: seq<Step>, more: seq<Step>, fits: bool)
    requires Runs(Fresh(), steps)
    requires var e := RunFrom(Fresh(), steps);
      && Runs(Next(e, BeginTransaction), more) && Finished(more) && LeavesOpen(more, |e.sessions|)
    ensures var e, t := RunFrom(Fresh(), steps), |RunFrom(Fresh(), steps).sessions|;
      var e' := RunFrom(Next(e, BeginTransaction), more);
      var after := Next(e', Commit(t, fits));
      && Open(e', t)
      && (after != e' <==> e'.version == e.version && (fits || SessionLog(e'.sessions[t]) == []))
      && (after != e' ==> after.version == e.version + 1 && !Open(after, t)
                          && after.tables == TablesOf(ExecuteAll(Begin(e.tables), e'.sessions[t].stmts)))
  {
    var e, t := RunFrom(Fresh(), steps), |RunFrom(Fresh(), steps).sessions|;
    var e1 := Next(e, BeginTransaction);
    var e' := RunFrom(e1, more);
    assert Inv(Fresh());
    RunKeepsInv(Fresh(), steps);
    NextKeepsInv(e, BeginTransaction);
    assert Open(e1, t) && e1.sessions[t].base == e.version && e1.version == e.version && e1.tables == e.tables;
    hide Inv, Runs, Begin, ExecuteAll;
    StaysOpen(e1, more, t);
    BaseTablesStay(e1, more, t);
    RunKeepsInv(e1, more);
    SessionsRan(e', t);
    LoggedNothing(e'.sessions[t]);
  }

  lemma SessionsRan(e: Engine, t: nat)
    requires Inv(e) && Open(e, t)
    ensures e.sessions[t].tx == ExecuteAll(Begin(e.sessions[t].baseTables), e.sessions[t].stmts)
  {
    assert SessionOk(e, e.sessions[t]);
  }

  lemma LoggedNothing(s: Session)
    ensures SessionLog(s) == [] <==> s.tx.ops == []
  {
  }

  lemma {:induction false} BaseTablesStay(e: Engine, steps: seq<Step>, t: nat)
    requires Runs(e, steps) && Finished(steps) && LeavesOpen(steps, t) && Open(e, t)
    ensures Open(RunFrom(e, steps), t) && RunFrom(e, steps).sessions[t].baseTables == e.sessions[t].baseTables
    decreases |steps|
  {
    if steps != [] {
      assert steps[0].Done? && !(steps[0].action.Commit? && steps[0].action.t == t);
      OneCallKeepsBase(e, steps[0].action, t);
      hide Next, Careful;
      BaseTablesStay(After(e, steps[0]), steps[1..], t);
    }
  }

  lemma OneCallKeepsBase(e: Engine, action: Action, t: nat)
    requires Open(e, t) && !(action.Commit? && action.t == t)
    ensures Open(Next(e, action), t) && Next(e, action).sessions[t].baseTables == e.sessions[t].baseTables
  {
    hide Execute, View, SessionLog, Compacted, NoneDuplicate, Begin;
  }

  // ---------------------------------------------------------------- bulk inserts and restores

  /** A bulk insert puts the rows after those of the table, refused exactly when its record does not fit, a row is
      refused, the table is missing or a primary key would repeat; it is logged whole. */
  lemma BulkInsertLeaves(e: Engine, table: string, rows: seq<Row>, fits: bool)
    requires table in e.tables ==> KeysDistinct(e.tables[table].columns, e.tables[table].rows)
    ensures var after := Next(e, BulkInsert(table, Some(rows), fits));
      if fits && table in e.tables && KeysDistinct(e.tables[table].columns, e.tables[table].rows + rows) then
        && Becomes(e.tables, after.tables, table, e.tables[table].rows + rows) && after.version == e.version + 1
        && after.disk.log == e.disk.log + [Record(e.version + 1, [InsertMany(table, rows)])]
      else after == e
  {
    hide KeysDistinct, NoneDuplicate;
    if table in e.tables {
      NoneDuplicateIff(e.tables[table].columns, e.tables[table].rows, rows);
    }
  }

  /** A restore that was asked for at a version goes through exactly when no call since has raised it, and then the
      tables are the snapshot's. */
  lemma RestoresIffVersionStands(steps: seq<Step>, more: seq<Step>, snapshot: State)
    requires Runs(Fresh(), steps) && Runs(RunFrom(Fresh(), steps), more)
    ensures var e := RunFrom(Fresh(), steps);
      var e' := RunFrom(e, more);
      var after := Next(e', Restore(snapshot, Some(e.version)));
      && (after != e' <==> e'.version == e.version)
      && (after != e' ==> after.tables == snapshot && after.version == e.version + 1 && after.disk.image == Some(Image(after.version, snapshot)))
  {
    hide Runs;
  }

  // ---------------------------------------------------------------- checkpoints

  /** Opening would replay the log from the last tenth version on, at the most. */
  ghost predicate RecentImage(e: Engine) {
    Start(e.disk).version >= e.version - e.version % 10
  }

  lemma CallKeepsImageRecent(e: Engine, action: Action)
    requires RecentImage(e)
    ensures RecentImage(Next(e, action))
  {
    hide Execute, View, SessionLog, Compacted, NoneDuplicate, Begin;
    assert (e.version + 1) % 10 != 0 ==> (e.version + 1) % 10 == e.version % 10 + 1;
  }

  lemma {:induction false} RunKeepsImageRecent(e: Engine, steps: seq<Step>)
    requires RecentImage(e) && Runs(e, steps) && Finished(steps)
    ensures RecentImage(RunFrom(e, steps))
    decreases |steps|
  {
    hide RecentImage, Next, Careful;
    if steps != [] {
      assert steps[0].Done?;
      CallKeepsImageRecent(e, steps[0].action);
      RunKeepsImageRecent(After(e, steps[0]), steps[1..]);
    }
  }

  /** However long a run of finished calls: at most nine versions lie after the state image. */
  lemma AtMostNineToReplay(steps: seq<Step>)
    requires Runs(Fresh(), steps) && Finished(steps)
    ensures var e := RunFrom(Fresh(), steps); e.version <= Start(e.disk).version + 9
    ensures var e := RunFrom(Fresh(), steps); e.version > 0 && e.version % 10 == 0 ==> e.disk.image.Some? && e.disk.image.value.version == e.version
  {
    assert RecentImage(Fresh());
    RunKeepsImageRecent(Fresh(), steps);
    assert Inv(Fresh());
    RunKeepsInv(Fresh(), steps);
    StartBelow(RunFrom(Fresh(), steps));
  }

  lemma StartBelow(e: Engine)
    requires Inv(e)
    ensures Start(e.disk).version <= e.version
  {
    hide Load, Ascending, Same;
  }

  // ---------------------------------------------------------------- primary keys

  /** No UPDATE, which checks no keys; and a restored snapshot has distinct keys. */
  ghost predicate ChecksKeys(action: Action) {
    match action
    case Statement(_, stmt) => !stmt.UpdateStmt?
    case Restore(snapshot, _) => AllKeysDistinct(snapshot)
    case _ => true
  }

  ghost predicate KeysInv(e: Engine) {
    && AllKeysDistinct(e.tables)
    && forall t | 0 <= t < |e.sessions| && !e.sessions[t].closed :: TxKeys(e.sessions[t].tx)
  }

  ghost predicate TxKeys(tx: Tx) {
    OwnRows.TablesOwnOnce(tx) && AllKeysDistinct(TablesOf(tx))
  }

  lemma BeginKeys(state: State)
    requires AllKeysDistinct(state)
    ensures TxKeys(Begin(state))
  {
    hide AllKeysDistinct, Begin;
    BeginApart(state);
  }

  lemma StatementKeys(tx: Tx, stmt: Stmt)
    requires TxKeys(tx) && !stmt.UpdateStmt?
    ensures TxKeys(Execute(tx, stmt).tx)
  {
    hide Execute, AllKeysDistinct;
    StatementKeepsKeys(tx, stmt);
    OwnRows.StatementKeepsOwnOnce(tx, stmt);
  }

  lemma CallKeepsKeys(e: Engine, action: Action)
    requires KeysInv(e) && ChecksKeys(action)
    ensures KeysInv(Next(e, action))
  {
    hide AllKeysDistinct, TxKeys, Begin, Execute, Compacted, KeysDistinct, Applied, MaybeCheckpoint;
    match action
    case BeginTransaction => BeginKeys(e.tables);
    case Statement(t, stmt) =>
      if Open(e, t) { StatementKeys(e.sessions[t].tx, stmt); }
    case Commit(t, fits) =>
      if Commits(e, t, fits) { CommitKeys(e, t, fits); }
    case BulkInsert(table, rows, fits) =>
      if rows.Some? { BulkKeys(e, table, rows.value, fits); }
    case _ =>
  }

  lemma CommitKeys(e: Engine, t: nat, fits: bool)
    requires KeysInv(e) && Commits(e, t, fits)
    ensures var after := Next(e, Commit(t, fits)); AllKeysDistinct(after.tables) && after.sessions == e.sessions[t := e.sessions[t].(closed := true)]
  {
    hide AllKeysDistinct, Execute, View, SessionLog;
    assert TxKeys(e.sessions[t].tx);
  }

  lemma BulkKeys(e: Engine, table: string, rows: seq<Row>, fits: bool)
    requires AllKeysDistinct(e.tables)
    ensures var after := Next(e, BulkInsert(table, Some(rows), fits)); AllKeysDistinct(after.tables) && after.sessions == e.sessions
  {
    hide KeysDistinct, NoneDuplicate;
    BulkInsertLeaves(e, table, rows, fits);
    if table in e.tables && KeysDistinct(e.tables[table].columns, e.tables[table].rows + rows) {
      var after := Next(e, BulkInsert(table, Some(rows), fits));
      if after != e { BecomesDistinct(e.tables, after.tables, table, e.tables[table].rows + rows); }
    }
  }

  lemma BagWithout(rows: seq<Row>, i: nat)
    requires i < |rows|
    ensures multiset(rows[..i] + rows[i + 1..]) == multiset(rows) - multiset{rows[i]}
  {
    assert rows == rows[..i] + ([rows[i]] + rows[i + 1..]);
  }

  lemma TwoOfOne(rows: seq<Row>, row: Row)
    requires multiset(rows)[row] > 1
    ensures exists i, j :: 0 <= i < j < |rows| && rows[i] == row && rows[j] == row
  {
    assert row in rows;
    var i :| 0 <= i < |rows| && rows[i] == row;
    var rest := rows[..i] + rows[i + 1..];
    BagWithout(rows, i);
    assert multiset(rest)[row] > 0;
    assert row in rest;
    var k :| 0 <= k < |rest| && rest[k] == row;
    if k < i {
      assert rows[k] == row;
    } else {
      assert rows[k + 1] == row;
    }
  }

  lemma OneOfTwo(rows: seq<Row>, i: nat, j: nat)
    requires i < j < |rows| && rows[i] == rows[j]
    ensures multiset(rows)[rows[i]] > 1
  {
    assert rows == rows[..i] + ([rows[i]] + rows[i + 1..]);
    assert rows[i + 1..][j - i - 1] == rows[i];
    assert rows[i] in rows[i + 1..];
    assert multiset(rows) == multiset(rows[..i]) + multiset{rows[i]} + multiset(rows[i + 1..]);
  }

  /** Whether keys are distinct depends on the bag of rows. */
  lemma DistinctBag(columns: seq<Column>, a: seq<Row>, b: seq<Row>)
    requires multiset(a) == multiset(b) && KeysDistinct(columns, a)
    ensures KeysDistinct(columns, b)
  {
    forall c, i, j | c in columns && c.primaryKey && 0 <= i < j < |b| ensures Get(b[i], c.name) != Get(b[j], c.name) {
      assert b[i] in multiset(b) && b[j] in multiset(b);
      assert b[i] in a && b[j] in a;
      if b[i] == b[j] {
        OneOfTwo(b, i, j);
        TwoOfOne(a, b[i]);
        assert false;
      } else {
        var k, l :| 0 <= k < |a| && 0 <= l < |a| && a[k] == b[i] && a[l] == b[j];
        assert k < l || l < k;
      }
    }
  }

  lemma SameKeys(a: State, b: State)
    requires Same(a, b) && AllKeysDistinct(a)
    ensures AllKeysDistinct(b)
  {
    hide KeysDistinct;
    forall name | name in b ensures KeysDistinct(b[name].columns, b[name].rows) {
      assert SameTable(a[name], b[name]);
      DistinctBag(a[name].columns, a[name].rows, b[name].rows);
    }
  }

  lemma CrashKeepsKeys(e: Engine, step: Step)
    requires Inv(e) && KeysInv(e) && Enabled(e, step) && step.Crash? && ChecksKeys(step.action)
    ensures KeysInv(After(e, step))
  {
    hide AllKeysDistinct, Holds, Next, TxKeys, Careful, Load;
    var next, disk := Next(e, step.action), Trail(e, step.action)[step.at];
    CallKeepsKeys(e, step.action);
    TrailHolds(e, step.action, step.at);
    if Holds(disk, e.version, e.tables) {
      ReopenKeepsInv(disk, e.version, e.tables);
      SameBack(After(e, step).tables, e.tables);
      SameKeys(e.tables, After(e, step).tables);
    } else {
      ReopenKeepsInv(disk, next.version, next.tables);
      SameBack(After(e, step).tables, next.tables);
      SameKeys(next.tables, After(e, step).tables);
    }
  }

  lemma SameBack(a: State, b: State)
    requires Same(a, b)
    ensures Same(b, a)
  {
  }

  lemma {:induction false} RunKeepsKeysDistinct(e: Engine, steps: seq<Step>)
    requires Inv(e) && KeysInv(e) && Runs(e, steps) && forall i | 0 <= i < |steps| :: ChecksKeys(steps[i].action)
    ensures KeysInv(RunFrom(e, steps))
    decreases |steps|
  {
    hide KeysInv, Inv, Next, Careful, Trail, ChecksKeys;
    if steps != [] {
      StepKeepsInv(e, steps[0]);
      if steps[0].Done? { CallKeepsKeys(e, steps[0].action); } else { CrashKeepsKeys(e, steps[0]); }
      RunKeepsKeysDistinct(After(e, steps[0]), steps[1..]);
    }
  }

  /** Over any run without UPDATE, crashes and restores of such states included, no two rows of a table share a primary
      key. */
  lemma PrimaryKeysHold(steps: seq<Step>)
    requires Runs(Fresh(), steps) && forall i | 0 <= i < |steps| :: ChecksKeys(steps[i].action)
    ensures AllKeysDistinct(RunFrom(Fresh(), steps).tables)
  {
    assert Inv(Fresh()) && KeysInv(Fresh());
    RunKeepsKeysDistinct(Fresh(), steps);
  }
}
