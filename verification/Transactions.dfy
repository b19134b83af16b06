/** Engine transactions (novadb/engine.py, Transaction): statements on cloned tables, and the log of
    operations they leave. A row a transaction inserts is one object, shared by the table and the log. */
module Transactions {
  import opened Tables

  /** A row object: cloned from the engine, or the transaction's own, which the log also refers to. */
  datatype Item = Base(row: Row) | Own(id: nat)

  datatype TxTable = TxTable(columns: seq<Column>, items: seq<Item>, indexes: set<string>)

  datatype TxOp =
    | NewTable(name: string, columns: seq<Column>)
    | NewIndex(table: string, column: string)
    | NewRow(table: string, id: nat)
    | NewRows(table: string, ids: seq<nat>)
    | Changed(table: string, before: Row, after: Row)
    | Removed(table: string, item: Item)

  /** `own` holds the present content of the row objects the transaction made. */
  datatype Tx = Tx(tables: map<string, TxTable>, own: seq<Row>, ops: seq<TxOp>)

  function RowOf(item: Item, own: seq<Row>): Row {
    match item
    case Base(row) => row
    case Own(id) => if id < |own| then own[id] else map[]
  }

  function RowsOf(items: seq<Item>, own: seq<Row>): (rows: seq<Row>)
    ensures |rows| == |items| && forall i | 0 <= i < |items| :: rows[i] == RowOf(items[i], own)
  {
    seq(|items|, i requires 0 <= i < |items| => RowOf(items[i], own))
  }

  function ViewTable(table: TxTable, own: seq<Row>): Table {
    Table(table.columns, RowsOf(table.items, own), table.indexes)
  }

  /** The transaction's tables, with `own` as the content of its own rows. */
  function View(tables: map<string, TxTable>, own: seq<Row>): State {
    map name | name in tables :: ViewTable(tables[name], own)
  }

  function OwnRows(ids: seq<nat>): seq<Item> {
    seq(|ids|, i requires 0 <= i < |ids| => Own(ids[i]))
  }

  function BaseRows(rows: seq<Row>): seq<Item> {
    seq(|rows|, i requires 0 <= i < |rows| => Base(rows[i]))
  }

  /** The operation as the log encodes it when the transaction commits. */
  function Resolved(op: TxOp, own: seq<Row>): LogOp {
    match op
    case NewTable(name, columns) => CreateTable(name, columns)
    case NewIndex(table, column) => CreateIndex(table, column)
    case NewRow(table, id) => Insert(table, RowOf(Own(id), own))
    case NewRows(table, ids) => InsertMany(table, RowsOf(OwnRows(ids), own))
    case Changed(table, before, after) => Update(table, before, after)
    case Removed(table, item) => Delete(table, RowOf(item, own))
  }

  function Logged(ops: seq<TxOp>, own: seq<Row>): (log: seq<LogOp>)
    ensures |log| == |ops| && forall i | 0 <= i < |ops| :: log[i] == Resolved(ops[i], own)
  {
    seq(|ops|, i requires 0 <= i < |ops| => Resolved(ops[i], own))
  }

  /** begin: every table is cloned. */
  function Begin(state: State): Tx {
    Tx(map name | name in state :: TxTable(state[name].columns, BaseRows(state[name].rows), state[name].indexes), [], [])
  }

  // ---------------------------------------------------------------- statements

  /** What an UPDATE does to one row: leaves it, changes it, or raises with the row half assigned. */
  datatype Edit = Keep | Change(after: Row) | Fail(partial: Row)

  /** Parsed statements. `row` and `rows` are what normalization returned, None if it raised;
      `pick` answers None where the predicate raises. */
  datatype Stmt =
    | CreateTableStmt(name: string, columns: seq<Column>)
    | CreateIndexStmt(table: string, column: string)
    | InsertStmt(table: string, row: Option<Row>)
    | InsertManyStmt(table: string, rows: Option<seq<Row>>)
    | UpdateStmt(table: string, columnsKnown: bool, edit: Row -> Edit)
    | DeleteStmt(table: string, pick: Row -> Option<bool>)

  datatype Outcome = Outcome(tx: Tx, ok: bool)

  function Get(row: Row, name: string): Value {
    if name in row then row[name] else Null
  }

  /** The row repeats the primary key of another. */
  predicate Duplicate(columns: seq<Column>, rows: seq<Row>, row: Row) {
    exists c, r :: c in columns && c.primaryKey && r in rows && Get(r, c.name) == Get(row, c.name)
  }

  /** No row of the batch repeats a primary key of the table or of an earlier row of the batch. */
  predicate NoneDuplicate(columns: seq<Column>, rows: seq<Row>, batch: seq<Row>) {
    forall i | 0 <= i < |batch| :: !Duplicate(columns, rows + batch[..i], batch[i])
  }

  function PutRow(item: Item, own: seq<Row>, row: Row): (Item, seq<Row>) {
    match item
    case Base(_) => (Base(row), own)
    case Own(id) => (item, if id < |own| then own[id := row] else own)
  }

  datatype Updated = Updated(items: seq<Item>, own: seq<Row>, changes: seq<TxOp>, ok: bool)

  /** The loop of an UPDATE: rows are edited in place and each change is logged, up to the first that raises. */
  function UpdateItems(table: string, items: seq<Item>, own: seq<Row>, edit: Row -> Edit): (u: Updated)
    ensures |u.items| == |items|
  {
    if items == [] then Updated([], own, [], true)
    else
      var row := RowOf(items[0], own);
      match edit(row)
      case Keep =>
        var rest := UpdateItems(table, items[1..], own, edit);
        rest.(items := [items[0]] + rest.items)
      case Change(after) =>
        var (item, own') := PutRow(items[0], own, after);
        var rest := UpdateItems(table, items[1..], own', edit);
        rest.(items := [item] + rest.items, changes := [Changed(table, row, after)] + rest.changes)
      case Fail(partial) =>
        var (item, own') := PutRow(items[0], own, partial);
        Updated([item] + items[1..], own', [], false)
  }

  function Kept(items: seq<Item>, own: seq<Row>, pick: Row -> Option<bool>): seq<Item> {
    if items == [] then []
    else (if pick(RowOf(items[0], own)) == Some(true) then [] else [items[0]]) + Kept(items[1..], own, pick)
  }

  function Dropped(items: seq<Item>, own: seq<Row>, pick: Row -> Option<bool>): seq<Item> {
    if items == [] then []
    else (if pick(RowOf(items[0], own)) == Some(true) then [items[0]] else []) + Dropped(items[1..], own, pick)
  }

  function Removals(table: string, items: seq<Item>): seq<TxOp> {
    seq(|items|, i requires 0 <= i < |items| => Removed(table, items[i]))
  }

  function Ids(from: nat, count: nat): seq<nat> {
    seq(count, i => from + i)
  }

  /** One statement; a failed one reports it, and may leave an UPDATE half done. */
  function Execute(tx: Tx, stmt: Stmt): Outcome {
    match stmt
    case CreateTableStmt(name, columns) =>
      if name in tx.tables then Outcome(tx, false)
      else Outcome(tx.(tables := tx.tables[name := TxTable(columns, [], {})], ops := tx.ops + [NewTable(name, columns)]), true)
    case CreateIndexStmt(table, column) =>
      if table !in tx.tables || !(exists c :: c in tx.tables[table].columns && c.name == column) then Outcome(tx, false)
      else
        var t := tx.tables[table];
        Outcome(tx.(tables := tx.tables[table := t.(indexes := t.indexes + {column})], ops := tx.ops + [NewIndex(table, column)]), true)
    case InsertStmt(table, row) =>
      if table !in tx.tables || row.None? then Outcome(tx, false)
      else
        var t := tx.tables[table];
        if Duplicate(t.columns, RowsOf(t.items, tx.own), row.value) then Outcome(tx, false)
        else
          var id := |tx.own|;
          Outcome(Tx(tx.tables[table := t.(items := t.items + [Own(id)])], tx.own + [row.value], tx.ops + [NewRow(table, id)]), true)
    case InsertManyStmt(table, rows) =>
      if table !in tx.tables || rows.None? then Outcome(tx, false)
      else
        var t := tx.tables[table];
        if !NoneDuplicate(t.columns, RowsOf(t.items, tx.own), rows.value) then Outcome(tx, false)
        else
          var ids := Ids(|tx.own|, |rows.value|);
          Outcome(Tx(tx.tables[table := t.(items := t.items + OwnRows(ids))], tx.own + rows.value, tx.ops + [NewRows(table, ids)]), true)
    case UpdateStmt(table, columnsKnown, edit) =>
      if table !in tx.tables || !columnsKnown then Outcome(tx, false)
      else
        var t := tx.tables[table];
        var u := UpdateItems(table, t.items, tx.own, edit);
        Outcome(Tx(tx.tables[table := t.(items := u.items)], u.own, tx.ops + u.changes), u.ok)
    case DeleteStmt(table, pick) =>
      if table !in tx.tables then Outcome(tx, false)
      else
        var t := tx.tables[table];
        if exists item :: item in t.items && pick(RowOf(item, tx.own)).None? then Outcome(tx, false)
        else
          Outcome(tx.(tables := tx.tables[table := t.(items := Kept(t.items, tx.own, pick))],
                      ops := tx.ops + Removals(table, Dropped(t.items, tx.own, pick))), true)
  }

  /** An UPDATE that edits none of the transaction's own rows. */
  predicate LeavesOwnRows(items: seq<Item>, own: seq<Row>, edit: Row -> Edit) {
    forall item | item in items && item.Own? :: edit(RowOf(item, own)) == Keep
  }

  predicate CleanStmt(tx: Tx, stmt: Stmt) {
    stmt.UpdateStmt? && stmt.table in tx.tables ==> LeavesOwnRows(tx.tables[stmt.table].items, tx.own, stmt.edit)
  }

  function ExecuteAll(tx: Tx, stmts: seq<Stmt>): Tx
    decreases |stmts|
  {
    if stmts == [] then tx else ExecuteAll(Execute(tx, stmts[0]).tx, stmts[1..])
  }

  /** Every statement succeeds, and none updates a row this transaction inserted. */
  predicate Clean(tx: Tx, stmts: seq<Stmt>)
    decreases |stmts|
  {
    stmts == [] || (CleanStmt(tx, stmts[0]) && Execute(tx, stmts[0]).ok && Clean(Execute(tx, stmts[0]).tx, stmts[1..]))
  }

  /** An UPDATE's changes to own rows find nothing to change when they are replayed by value. By then the log
      inserts own rows as `own` says; `done` are the table's rows up to here, and `held` what the own rows hold
      while the statement runs. */
  predicate OwnChangesMiss(items: seq<Item>, done: seq<Row>, held: seq<Row>, own: seq<Row>, edit: Row -> Edit)
    decreases |items|
  {
    if items == [] then true
    else
      var row := RowOf(items[0], held);
      match edit(row)
      case Keep => OwnChangesMiss(items[1..], done + [RowOf(items[0], own)], held, own, edit)
      case Change(after) =>
        if items[0].Base? then OwnChangesMiss(items[1..], done + [after], held, own, edit)
        else
          && (row == after || row !in done + RowsOf(items, own))
          && OwnChangesMiss(items[1..], done + [RowOf(items[0], own)], PutRow(items[0], held, after).1, own, edit)
      case Fail(_) => true
  }

  predicate MissesStmt(tx: Tx, stmt: Stmt, own: seq<Row>) {
    stmt.UpdateStmt? && stmt.table in tx.tables ==> OwnChangesMiss(tx.tables[stmt.table].items, [], tx.own, own, stmt.edit)
  }

  /** Every statement succeeds, and every change to an own row misses. */
  predicate Misses(tx: Tx, stmts: seq<Stmt>, own: seq<Row>)
    decreases |stmts|
  {
    stmts == [] || (MissesStmt(tx, stmts[0], own) && Execute(tx, stmts[0]).ok && Misses(Execute(tx, stmts[0]).tx, stmts[1..], own))
  }

  lemma {:induction false} LeavingMisses(items: seq<Item>, done: seq<Row>, held: seq<Row>, own: seq<Row>, edit: Row -> Edit)
    requires LeavesOwnRows(items, held, edit)
    ensures OwnChangesMiss(items, done, held, own, edit)
    decreases |items|
  {
    if items != [] {
      assert items == [items[0]] + items[1..];
      var row := RowOf(items[0], held);
      var next := if edit(row).Change? then edit(row).after else RowOf(items[0], own);
      LeavingMisses(items[1..], done + [next], held, own, edit);
    }
  }

  lemma {:induction false} CleanMisses(tx: Tx, stmts: seq<Stmt>, own: seq<Row>)
    requires Clean(tx, stmts)
    ensures Misses(tx, stmts, own)
    decreases |stmts|
  {
    if stmts != [] {
      CleanStmtMisses(tx, stmts[0], own);
      CleanMisses(Execute(tx, stmts[0]).tx, stmts[1..], own);
    }
  }

  lemma CleanStmtMisses(tx: Tx, stmt: Stmt, own: seq<Row>)
    requires CleanStmt(tx, stmt)
    ensures MissesStmt(tx, stmt, own)
  {
    if stmt.UpdateStmt? && stmt.table in tx.tables {
      LeavingMisses(tx.tables[stmt.table].items, [], tx.own, own, stmt.edit);
    }
  }

  // ---------------------------------------------------------------- replay agrees

  /** With `own` as what the own rows hold in the end, replaying the log on the base gives the transaction's
      tables with those rows. */
  ghost predicate ReplaysAs(base: State, tables: map<string, TxTable>, ops: seq<TxOp>, own: seq<Row>) {
    var r := ApplyAll(base, Logged(ops, own));
    r.Some? && Same(r.value, View(tables, own))
  }

  /** So it is whatever the own rows will hold: the log does not look at them. */
  ghost predicate Faithful(base: State, tx: Tx) {
    forall own: seq<Row> :: ReplaysAs(base, tx.tables, tx.ops, own)
  }

  lemma BeginReplays(state: State, own: seq<Row>)
    ensures ReplaysAs(state, Begin(state).tables, Begin(state).ops, own)
  {
    var view := View(Begin(state).tables, own);
    forall name | name in state ensures view[name].rows == state[name].rows {
    }
  }

  lemma BeginFaithful(state: State)
    ensures Faithful(state, Begin(state))
  {
    forall own: seq<Row> ensures ReplaysAs(state, Begin(state).tables, Begin(state).ops, own) {
      BeginReplays(state, own);
    }
  }

  /** A log that replays, and new operations that turn the old tables into the new ones. */
  lemma Extends(base: State, tx: Tx, tables: map<string, TxTable>, ops: seq<TxOp>, own: seq<Row>)
    requires ReplaysAs(base, tx.tables, tx.ops, own) && ReplaysAs(View(tx.tables, own), tables, ops, own)
    ensures ReplaysAs(base, tables, tx.ops + ops, own)
  {
    var middle := ApplyAll(base, Logged(tx.ops, own)).value;
    assert Logged(tx.ops + ops, own) == Logged(tx.ops, own) + Logged(ops, own);
    ReplaySplits(base, Logged(tx.ops, own), Logged(ops, own));
    ReplayRespectsBags(middle, View(tx.tables, own), Logged(ops, own));
    SameTrans(ApplyAll(middle, Logged(ops, own)).value, ApplyAll(View(tx.tables, own), Logged(ops, own)).value, View(tables, own));
  }

  lemma SameTrans(a: State, b: State, c: State)
    requires Same(a, b) && Same(b, c)
    ensures Same(a, c)
  {
  }

  function WithTable(tables: map<string, TxTable>, name: string, own: seq<Row>, rows: seq<Row>): State
    requires name in tables
  {
    View(tables, own)[name := Table(tables[name].columns, rows, tables[name].indexes)]
  }

  /** On one table, the operations replay `rows` into `rows'`, up to row order. */
  ghost predicate TableReplays(tables: map<string, TxTable>, name: string, own: seq<Row>, rows: seq<Row>, ops: seq<LogOp>, rows': seq<Row>)
    requires name in tables
  {
    var r := ApplyAll(WithTable(tables, name, own, rows), ops);
    r.Some? && Same(r.value, WithTable(tables, name, own, rows'))
  }

  lemma TableReplaysThen(tables: map<string, TxTable>, name: string, own: seq<Row>, rows: seq<Row>, op: LogOp,
                         rows1: seq<Row>, ops: seq<LogOp>, rows2: seq<Row>)
    requires name in tables
    requires TableReplays(tables, name, own, rows, [op], rows1) && TableReplays(tables, name, own, rows1, ops, rows2)
    ensures TableReplays(tables, name, own, rows, [op] + ops, rows2)
  {
    ReplaySplits(WithTable(tables, name, own, rows), [op], ops);
    var middle := ApplyAll(WithTable(tables, name, own, rows), [op]).value;
    ReplayRespectsBags(middle, WithTable(tables, name, own, rows1), ops);
  }

  lemma OneOpReplays(tables: map<string, TxTable>, name: string, own: seq<Row>, rows: seq<Row>, op: LogOp, rows': seq<Row>)
    requires name in tables
    requires (op.Update? || op.Delete?) && op.table == name
    requires multiset(ApplyToTable(Table([], rows, {}), op).rows) == multiset(rows')
    ensures TableReplays(tables, name, own, rows, [op], rows')
  {
    var start := WithTable(tables, name, own, rows);
    assert ApplyAll(start, [op]) == ApplyOp(start, op);
  }

  lemma ReplacedIn(done: seq<Row>, row: Row, rest: seq<Row>, after: Row)
    ensures row in done + ([row] + rest)
    ensures multiset(done + ([row] + rest)) - multiset{row} + multiset{after} == multiset((done + [after]) + rest)
  {
    assert (done + ([row] + rest))[|done|] == row;
    assert multiset(done + ([row] + rest)) == multiset(done) + multiset{row} + multiset(rest);
  }

  lemma OneUpdateReplays(tables: map<string, TxTable>, name: string, own: seq<Row>, done: seq<Row>, row: Row, rest: seq<Row>, after: Row)
    requires name in tables
    ensures TableReplays(tables, name, own, done + ([row] + rest), [Update(name, row, after)], (done + [after]) + rest)
  {
    hide TableReplays;
    var rows := done + ([row] + rest);
    ReplaceFirstBag(rows, row, after);
    ReplacedIn(done, row, rest, after);
    OneOpReplays(tables, name, own, rows, Update(name, row, after), (done + [after]) + rest);
  }

  lemma RowsOfCons(item: Item, rest: seq<Item>, own: seq<Row>)
    ensures RowsOf([item] + rest, own) == [RowOf(item, own)] + RowsOf(rest, own)
  {
  }

  lemma LoggedCons(op: TxOp, rest: seq<TxOp>, own: seq<Row>)
    ensures Logged([op] + rest, own) == [Resolved(op, own)] + Logged(rest, own)
  {
  }

  lemma Shift(done: seq<Row>, row: Row, rest: seq<Row>)
    ensures done + ([row] + rest) == (done + [row]) + rest
  {
  }

  /** An UPDATE replays if its changes to own rows miss. */
  lemma {:induction false} UpdateReplaysPast(tables: map<string, TxTable>, name: string, done: seq<Row>, items: seq<Item>,
                                             held: seq<Row>, own: seq<Row>, edit: Row -> Edit)
    requires name in tables && OwnChangesMiss(items, done, held, own, edit) && UpdateItems(name, items, held, edit).ok
    ensures var u := UpdateItems(name, items, held, edit);
      TableReplays(tables, name, own, done + RowsOf(items, own), Logged(u.changes, own), done + RowsOf(u.items, own))
    decreases |items|
  {
    hide TableReplays, RowsOf, Logged;
    if items == [] {
      assert Logged([], own) == [];
      NothingReplays(tables, name, own, done + RowsOf(items, own));
    } else {
      var item, rest := items[0], items[1..];
      var held', rows := RowOf(item, held), RowsOf(rest, own);
      assert items == [item] + rest;
      RowsOfCons(item, rest, own);
      Shift(done, RowOf(item, own), rows);
      var result := edit(held');
      var put := if result.Change? then PutRow(item, held, result.after) else (item, held);
      var next := RowOf(put.0, own);
      var v := UpdateItems(name, rest, put.1, edit);
      UpdateReplaysPast(tables, name, done + [next], rest, put.1, own, edit);
      RowsOfCons(put.0, v.items, own);
      Shift(done, next, RowsOf(v.items, own));
      if result.Change? {
        LoggedCons(Changed(name, held', result.after), v.changes, own);
        if item.Base? {
          OneUpdateReplays(tables, name, own, done, held', rows, next);
        } else {
          MissedUpdateReplays(tables, name, own, done + ([next] + rows), held', result.after);
        }
        TableReplaysThen(tables, name, own, done + ([RowOf(item, own)] + rows), Update(name, held', result.after),
                         (done + [next]) + rows, Logged(v.changes, own), (done + [next]) + RowsOf(v.items, own));
      }
    }
  }

  lemma MissedUpdateReplays(tables: map<string, TxTable>, name: string, own: seq<Row>, rows: seq<Row>, row: Row, after: Row)
    requires name in tables && (row == after || row !in rows)
    ensures TableReplays(tables, name, own, rows, [Update(name, row, after)], rows)
  {
    ReplaceFirstBag(rows, row, after);
    OneOpReplays(tables, name, own, rows, Update(name, row, after), rows);
  }

  /** An UPDATE that only edits base rows replays. */
  lemma UpdateReplays(tables: map<string, TxTable>, name: string, done: seq<Row>, items: seq<Item>,
                      held: seq<Row>, own: seq<Row>, edit: Row -> Edit)
    requires name in tables && LeavesOwnRows(items, held, edit) && UpdateItems(name, items, held, edit).ok
    ensures var u := UpdateItems(name, items, held, edit);
      u.own == held && TableReplays(tables, name, own, done + RowsOf(items, own), Logged(u.changes, own), done + RowsOf(u.items, own))
  {
    LeavingMisses(items, done, held, own, edit);
    UpdateReplaysPast(tables, name, done, items, held, own, edit);
    LeavingHolds(name, items, held, edit);
  }

  lemma {:induction false} LeavingHolds(name: string, items: seq<Item>, held: seq<Row>, edit: Row -> Edit)
    requires LeavesOwnRows(items, held, edit) && UpdateItems(name, items, held, edit).ok
    ensures UpdateItems(name, items, held, edit).own == held
    decreases |items|
  {
    if items != [] {
      assert items == [items[0]] + items[1..];
      LeavingHolds(name, items[1..], held, edit);
    }
  }

  lemma NothingReplays(tables: map<string, TxTable>, name: string, own: seq<Row>, rows: seq<Row>)
    requires name in tables
    ensures TableReplays(tables, name, own, rows, [], rows)
  {
  }

  /** A DELETE replays: each dropped row is still in the bag when its removal comes. */
  lemma {:induction false} DeleteReplays(tables: map<string, TxTable>, name: string, done: seq<Row>, items: seq<Item>,
                                         held: seq<Row>, own: seq<Row>, pick: Row -> Option<bool>)
    requires name in tables
    ensures TableReplays(tables, name, own, done + RowsOf(items, own), Logged(Removals(name, Dropped(items, held, pick)), own),
                         done + RowsOf(Kept(items, held, pick), own))
    decreases |items|
  {
    hide TableReplays, RowsOf, Logged;
    if items == [] {
      assert Removals(name, []) == [] && Logged([], own) == [];
      NothingReplays(tables, name, own, done + RowsOf(items, own));
    } else {
      var rest := items[1..];
      var row, rows := RowOf(items[0], own), RowsOf(rest, own);
      var kept, dropped := Kept(rest, held, pick), Dropped(rest, held, pick);
      assert items == [items[0]] + rest;
      RowsOfCons(items[0], rest, own);
      Shift(done, row, rows);
      if pick(RowOf(items[0], held)) == Some(true) {
        DeleteReplays(tables, name, done, rest, held, own, pick);
        OneDeleteReplays(tables, name, own, done, row, rows);
        TableReplaysThen(tables, name, own, done + ([row] + rows), Delete(name, row), done + rows,
                         Logged(Removals(name, dropped), own), done + RowsOf(kept, own));
        assert Removals(name, [items[0]] + dropped) == [Removed(name, items[0])] + Removals(name, dropped);
        LoggedCons(Removed(name, items[0]), Removals(name, dropped), own);
        assert Kept(items, held, pick) == kept;
      } else {
        DeleteReplays(tables, name, done + [row], rest, held, own, pick);
        RowsOfCons(items[0], kept, own);
        Shift(done, row, RowsOf(kept, own));
        assert Dropped(items, held, pick) == dropped;
      }
    }
  }

  lemma OneDeleteReplays(tables: map<string, TxTable>, name: string, own: seq<Row>, done: seq<Row>, row: Row, rest: seq<Row>)
    requires name in tables
    ensures TableReplays(tables, name, own, done + ([row] + rest), [Delete(name, row)], done + rest)
  {
    var rows := done + ([row] + rest);
    RemoveFirstBag(rows, row);
    WithoutOne(done, row, rest);
    OneOpReplays(tables, name, own, rows, Delete(name, row), done + rest);
  }

  /** What one statement appends to the log replays to its effect. */
  lemma StatementStep(tx: Tx, stmt: Stmt, own: seq<Row>)
    requires MissesStmt(tx, stmt, own) && Execute(tx, stmt).ok
    ensures var tx' := Execute(tx, stmt).tx;
      exists ops :: tx'.ops == tx.ops + ops && ReplaysAs(View(tx.tables, own), tx'.tables, ops, own)
  {
    var tx' := Execute(tx, stmt).tx;
    match stmt
    case CreateTableStmt(name, columns) => CreateTableReplays(tx, name, columns, own);
    case CreateIndexStmt(table, column) => CreateIndexReplays(tx, table, column, own);
    case InsertStmt(table, row) =>
      assert OwnRows(Ids(|tx.own|, 1)) == [Own(|tx.own|)];
      AppendReplays(tx, table, [row.value], [NewRow(table, |tx.own|)], own);
    case InsertManyStmt(table, rows) => AppendReplays(tx, table, rows.value, [NewRows(table, Ids(|tx.own|, |rows.value|))], own);
    case UpdateStmt(table, _, edit) =>
      var t := tx.tables[table];
      var u := UpdateItems(table, t.items, tx.own, edit);
      UpdateReplaysPast(tx.tables, table, [], t.items, tx.own, own, edit);
      OneTableReplays(tx, table, t.(items := u.items), u.changes, own);
      assert tx'.ops == tx.ops + u.changes;
    case DeleteStmt(table, pick) =>
      var t := tx.tables[table];
      var removals := Removals(table, Dropped(t.items, tx.own, pick));
      DeleteReplays(tx.tables, table, [], t.items, tx.own, own, pick);
      OneTableReplays(tx, table, t.(items := Kept(t.items, tx.own, pick)), removals, own);
      assert tx'.ops == tx.ops + removals;
  }

  lemma StatementReplaysAs(base: State, tx: Tx, stmt: Stmt, own: seq<Row>)
    requires ReplaysAs(base, tx.tables, tx.ops, own) && MissesStmt(tx, stmt, own) && Execute(tx, stmt).ok
    ensures var tx' := Execute(tx, stmt).tx; ReplaysAs(base, tx'.tables, tx'.ops, own)
  {
    hide ReplaysAs, MissesStmt;
    StatementStep(tx, stmt, own);
    var tx' := Execute(tx, stmt).tx;
    var ops :| tx'.ops == tx.ops + ops && ReplaysAs(View(tx.tables, own), tx'.tables, ops, own);
    Extends(base, tx, tx'.tables, ops, own);
  }

  lemma StatementReplays(base: State, tx: Tx, stmt: Stmt)
    requires Faithful(base, tx) && CleanStmt(tx, stmt) && Execute(tx, stmt).ok
    ensures Faithful(base, Execute(tx, stmt).tx)
  {
    hide ReplaysAs, Execute;
    var tx' := Execute(tx, stmt).tx;
    forall own: seq<Row> ensures ReplaysAs(base, tx'.tables, tx'.ops, own) {
      assert ReplaysAs(base, tx.tables, tx.ops, own);
      CleanStmtMisses(tx, stmt, own);
      StatementReplaysAs(base, tx, stmt, own);
    }
  }

  lemma OneTableReplays(tx: Tx, name: string, t': TxTable, ops: seq<TxOp>, own: seq<Row>)
    requires name in tx.tables
    requires t'.columns == tx.tables[name].columns && t'.indexes == tx.tables[name].indexes
    requires TableReplays(tx.tables, name, own, [] + RowsOf(tx.tables[name].items, own), Logged(ops, own), [] + RowsOf(t'.items, own))
    ensures ReplaysAs(View(tx.tables, own), tx.tables[name := t'], ops, own)
  {
    hide Same, ApplyAll, RowsOf;
    assert [] + RowsOf(tx.tables[name].items, own) == RowsOf(tx.tables[name].items, own);
    assert [] + RowsOf(t'.items, own) == RowsOf(t'.items, own);
    assert WithTable(tx.tables, name, own, RowsOf(tx.tables[name].items, own)) == View(tx.tables, own);
    assert WithTable(tx.tables, name, own, RowsOf(t'.items, own)) == View(tx.tables[name := t'], own);
  }

  lemma CreateTableReplays(tx: Tx, name: string, columns: seq<Column>, own: seq<Row>)
    requires name !in tx.tables
    ensures ReplaysAs(View(tx.tables, own), tx.tables[name := TxTable(columns, [], {})], [NewTable(name, columns)], own)
  {
    var ops := [NewTable(name, columns)];
    assert Logged(ops, own) == [CreateTable(name, columns)];
    assert ApplyAll(View(tx.tables, own), Logged(ops, own)) == ApplyOp(View(tx.tables, own), CreateTable(name, columns));
    assert RowsOf([], own) == [];
  }

  lemma CreateIndexReplays(tx: Tx, table: string, column: string, own: seq<Row>)
    requires table in tx.tables
    ensures var t := tx.tables[table];
      ReplaysAs(View(tx.tables, own), tx.tables[table := t.(indexes := t.indexes + {column})], [NewIndex(table, column)], own)
  {
    var ops := [NewIndex(table, column)];
    assert Logged(ops, own) == [CreateIndex(table, column)];
    assert ApplyAll(View(tx.tables, own), Logged(ops, own)) == ApplyOp(View(tx.tables, own), CreateIndex(table, column));
  }

  /** INSERT, one row or many: the log names the very objects the table gained. */
  lemma AppendReplays(tx: Tx, table: string, rows: seq<Row>, ops: seq<TxOp>, own: seq<Row>)
    requires table in tx.tables
    requires ops == [NewRows(table, Ids(|tx.own|, |rows|))] || (|rows| == 1 && ops == [NewRow(table, |tx.own|)])
    ensures var t := tx.tables[table];
      ReplaysAs(View(tx.tables, own), tx.tables[table := t.(items := t.items + OwnRows(Ids(|tx.own|, |rows|)))], ops, own)
  {
    var t := tx.tables[table];
    var items := OwnRows(Ids(|tx.own|, |rows|));
    assert RowsOf(t.items + items, own) == RowsOf(t.items, own) + RowsOf(items, own);
    assert |rows| == 1 ==> RowsOf(items, own) == [RowOf(Own(|tx.own|), own)];
    assert Logged(ops, own) == [Resolved(ops[0], own)];
    assert ApplyAll(View(tx.tables, own), Logged(ops, own)) == ApplyOp(View(tx.tables, own), Resolved(ops[0], own));
  }

  lemma {:induction false} MissingRunReplays(base: State, tx: Tx, stmts: seq<Stmt>, own: seq<Row>)
    requires ReplaysAs(base, tx.tables, tx.ops, own) && Misses(tx, stmts, own)
    ensures var tx' := ExecuteAll(tx, stmts); ReplaysAs(base, tx'.tables, tx'.ops, own)
    decreases |stmts|
  {
    if stmts != [] {
      hide ReplaysAs, MissesStmt, Execute;
      StatementReplaysAs(base, tx, stmts[0], own);
      MissingRunReplays(base, Execute(tx, stmts[0]).tx, stmts[1..], own);
    }
  }

  lemma {:induction false} CleanRunFaithful(base: State, tx: Tx, stmts: seq<Stmt>)
    requires Faithful(base, tx) && Clean(tx, stmts)
    ensures Faithful(base, ExecuteAll(tx, stmts))
    decreases |stmts|
  {
    if stmts != [] {
      StatementReplays(base, tx, stmts[0]);
      CleanRunFaithful(base, Execute(tx, stmts[0]).tx, stmts[1..]);
    }
  }

  /** Replaying what a transaction logged gives, table by table, its columns, its indexes and its bag of rows,
      duplicates included, if no statement failed and every change to a row it inserted misses: with the own rows
      as they are in the end, no row then in the table equals the change's old value. */
  lemma ReplayMatchesWhereOwnChangesMiss(state: State, stmts: seq<Stmt>)
    requires Misses(Begin(state), stmts, ExecuteAll(Begin(state), stmts).own)
    ensures var tx := ExecuteAll(Begin(state), stmts);
      var r := ApplyAll(state, Logged(tx.ops, tx.own));
      r.Some? && Same(r.value, View(tx.tables, tx.own))
  {
    var own := ExecuteAll(Begin(state), stmts).own;
    BeginReplays(state, own);
    MissingRunReplays(state, Begin(state), stmts, own);
  }

  /** A clean transaction in particular. */
  lemma ReplayMatchesTransaction(state: State, stmts: seq<Stmt>)
    requires Clean(Begin(state), stmts)
    ensures var tx := ExecuteAll(Begin(state), stmts);
      var r := ApplyAll(state, Logged(tx.ops, tx.own));
      r.Some? && Same(r.value, View(tx.tables, tx.own))
  {
    CleanMisses(Begin(state), stmts, ExecuteAll(Begin(state), stmts).own);
    ReplayMatchesWhereOwnChangesMiss(state, stmts);
  }

  // ---------------------------------------------------------------- an UPDATE in parts

  function Joined(u: Updated, v: Updated): Updated {
    Updated(u.items + v.items, v.own, u.changes + v.changes, v.ok)
  }

  function Prefixed(item: Item, changes: seq<TxOp>, u: Updated): Updated {
    u.(items := [item] + u.items, changes := changes + u.changes)
  }

  lemma JoinedPrefixed(item: Item, changes: seq<TxOp>, u: Updated, v: Updated)
    ensures Joined(Prefixed(item, changes, u), v) == Prefixed(item, changes, Joined(u, v))
  {
    assert ([item] + u.items) + v.items == [item] + (u.items + v.items);
    assert (changes + u.changes) + v.changes == changes + (u.changes + v.changes);
  }

  lemma UpdateOne(table: string, items: seq<Item>, own: seq<Row>, edit: Row -> Edit)
    requires items != [] && !edit(RowOf(items[0], own)).Fail?
    ensures var row := RowOf(items[0], own);
      UpdateItems(table, items, own, edit) ==
        if edit(row).Change? then
          var put := PutRow(items[0], own, edit(row).after);
          Prefixed(put.0, [Changed(table, row, edit(row).after)], UpdateItems(table, items[1..], put.1, edit))
        else Prefixed(items[0], [], UpdateItems(table, items[1..], own, edit))
  {
    var rest := UpdateItems(table, items[1..], own, edit);
    assert [] + rest.changes == rest.changes;
  }

  lemma {:induction false} UpdateSplits(table: string, x: seq<Item>, y: seq<Item>, own: seq<Row>, edit: Row -> Edit)
    requires UpdateItems(table, x, own, edit).ok
    ensures var u := UpdateItems(table, x, own, edit);
      UpdateItems(table, x + y, own, edit) == Joined(u, UpdateItems(table, y, u.own, edit))
    decreases |x|
  {
    if x == [] {
      assert x + y == y;
      assert Joined(Updated([], own, [], true), UpdateItems(table, y, own, edit)) == UpdateItems(table, y, own, edit);
    } else {
      var row := RowOf(x[0], own);
      var put := if edit(row).Change? then PutRow(x[0], own, edit(row).after) else (x[0], own);
      var item, own' := put.0, put.1;
      var changes := if edit(row).Change? then [Changed(table, row, edit(row).after)] else [];
      assert (x + y)[0] == x[0] && (x + y)[1..] == x[1..] + y;
      UpdateOne(table, x, own, edit);
      UpdateOne(table, x + y, own, edit);
      var u := UpdateItems(table, x[1..], own', edit);
      hide UpdateItems, Joined;
      UpdateSplits(table, x[1..], y, own', edit);
      JoinedPrefixed(item, changes, u, UpdateItems(table, y, u.own, edit));
    }
  }

  lemma {:induction false} NothingToUpdate(table: string, items: seq<Item>, own: seq<Row>, edit: Row -> Edit)
    requires forall item | item in items :: edit(RowOf(item, own)) == Keep
    ensures UpdateItems(table, items, own, edit) == Updated(items, own, [], true)
  {
    if items != [] { NothingToUpdate(table, items[1..], own, edit); }
  }

  lemma SameBack(a: State, b: State)
    requires Same(a, b)
    ensures Same(b, a)
  {
  }

  // ---------------------------------------------------------------- one more row

  lemma {:induction false} KeptSplits(x: seq<Item>, y: seq<Item>, own: seq<Row>, pick: Row -> Option<bool>)
    ensures Kept(x + y, own, pick) == Kept(x, own, pick) + Kept(y, own, pick)
    ensures Dropped(x + y, own, pick) == Dropped(x, own, pick) + Dropped(y, own, pick)
  {
    if x == [] {
      assert x + y == y;
    } else {
      assert (x + y)[0] == x[0] && (x + y)[1..] == x[1..] + y;
      KeptSplits(x[1..], y, own, pick);
      var k, d := Kept(x[1..], own, pick), Dropped(x[1..], own, pick);
      var k', d' := Kept(y, own, pick), Dropped(y, own, pick);
      hide Kept, Dropped;
      assert ([x[0]] + k) + k' == [x[0]] + (k + k') && [] + (k + k') == k + k' && [] + k == k;
      assert ([x[0]] + d) + d' == [x[0]] + (d + d') && [] + (d + d') == d + d' && [] + d == d;
    }
  }

  lemma KeptOneMore(items: seq<Item>, i: nat, own: seq<Row>, pick: Row -> Option<bool>)
    requires i < |items|
    ensures var picked := pick(RowOf(items[i], own)) == Some(true);
      && Kept(items[..i + 1], own, pick) == Kept(items[..i], own, pick) + (if picked then [] else [items[i]])
      && Dropped(items[..i + 1], own, pick) == Dropped(items[..i], own, pick) + (if picked then [items[i]] else [])
  {
    KeptSplits(items[..i], [items[i]], own, pick);
    assert items[..i] + [items[i]] == items[..i + 1];
    assert Kept([items[i]][1..], own, pick) == [] && Dropped([items[i]][1..], own, pick) == [];
  }

  /** One more row of an UPDATE that has gone well so far. */
  lemma UpdateOneMore(table: string, items: seq<Item>, i: nat, held: seq<Row>, edit: Row -> Edit, u: Updated)
    requires i < |items| && UpdateItems(table, items[..i], held, edit) == u && u.ok
    requires !edit(RowOf(items[i], u.own)).Fail?
    ensures var row := RowOf(items[i], u.own);
      UpdateItems(table, items[..i + 1], held, edit) ==
        if edit(row).Change? then
          var put := PutRow(items[i], u.own, edit(row).after);
          Updated(u.items + [put.0], put.1, u.changes + [Changed(table, row, edit(row).after)], true)
        else u.(items := u.items + [items[i]])
  {
    var item := items[i];
    assert items[..i] + [item] == items[..i + 1];
    UpdateSplits(table, items[..i], [item], held, edit);
    UpdateOne(table, [item], u.own, edit);
    assert UpdateItems(table, [item][1..], u.own, edit) == Updated([], u.own, [], true);
    hide UpdateItems;
    assert u.changes + [] == u.changes;
  }

  /** The row at which an UPDATE raises. */
  lemma UpdateStops(table: string, items: seq<Item>, i: nat, held: seq<Row>, edit: Row -> Edit, u: Updated)
    requires i < |items| && UpdateItems(table, items[..i], held, edit) == u && u.ok
    requires edit(RowOf(items[i], u.own)).Fail?
    ensures var put := PutRow(items[i], u.own, edit(RowOf(items[i], u.own)).partial);
      UpdateItems(table, items, held, edit) == Updated(u.items + ([put.0] + items[i + 1..]), put.1, u.changes, false)
  {
    var tail := [items[i]] + items[i + 1..];
    assert items[..i] + tail == items && tail[1..] == items[i + 1..];
    UpdateSplits(table, items[..i], tail, held, edit);
    assert u.changes + [] == u.changes;
  }
}
