/** Tables, logged operations and their replay by value (novadb/engine.py, _apply_operations). */
module Tables {

  /** Column values; a JSON document stands as its canonical text. */
  datatype Value = Null | Bool(truth: bool) | Int(n: int) | Float(x: real) | Text(text: string) | Json(document: string)

  datatype Option<T> = None | Some(value: T)

  type Row = map<string, Value>

  datatype Column = Column(name: string, kind: string, primaryKey: bool, notNull: bool)

  datatype Table = Table(columns: seq<Column>, rows: seq<Row>, indexes: set<string>)

  type State = map<string, Table>

  /** A record of the log, as it reads back from disk: every row is a value. */
  datatype LogOp =
    | CreateTable(name: string, columns: seq<Column>)
    | CreateIndex(table: string, column: string)
    | Insert(table: string, row: Row)
    | InsertMany(table: string, rows: seq<Row>)
    | Update(table: string, before: Row, after: Row)
    | Delete(table: string, row: Row)

  /** The position of the first row equal to `row`, or the length. */
  function FirstEqual(rows: seq<Row>, row: Row): (i: nat)
    ensures i <= |rows|
    ensures i < |rows| ==> rows[i] == row
    ensures row !in rows[..i]
  {
    if rows == [] || rows[0] == row then 0 else 1 + FirstEqual(rows[1..], row)
  }

  function ReplaceFirst(rows: seq<Row>, before: Row, after: Row): seq<Row> {
    var i := FirstEqual(rows, before);
    if i < |rows| then rows[i := after] else rows
  }

  function RemoveFirst(rows: seq<Row>, row: Row): seq<Row> {
    var i := FirstEqual(rows, row);
    if i < |rows| then rows[..i] + rows[i + 1..] else rows
  }

  function ApplyToTable(table: Table, op: LogOp): Table
    requires !op.CreateTable?
  {
    match op
    case CreateIndex(_, column) => table.(indexes := table.indexes + {column})
    case Insert(_, row) => table.(rows := table.rows + [row])
    case InsertMany(_, rows) => table.(rows := table.rows + rows)
    case Update(_, before, after) => table.(rows := ReplaceFirst(table.rows, before, after))
    case Delete(_, row) => table.(rows := RemoveFirst(table.rows, row))
  }

  /** Replay of one operation; None is the KeyError of a missing table. */
  function ApplyOp(state: State, op: LogOp): Option<State> {
    if op.CreateTable? then Some(state[op.name := Table(op.columns, [], {})])
    else if op.table !in state then None
    else Some(state[op.table := ApplyToTable(state[op.table], op)])
  }

  function ApplyAll(state: State, ops: seq<LogOp>): Option<State>
    decreases |ops|
  {
    if ops == [] then Some(state)
    else
      match ApplyOp(state, ops[0])
      case None => None
      case Some(next) => ApplyAll(next, ops[1..])
  }

  // ---------------------------------------------------------------- equality up to row order

  ghost predicate SameTable(a: Table, b: Table) {
    a.columns == b.columns && a.indexes == b.indexes && multiset(a.rows) == multiset(b.rows)
  }

  ghost predicate Same(a: State, b: State) {
    a.Keys == b.Keys && forall name | name in a :: SameTable(a[name], b[name])
  }

  ghost predicate SameResult(a: Option<State>, b: Option<State>) {
    if a.Some? && b.Some? then Same(a.value, b.value) else a == b
  }

  /** The bag of rows after a replacement or a removal depends on the bag alone. */
  function BagReplaced(bag: multiset<Row>, before: Row, after: Row): multiset<Row> {
    if before in bag then bag - multiset{before} + multiset{after} else bag
  }

  lemma ReplaceFirstBag(rows: seq<Row>, before: Row, after: Row)
    ensures multiset(ReplaceFirst(rows, before, after)) == BagReplaced(multiset(rows), before, after)
  {
  }

  lemma WithoutOne(a: seq<Row>, row: Row, b: seq<Row>)
    ensures multiset(a + ([row] + b)) - multiset{row} == multiset(a + b)
  {
  }

  lemma RemoveFirstBag(rows: seq<Row>, row: Row)
    ensures multiset(RemoveFirst(rows, row)) == multiset(rows) - multiset{row}
  {
    var i := FirstEqual(rows, row);
    if i < |rows| {
      var a, b := rows[..i], rows[i + 1..];
      assert rows == a + ([row] + b);
      hide FirstEqual;
      WithoutOne(a, row, b);
    } else {
      WithoutNone(rows, row);
    }
  }

  lemma WithoutNone(rows: seq<Row>, row: Row)
    requires row !in rows
    ensures multiset(rows) - multiset{row} == multiset(rows)
  {
    assert row !in multiset(rows);
  }

  lemma ApplyToTableRespectsBags(a: Table, b: Table, op: LogOp)
    requires !op.CreateTable? && SameTable(a, b)
    ensures SameTable(ApplyToTable(a, op), ApplyToTable(b, op))
  {
    match op
    case Update(_, before, after) =>
      ReplaceFirstBag(a.rows, before, after);
      ReplaceFirstBag(b.rows, before, after);
    case Delete(_, row) =>
      RemoveFirstBag(a.rows, row);
      RemoveFirstBag(b.rows, row);
    case _ =>
  }

  /** Replay on two states that differ in row order only gives results that differ in row order only. */
  lemma {:induction false} ReplayRespectsBags(a: State, b: State, ops: seq<LogOp>)
    requires Same(a, b)
    ensures SameResult(ApplyAll(a, ops), ApplyAll(b, ops))
    decreases |ops|
  {
    if ops != [] && ApplyOp(a, ops[0]).Some? {
      if !ops[0].CreateTable? {
        ApplyToTableRespectsBags(a[ops[0].table], b[ops[0].table], ops[0]);
      }
      ReplayRespectsBags(ApplyOp(a, ops[0]).value, ApplyOp(b, ops[0]).value, ops[1..]);
    }
  }

  lemma {:induction false} ReplaySplits(state: State, first: seq<LogOp>, second: seq<LogOp>)
    ensures ApplyAll(state, first + second)
      == if ApplyAll(state, first).None? then None else ApplyAll(ApplyAll(state, first).value, second)
    decreases |first|
  {
    if first == [] {
      assert first + second == second;
    } else {
      assert (first + second)[1..] == first[1..] + second;
      if ApplyOp(state, first[0]).Some? {
        ReplaySplits(ApplyOp(state, first[0]).value, first[1..], second);
      }
    }
  }
}
