/** What a log replays to when an UPDATE changes rows that its own transaction inserted, or raises midway
    (novadb/engine.py, Transaction.update and Engine._apply_operations). */
module OwnRows {
  import opened Tables
  import opened Transactions

  /** The changes an UPDATE makes to own rows, in order: the old value and the new. */
  function OwnChanges(items: seq<Item>, held: seq<Row>, edit: Row -> Edit): seq<(Row, Row)> {
    if items == [] then []
    else
      var row := RowOf(items[0], held);
      match edit(row)
      case Keep => OwnChanges(items[1..], held, edit)
      case Change(after) =>
        (if items[0].Own? then [(row, after)] else []) + OwnChanges(items[1..], PutRow(items[0], held, after).1, edit)
      case Fail(_) => []
  }

  /** Changes made by value: each to one row that equals its old value, if there is one. */
  function Folded(bag: multiset<Row>, changes: seq<(Row, Row)>): multiset<Row>
    decreases |changes|
  {
    if changes == [] then bag else Folded(BagReplaced(bag, changes[0].0, changes[0].1), changes[1..])
  }

  /** If no row equals an old value, changes by value change nothing. */
  lemma {:induction false} MissingFolds(bag: multiset<Row>, changes: seq<(Row, Row)>)
    requires forall c | c in changes :: c.0 == c.1 || c.0 !in bag
    ensures Folded(bag, changes) == bag
    decreases |changes|
  {
    if changes != [] {
      assert changes[0] in changes;
      assert BagReplaced(bag, changes[0].0, changes[0].1) == bag;
      MissingFolds(bag, changes[1..]);
    }
  }

  // ---------------------------------------------------------------- own rows come last

  predicate OwnLast(items: seq<Item>) {
    forall i, j | 0 <= i < j < |items| && items[i].Own? :: items[j].Own?
  }

  predicate AllOwn(items: seq<Item>) {
    forall item | item in items :: item.Own?
  }

  predicate NoneOwn(items: seq<Item>) {
    forall item | item in items :: item.Base?
  }

  /** How many rows a table has that were cloned from the engine. */
  function Bases(items: seq<Item>): (n: nat)
    ensures n <= |items|
  {
    if items == [] || items[0].Own? then 0 else 1 + Bases(items[1..])
  }

  lemma {:induction false} BasesFirst(items: seq<Item>)
    requires OwnLast(items)
    ensures NoneOwn(items[..Bases(items)]) && AllOwn(items[Bases(items)..])
  {
    if items != [] && items[0].Base? {
      BasesFirst(items[1..]);
      var n := Bases(items);
      assert items[..n] == [items[0]] + items[1..][..n - 1] && items[n..] == items[1..][n - 1..];
    } else if items != [] {
      forall item | item in items ensures item.Own? {
        var j :| 0 <= j < |items| && items[j] == item;
        assert j == 0 || items[j].Own?;
      }
    }
  }

  lemma {:induction false} UpdateKeepsKinds(table: string, items: seq<Item>, held: seq<Row>, edit: Row -> Edit)
    ensures var u := UpdateItems(table, items, held, edit);
      && |u.own| == |held|
      && forall i | 0 <= i < |items| :: u.items[i].Own? == items[i].Own? && (items[i].Own? ==> u.items[i] == items[i])
    decreases |items|
  {
    if items != [] {
      match edit(RowOf(items[0], held))
      case Keep => UpdateKeepsKinds(table, items[1..], held, edit);
      case Change(after) => UpdateKeepsKinds(table, items[1..], PutRow(items[0], held, after).1, edit);
      case Fail(_) =>
    }
  }

  lemma {:induction false} KeptMember(items: seq<Item>, held: seq<Row>, pick: Row -> Option<bool>)
    ensures forall item | item in Kept(items, held, pick) :: item in items
  {
    if items != [] { KeptMember(items[1..], held, pick); }
  }

  lemma {:induction false} KeptOwnLast(items: seq<Item>, held: seq<Row>, pick: Row -> Option<bool>)
    requires OwnLast(items)
    ensures OwnLast(Kept(items, held, pick))
  {
    if items != [] {
      var rest := Kept(items[1..], held, pick);
      KeptOwnLast(items[1..], held, pick);
      if items[0].Own? {
        KeptMember(items[1..], held, pick);
        forall item | item in rest ensures item.Own? {
          var j :| 0 <= j < |items| - 1 && items[1..][j] == item;
          assert items[j + 1].Own?;
        }
      }
    }
  }

  ghost predicate TablesOwnLast(tx: Tx) {
    forall name | name in tx.tables :: OwnLast(tx.tables[name].items)
  }

  lemma StatementKeepsOwnLast(tx: Tx, stmt: Stmt)
    requires TablesOwnLast(tx)
    ensures TablesOwnLast(Execute(tx, stmt).tx)
  {
    match stmt
    case UpdateStmt(table, _, edit) =>
      if table in tx.tables { UpdateKeepsKinds(table, tx.tables[table].items, tx.own, edit); }
    case DeleteStmt(table, pick) =>
      if table in tx.tables { KeptOwnLast(tx.tables[table].items, tx.own, pick); }
    case _ =>
  }

  /** In any transaction a table's own rows come after all cloned ones. */
  lemma {:induction false} RunKeepsOwnLast(tx: Tx, stmts: seq<Stmt>)
    requires TablesOwnLast(tx)
    ensures TablesOwnLast(ExecuteAll(tx, stmts))
    decreases |stmts|
  {
    if stmts != [] {
      StatementKeepsOwnLast(tx, stmts[0]);
      RunKeepsOwnLast(Execute(tx, stmts[0]).tx, stmts[1..]);
    }
  }

  /** A table holds each own row once. */
  ghost predicate OwnOnce(items: seq<Item>, n: nat) {
    && (forall i | 0 <= i < |items| && items[i].Own? :: items[i].id < n)
    && (forall i, j | 0 <= i < j < |items| && items[i].Own? && items[j].Own? :: items[i].id != items[j].id)
  }

  ghost predicate TablesOwnOnce(tx: Tx) {
    forall name | name in tx.tables :: OwnOnce(tx.tables[name].items, |tx.own|)
  }

  lemma {:induction false} KeptOwnOnce(items: seq<Item>, held: seq<Row>, pick: Row -> Option<bool>, n: nat)
    requires OwnOnce(items, n)
    ensures OwnOnce(Kept(items, held, pick), n)
  {
    if items != [] {
      var rest := Kept(items[1..], held, pick);
      KeptOwnOnce(items[1..], held, pick, n);
      KeptMember(items[1..], held, pick);
      forall j | 0 <= j < |rest| && items[0].Own? && rest[j].Own? ensures rest[j].id != items[0].id {
        assert rest[j] in rest;
        var i :| 0 <= i < |items| - 1 && items[1..][i] == rest[j];
        assert items[i + 1] == rest[j];
      }
    }
  }

  lemma UpdateOwnOnce(table: string, items: seq<Item>, held: seq<Row>, edit: Row -> Edit)
    requires OwnOnce(items, |held|)
    ensures var u := UpdateItems(table, items, held, edit); OwnOnce(u.items, |u.own|)
  {
    UpdateKeepsKinds(table, items, held, edit);
  }

  lemma StatementKeepsOwnOnce(tx: Tx, stmt: Stmt)
    requires TablesOwnOnce(tx)
    ensures TablesOwnOnce(Execute(tx, stmt).tx)
  {
    hide Kept, Dropped, UpdateItems;
    match stmt
    case UpdateStmt(table, _, edit) =>
      if table in tx.tables {
        UpdateKeepsKinds(table, tx.tables[table].items, tx.own, edit);
        UpdateOwnOnce(table, tx.tables[table].items, tx.own, edit);
      }
    case DeleteStmt(table, pick) =>
      if table in tx.tables { KeptOwnOnce(tx.tables[table].items, tx.own, pick, |tx.own|); }
    case InsertManyStmt(table, rows) =>
      if table in tx.tables && rows.Some? { MoreOwnOnce(tx.tables[table].items, |tx.own|, |rows.value|); }
    case _ =>
  }

  lemma MoreOwnOnce(items: seq<Item>, n: nat, count: nat)
    requires OwnOnce(items, n)
    ensures OwnOnce(items + OwnRows(Ids(n, count)), n + count)
  {
  }

  /** In any transaction a table holds each own row once, so that a row assigned in place is one position. */
  lemma {:induction false} RunKeepsOwnOnce(tx: Tx, stmts: seq<Stmt>)
    requires TablesOwnOnce(tx)
    ensures TablesOwnOnce(ExecuteAll(tx, stmts))
    decreases |stmts|
  {
    if stmts != [] {
      StatementKeepsOwnOnce(tx, stmts[0]);
      RunKeepsOwnOnce(Execute(tx, stmts[0]).tx, stmts[1..]);
    }
  }

  /** Assigning to one row of a table. */
  lemma RowAssigned(items: seq<Item>, i: nat, done: seq<Item>, own: seq<Row>, row: Row)
    requires OwnOnce(items, |own|) && |done| == i < |items|
    requires forall j | 0 <= j < i :: done[j].Own? == items[j].Own? && (items[j].Own? ==> done[j] == items[j])
    ensures var put := PutRow(items[i], own, row);
      RowsOf(done + [put.0] + items[i + 1..], put.1) == RowsOf(done + items[i..], own)[i := row]
  {
    var put := PutRow(items[i], own, row);
    var x, y := done + [put.0] + items[i + 1..], done + items[i..];
    forall j | 0 <= j < |items| ensures RowsOf(x, put.1)[j] == RowsOf(y, own)[i := row][j] {
      assert j < i ==> x[j] == y[j] == done[j];
      assert j > i ==> x[j] == y[j] == items[j];
    }
  }

  // ---------------------------------------------------------------- the last UPDATE

  function Updates(table: string, changes: seq<(Row, Row)>): seq<LogOp> {
    if changes == [] then [] else [Update(table, changes[0].0, changes[0].1)] + Updates(table, changes[1..])
  }

  function ChangeOps(table: string, changes: seq<(Row, Row)>): seq<TxOp> {
    if changes == [] then [] else [Changed(table, changes[0].0, changes[0].1)] + ChangeOps(table, changes[1..])
  }

  lemma {:induction false} ChangeOpsLogged(table: string, changes: seq<(Row, Row)>, own: seq<Row>)
    ensures Logged(ChangeOps(table, changes), own) == Updates(table, changes)
  {
    if changes != [] {
      ChangeOpsLogged(table, changes[1..], own);
      LoggedCons(Changed(table, changes[0].0, changes[0].1), ChangeOps(table, changes[1..]), own);
    }
  }

  /** On own rows an UPDATE leaves the table's list as it is, and logs each change. */
  lemma {:induction false} OwnUpdate(table: string, items: seq<Item>, held: seq<Row>, edit: Row -> Edit)
    requires AllOwn(items) && UpdateItems(table, items, held, edit).ok
    ensures var u := UpdateItems(table, items, held, edit);
      u.items == items && u.changes == ChangeOps(table, OwnChanges(items, held, edit))
    decreases |items|
  {
    if items != [] {
      assert items[0] in items && items == [items[0]] + items[1..];
      var row := RowOf(items[0], held);
      if edit(row).Change? {
        OwnUpdate(table, items[1..], PutRow(items[0], held, edit(row).after).1, edit);
        var more := OwnChanges(items[1..], PutRow(items[0], held, edit(row).after).1, edit);
        assert ([(row, edit(row).after)] + more)[1..] == more;
      } else {
        OwnUpdate(table, items[1..], held, edit);
      }
    }
  }

  /** Only the rows of one table differ, and they are this bag. */
  ghost predicate OnlyRows(state: State, r: State, table: string, bag: multiset<Row>)
    requires table in state
  {
    && table in r && r == state[table := r[table]] && multiset(r[table].rows) == bag
    && r[table].columns == state[table].columns && r[table].indexes == state[table].indexes
  }

  /** Replaying changes folds them over the bag of the table's rows, and touches nothing else. */
  lemma {:induction false} UpdatesFold(state: State, table: string, changes: seq<(Row, Row)>)
    requires table in state
    ensures var r := ApplyAll(state, Updates(table, changes));
      r.Some? && OnlyRows(state, r.value, table, Folded(multiset(state[table].rows), changes))
    decreases |changes|
  {
    if changes == [] {
      assert state[table := state[table]] == state;
    } else {
      var rest := changes[1..];
      var next := ApplyOp(state, Update(table, changes[0].0, changes[0].1)).value;
      OneFold(state, table, changes[0]);
      hide ApplyOp, BagReplaced, OnlyRows;
      OnlyRowsOf(state, next, table);
      assert Updates(table, changes)[1..] == Updates(table, rest);
      UpdatesFold(next, table, rest);
      OnlyRowsTwice(state, next, ApplyAll(next, Updates(table, rest)).value, table, Folded(multiset(state[table].rows), changes));
    }
  }

  lemma OnlyRowsOf(state: State, r: State, table: string)
    requires table in state && exists bag :: OnlyRows(state, r, table, bag)
    ensures table in r && OnlyRows(state, r, table, multiset(r[table].rows))
    ensures forall bag :: OnlyRows(state, r, table, bag) ==> multiset(r[table].rows) == bag
  {
  }

  lemma OnlyRowsTwice(state: State, next: State, last: State, table: string, bag: multiset<Row>)
    requires table in state && table in next
    requires OnlyRows(state, next, table, multiset(next[table].rows)) && OnlyRows(next, last, table, bag)
    ensures OnlyRows(state, last, table, bag)
  {
    assert next[table := last[table]] == state[table := last[table]];
  }

  lemma OneFold(state: State, table: string, change: (Row, Row))
    requires table in state
    ensures var r := ApplyOp(state, Update(table, change.0, change.1));
      r.Some? && OnlyRows(state, r.value, table, BagReplaced(multiset(state[table].rows), change.0, change.1))
  {
    ReplaceFirstBag(state[table].rows, change.0, change.1);
  }

  /** Replaying changes on a state leaves it as some view sees it exactly when folding them changes nothing. */
  lemma FoldShows(middle: State, view: State, table: string, changes: seq<(Row, Row)>)
    requires table in middle && table in view && Same(middle, view)
    ensures var r := ApplyAll(middle, Updates(table, changes));
      r.Some? && (Same(r.value, view) <==> Folded(multiset(view[table].rows), changes) == multiset(view[table].rows))
  {
    UpdatesFold(middle, table, changes);
    hide ApplyAll, Updates, Folded;
    var r := ApplyAll(middle, Updates(table, changes)).value;
    assert SameTable(middle[table], view[table]);
    OneTableSame(middle, r, view, table);
  }

  lemma OneTableSame(middle: State, r: State, view: State, table: string)
    requires table in middle && table in view && table in r && Same(middle, view) && r == middle[table := r[table]]
    requires r[table].columns == middle[table].columns && r[table].indexes == middle[table].indexes
    ensures Same(r, view) <==> multiset(r[table].rows) == multiset(view[table].rows)
  {
    if multiset(r[table].rows) == multiset(view[table].rows) {
      forall name | name in r ensures SameTable(r[name], view[name]) {
        assert SameTable(middle[name], view[name]);
      }
    } else {
      assert !SameTable(r[table], view[table]);
    }
  }

  /** The rows before `tail`, none of them an own row that changes, are updated as the log says. */
  lemma ReplayToOwnRows(base: State, tx: Tx, table: string, before: seq<Item>, tail: seq<Item>, edit: Row -> Edit, own': seq<Row>)
    requires ReplaysAs(base, tx.tables, tx.ops, own') && table in tx.tables && tx.tables[table].items == before + tail
    requires LeavesOwnRows(before, tx.own, edit) && UpdateItems(table, before, tx.own, edit).ok
    ensures var u := UpdateItems(table, before, tx.own, edit);
      ReplaysAs(base, tx.tables[table := tx.tables[table].(items := u.items + tail)], tx.ops + u.changes, own')
  {
    var u := UpdateItems(table, before, tx.own, edit);
    UpdateReplays(tx.tables, table, RowsOf(tail, own'), before, tx.own, own', edit);
    ReorderReplays(tx, table, before, u.items, tail, u.changes, own');
    Extends(base, tx, tx.tables[table := tx.tables[table].(items := u.items + tail)], u.changes, own');
  }

  lemma ReorderReplays(tx: Tx, table: string, first: seq<Item>, first': seq<Item>, tail: seq<Item>, ops: seq<TxOp>, own: seq<Row>)
    requires table in tx.tables && tx.tables[table].items == first + tail
    requires TableReplays(tx.tables, table, own, RowsOf(tail, own) + RowsOf(first, own), Logged(ops, own), RowsOf(tail, own) + RowsOf(first', own))
    ensures ReplaysAs(View(tx.tables, own), tx.tables[table := tx.tables[table].(items := first' + tail)], ops, own)
  {
    hide ApplyAll, Same, RowsOf, Logged;
    var start := WithTable(tx.tables, table, own, RowsOf(tail, own) + RowsOf(first, own));
    var end := WithTable(tx.tables, table, own, RowsOf(tail, own) + RowsOf(first', own));
    var log := Logged(ops, own);
    SplitView(tx, table, first, tail, own);
    SplitView(tx, table, first', tail, own);
    assert tx.tables[table := tx.tables[table].(items := first + tail)] == tx.tables;
    ReplayRespectsBags(View(tx.tables, own), start, log);
    FromResults(View(tx.tables, own), start, log);
    SameTrans(ApplyAll(View(tx.tables, own), log).value, ApplyAll(start, log).value, end);
    SameTrans(ApplyAll(View(tx.tables, own), log).value, end, View(tx.tables[table := tx.tables[table].(items := first' + tail)], own));
  }

  lemma FromResults(a: State, b: State, log: seq<LogOp>)
    requires SameResult(ApplyAll(a, log), ApplyAll(b, log)) && ApplyAll(b, log).Some?
    ensures ApplyAll(a, log).Some? && Same(ApplyAll(a, log).value, ApplyAll(b, log).value)
  {
  }

  lemma SplitView(tx: Tx, table: string, first: seq<Item>, tail: seq<Item>, own: seq<Row>)
    requires table in tx.tables
    ensures var tables' := tx.tables[table := tx.tables[table].(items := first + tail)];
      var split := WithTable(tx.tables, table, own, RowsOf(tail, own) + RowsOf(first, own));
      Same(View(tables', own), split) && Same(split, View(tables', own))
  {
    assert RowsOf(first + tail, own) == RowsOf(first, own) + RowsOf(tail, own);
  }

  /** A log that replays, and an UPDATE after it that changes own rows, any number of them: the log still replays
      exactly when folding those changes, by value, over the rows the table has in the end leaves them as they are. */
  lemma OwnUpdatesReplayIff(base: State, tx: Tx, table: string, before: seq<Item>, tail: seq<Item>, edit: Row -> Edit)
    requires table in tx.tables && tx.tables[table].items == before + tail
    requires LeavesOwnRows(before, tx.own, edit) && AllOwn(tail)
    requires UpdateItems(table, before, tx.own, edit).ok && UpdateItems(table, tail, tx.own, edit).ok
    requires ReplaysAs(base, tx.tables, tx.ops, UpdateItems(table, tail, tx.own, edit).own)
    ensures var tx' := Execute(tx, UpdateStmt(table, true, edit)).tx;
      && table in tx'.tables
      && var rows := multiset(RowsOf(tx'.tables[table].items, tx'.own));
         ReplaysAs(base, tx'.tables, tx'.ops, tx'.own) <==> Folded(rows, OwnChanges(tail, tx.own, edit)) == rows
  {
    hide *;
    var u := UpdateItems(table, before, tx.own, edit);
    var own', changes := UpdateItems(table, tail, tx.own, edit).own, OwnChanges(tail, tx.own, edit);
    var tables' := tx.tables[table := tx.tables[table].(items := u.items + tail)];
    LateUpdate(tx, table, before, tail, edit);
    ReplayToOwnRows(base, tx, table, before, tail, edit, own');
    LastChanges(base, tables', table, tx.ops + u.changes, own', changes);
    OpsAssoc(tx.ops, u.changes, ChangeOps(table, changes));
  }

  lemma OpsAssoc(a: seq<TxOp>, b: seq<TxOp>, c: seq<TxOp>)
    ensures (a + b) + c == a + (b + c)
  {
  }

  lemma LateUpdate(tx: Tx, table: string, before: seq<Item>, tail: seq<Item>, edit: Row -> Edit)
    requires table in tx.tables && tx.tables[table].items == before + tail
    requires LeavesOwnRows(before, tx.own, edit) && AllOwn(tail)
    requires UpdateItems(table, before, tx.own, edit).ok && UpdateItems(table, tail, tx.own, edit).ok
    ensures var u := UpdateItems(table, before, tx.own, edit);
      Execute(tx, UpdateStmt(table, true, edit)).tx
      == Tx(tx.tables[table := tx.tables[table].(items := u.items + tail)], UpdateItems(table, tail, tx.own, edit).own,
            tx.ops + (u.changes + ChangeOps(table, OwnChanges(tail, tx.own, edit))))
  {
    hide UpdateItems, OwnChanges, ChangeOps, AllOwn;
    UpdateSplits(table, before, tail, tx.own, edit);
    LeavingHolds(table, before, tx.own, edit);
    OwnUpdate(table, tail, tx.own, edit);
  }

  lemma LastChanges(base: State, tables: map<string, TxTable>, table: string, ops: seq<TxOp>, own: seq<Row>, changes: seq<(Row, Row)>)
    requires table in tables && ReplaysAs(base, tables, ops, own)
    ensures var rows := multiset(RowsOf(tables[table].items, own));
      ReplaysAs(base, tables, ops + ChangeOps(table, changes), own) <==> Folded(rows, changes) == rows
  {
    hide ApplyAll, Same, RowsOf;
    var more := ChangeOps(table, changes);
    assert Logged(ops + more, own) == Logged(ops, own) + Logged(more, own);
    ReplaySplits(base, Logged(ops, own), Logged(more, own));
    ChangeOpsLogged(table, changes, own);
    HasTable(ApplyAll(base, Logged(ops, own)).value, View(tables, own), table);
    FoldShows(ApplyAll(base, Logged(ops, own)).value, View(tables, own), table, changes);
  }

  lemma HasTable(a: State, b: State, table: string)
    requires Same(a, b) && table in b
    ensures table in a
  {
  }

  /** A clean transaction, then an UPDATE that may change any of the rows it inserted: its log replays to what it
      commits exactly when folding those changes over the final rows leaves them as they are. */
  lemma LastUpdateReplaysIff(state: State, stmts: seq<Stmt>, table: string, edit: Row -> Edit)
    requires Clean(Begin(state), stmts)
    requires var tx := ExecuteAll(Begin(state), stmts); table in tx.tables && UpdateItems(table, tx.tables[table].items, tx.own, edit).ok
    ensures var tx := ExecuteAll(Begin(state), stmts);
      var tx' := Execute(tx, UpdateStmt(table, true, edit)).tx;
      && table in tx'.tables
      && var rows := multiset(RowsOf(tx'.tables[table].items, tx'.own));
         var changes := OwnChanges(tx.tables[table].items, tx.own, edit);
         ReplaysAs(state, tx'.tables, tx'.ops, tx'.own) <==> Folded(rows, changes) == rows
  {
    hide ReplaysAs, Execute, Faithful, Folded;
    var tx := ExecuteAll(Begin(state), stmts);
    var items := tx.tables[table].items;
    RunKeepsOwnLast(Begin(state), stmts);
    BasesFirst(items);
    var before, tail := items[..Bases(items)], items[Bases(items)..];
    assert items == before + tail;
    PrefixOk(table, before, tail, tx.own, edit);
    UpdateSplits(table, before, tail, tx.own, edit);
    LeavingHolds(table, before, tx.own, edit);
    OwnChangesSplit(table, before, tail, tx.own, edit);
    var own' := UpdateItems(table, tail, tx.own, edit).own;
    CleanMisses(Begin(state), stmts, own');
    BeginReplays(state, own');
    MissingRunReplays(state, Begin(state), stmts, own');
    OwnUpdatesReplayIff(state, tx, table, before, tail, edit);
  }

  lemma {:induction false} PrefixOk(table: string, x: seq<Item>, y: seq<Item>, held: seq<Row>, edit: Row -> Edit)
    requires UpdateItems(table, x + y, held, edit).ok
    ensures UpdateItems(table, x, held, edit).ok
    decreases |x|
  {
    if x != [] {
      assert (x + y)[0] == x[0] && (x + y)[1..] == x[1..] + y;
      var row := RowOf(x[0], held);
      PrefixOk(table, x[1..], y, if edit(row).Change? then PutRow(x[0], held, edit(row).after).1 else held, edit);
    }
  }

  lemma {:induction false} OwnChangesSplit(table: string, before: seq<Item>, tail: seq<Item>, held: seq<Row>, edit: Row -> Edit)
    requires NoneOwn(before) && UpdateItems(table, before, held, edit).ok
    ensures OwnChanges(before + tail, held, edit) == OwnChanges(tail, held, edit)
    decreases |before|
  {
    if before == [] {
      assert before + tail == tail;
    } else {
      assert before[0] in before && (before + tail)[0] == before[0] && (before + tail)[1..] == before[1..] + tail;
      OwnChangesSplit(table, before[1..], tail, held, edit);
    }
  }

  // ---------------------------------------------------------------- one own row

  /** After an UPDATE that leaves own rows alone, a row that the UPDATE would change again is a base row
      that it changed into it. */
  lemma {:induction false} UpdatedInto(table: string, items: seq<Item>, own: seq<Row>, own': seq<Row>, edit: Row -> Edit, row: Row)
    requires LeavesOwnRows(items, own, edit) && UpdateItems(table, items, own, edit).ok
    requires edit(row) != Keep && forall item | item in items && item.Own? :: RowOf(item, own') == RowOf(item, own)
    ensures row in RowsOf(UpdateItems(table, items, own, edit).items, own')
      <==> exists item :: item in items && item.Base? && edit(item.row) == Change(row)
  {
    if items != [] {
      var u := UpdateItems(table, items, own, edit);
      var item, rest := items[0], items[1..];
      assert items == [item] + rest && LeavesOwnRows(rest, own, edit);
      UpdatedInto(table, rest, own, own', edit, row);
      RowsOfCons(u.items[0], u.items[1..], own');
      assert u.items == [u.items[0]] + u.items[1..];
    }
  }

  /** If the UPDATE changes one own row, from `b` to `a`: exactly when it turns no other row into `b`. */
  lemma OneOwnUpdateReplaysIff(base: State, tx: Tx, table: string, before: seq<Item>, id: nat, after: seq<Item>, edit: Row -> Edit, a: Row)
    requires Faithful(base, tx) && table in tx.tables && tx.tables[table].items == before + ([Own(id)] + after)
    requires id < |tx.own| && edit(tx.own[id]) == Change(a) && tx.own[id] != a
    requires Own(id) !in before && Own(id) !in after && (forall item | item in after :: item.Own?)
    requires LeavesOwnRows(before, tx.own, edit) && LeavesOwnRows(after, tx.own, edit)
    requires UpdateItems(table, before, tx.own, edit).ok
    ensures var tx' := Execute(tx, UpdateStmt(table, true, edit)).tx;
      ReplaysAs(base, tx'.tables, tx'.ops, tx'.own)
      <==> !(exists item :: item in before && item.Base? && edit(item.row) == Change(tx.own[id]))
  {
    hide *;
    var own' := tx.own[id := a];
    var tail := [Own(id)] + after;
    var u := UpdateItems(table, before, tx.own, edit);
    LateItems(table, tx.own, id, after, edit, a);
    FaithfulAt(base, tx, own');
    TailOwn(id, after);
    OwnUpdatesReplayIff(base, tx, table, before, tail, edit);
    LateUpdate(tx, table, before, tail, edit);
    OneOwnChange(id, after, tx.own, edit, a);
    OneFolded(RowsOf(u.items + tail, own'), tx.own[id], a);
    OneOwnRows(table, before, id, after, tx.own, edit, a);
  }

  lemma FaithfulAt(base: State, tx: Tx, own: seq<Row>)
    requires Faithful(base, tx)
    ensures ReplaysAs(base, tx.tables, tx.ops, own)
  {
  }

  lemma TailOwn(id: nat, after: seq<Item>)
    requires forall item | item in after :: item.Own?
    ensures AllOwn([Own(id)] + after)
  {
  }

  /** Where the old value occurs in the end. */
  lemma OneOwnRows(table: string, before: seq<Item>, id: nat, after: seq<Item>, own: seq<Row>, edit: Row -> Edit, a: Row)
    requires id < |own| && edit(own[id]) == Change(a) && own[id] != a
    requires Own(id) !in before && Own(id) !in after && (forall item | item in after :: item.Own?)
    requires LeavesOwnRows(before, own, edit) && LeavesOwnRows(after, own, edit)
    requires UpdateItems(table, before, own, edit).ok
    ensures own[id] in RowsOf(UpdateItems(table, before, own, edit).items + ([Own(id)] + after), own[id := a])
      <==> exists item :: item in before && item.Base? && edit(item.row) == Change(own[id])
  {
    hide UpdateItems;
    var b, own' := own[id], own[id := a];
    var tail := [Own(id)] + after;
    var u := UpdateItems(table, before, own, edit);
    assert RowsOf(u.items + tail, own') == RowsOf(u.items, own') + RowsOf(tail, own');
    forall item | item in before && item.Own? ensures RowOf(item, own') == RowOf(item, own) {
    }
    UpdatedInto(table, before, own, own', edit, b);
    forall item | item in tail ensures RowOf(item, own') != b {
      assert item in after ==> edit(RowOf(item, own)) == Keep;
    }
  }

  lemma OneFolded(rows: seq<Row>, b: Row, a: Row)
    requires a != b
    ensures Folded(multiset(rows), [(b, a)]) == multiset(rows) <==> b !in rows
  {
    var bag := multiset(rows);
    assert Folded(bag, [(b, a)]) == Folded(BagReplaced(bag, b, a), []) == BagReplaced(bag, b, a);
    assert b in rows <==> b in bag;
    if b in bag { assert BagReplaced(bag, b, a)[b] == bag[b] - 1; }
  }

  lemma OneOwnChange(id: nat, after: seq<Item>, own: seq<Row>, edit: Row -> Edit, a: Row)
    requires id < |own| && edit(own[id]) == Change(a) && Own(id) !in after
    requires AllOwn(after) && LeavesOwnRows(after, own, edit)
    ensures OwnChanges([Own(id)] + after, own, edit) == [(own[id], a)]
  {
    assert ([Own(id)] + after)[1..] == after;
    forall item | item in after ensures edit(RowOf(item, own[id := a])) == Keep {
      assert RowOf(item, own[id := a]) == RowOf(item, own);
    }
    NoOwnChanges(after, own[id := a], edit);
  }

  lemma {:induction false} NoOwnChanges(items: seq<Item>, held: seq<Row>, edit: Row -> Edit)
    requires forall item | item in items :: edit(RowOf(item, held)) == Keep
    ensures OwnChanges(items, held, edit) == []
  {
    if items != [] { NoOwnChanges(items[1..], held, edit); }
  }

  lemma LateItems(table: string, own: seq<Row>, id: nat, after: seq<Item>, edit: Row -> Edit, a: Row)
    requires id < |own| && edit(own[id]) == Change(a)
    requires Own(id) !in after && (forall item | item in after :: item.Own?) && LeavesOwnRows(after, own, edit)
    ensures UpdateItems(table, [Own(id)] + after, own, edit)
      == Updated([Own(id)] + after, own[id := a], [Changed(table, own[id], a)], true)
  {
    UpdateOne(table, [Own(id)] + after, own, edit);
    hide UpdateItems;
    var own' := own[id := a];
    assert ([Own(id)] + after)[1..] == after;
    forall item | item in after ensures edit(RowOf(item, own')) == Keep {
      assert RowOf(item, own') == RowOf(item, own);
    }
    NothingToUpdate(table, after, own', edit);
  }

  /** For instance: a table holds 0, a transaction inserts 1 and adds one to every row. The table is left with
      1 and 2, but the log inserts 2, turns 0 into 1, and then that 1 into 2. */
  lemma UpdatingOwnRowsBreaksReplay(zero: Row, one: Row, two: Row)
    requires zero != one && one != two && zero != two
    ensures var state: State := map["t" := Table([], [zero], {})];
      var edit := (r: Row) => if r == zero then Change(one) else if r == one then Change(two) else Keep;
      var tx := Execute(Execute(Begin(state), InsertStmt("t", Some(one))).tx, UpdateStmt("t", true, edit)).tx;
      var r := ApplyAll(state, Logged(tx.ops, tx.own));
      !(r.Some? && Same(r.value, View(tx.tables, tx.own)))
  {
    var state: State := map["t" := Table([], [zero], {})];
    var edit := (r: Row) => if r == zero then Change(one) else if r == one then Change(two) else Keep;
    BeginFaithful(state);
    var tx := Execute(Begin(state), InsertStmt("t", Some(one))).tx;
    StatementReplays(state, Begin(state), InsertStmt("t", Some(one)));
    assert tx.tables["t"].items == [Base(zero)] + ([Own(0)] + []);
    assert edit(one) == Change(two);
    var u := UpdateItems("t", [Base(zero)], tx.own, edit);
    assert u.ok by { assert UpdateItems("t", [Base(zero)][1..], tx.own, edit).ok; }
    OneOwnUpdateReplaysIff(state, tx, "t", [Base(zero)], 0, [], edit, two);
    assert Base(zero) in [Base(zero)] && edit(zero) == Change(one);
  }

  /** Inserting 1 and 2 and adding one to both leaves 2 and 3; the log inserts those, and then turns the 2 into 3. */
  lemma ChainBreaksReplay(one: Row, two: Row, three: Row)
    requires one != two && two != three && one != three
    ensures Folded(multiset{two, three}, [(one, two), (two, three)]) == multiset{three, three}
  {
    var bag := multiset{two, three};
    var changes := [(one, two), (two, three)];
    assert BagReplaced(bag, one, two) == bag && BagReplaced(bag, two, three) == multiset{three, three};
    assert changes[1..] == [(two, three)] && changes[1..][1..] == [];
    hide BagReplaced;
    assert Folded(bag, changes) == Folded(bag, changes[1..]) == Folded(multiset{three, three}, []);
  }

  /** Two own rows that swap their values replay right, although each takes the other's old value. */
  lemma SwapReplays(one: Row, two: Row)
    requires one != two
    ensures Folded(multiset{two, one}, [(one, two), (two, one)]) == multiset{two, one}
  {
    var bag := multiset{two, one};
    var changes := [(one, two), (two, one)];
    assert BagReplaced(bag, one, two) == multiset{two, two} && BagReplaced(multiset{two, two}, two, one) == bag;
    assert changes[1..] == [(two, one)] && changes[1..][1..] == [];
    assert Folded(bag, changes) == Folded(multiset{two, two}, changes[1..]) == Folded(bag, []);
  }

  // ---------------------------------------------------------------- an UPDATE that raises

  /** A log that replays, and an UPDATE after it that raises at `item`, leaving it half assigned: if the transaction
      commits all the same, its log replays exactly when `item` is an own row, or was not changed. */
  lemma FailedUpdateReplaysIff(base: State, tx: Tx, table: string, before: seq<Item>, item: Item, after: seq<Item>, edit: Row -> Edit)
    requires Faithful(base, tx) && table in tx.tables && tx.tables[table].items == before + ([item] + after)
    requires LeavesOwnRows(before, tx.own, edit) && UpdateItems(table, before, tx.own, edit).ok && edit(RowOf(item, tx.own)).Fail?
    ensures var r := Execute(tx, UpdateStmt(table, true, edit));
      && !r.ok
      && (ReplaysAs(base, r.tx.tables, r.tx.ops, r.tx.own) <==> item.Own? || edit(item.row).partial == item.row)
  {
    hide ReplaysAs;
    var u := UpdateItems(table, before, tx.own, edit);
    var put := PutRow(item, tx.own, edit(RowOf(item, tx.own)).partial);
    var tail, tail' := [item] + after, [put.0] + after;
    UpdateSplits(table, before, tail, tx.own, edit);
    LeavingHolds(table, before, tx.own, edit);
    assert tail[1..] == after;
    assert u.changes + [] == u.changes;
    hide UpdateItems;
    assert ReplaysAs(base, tx.tables, tx.ops, put.1);
    ReplayToOwnRows(base, tx, table, before, tail, edit, put.1);
    var tables1 := tx.tables[table := tx.tables[table].(items := u.items + tail)];
    var tables2 := tx.tables[table := tx.tables[table].(items := u.items + tail')];
    assert Execute(tx, UpdateStmt(table, true, edit)).tx == Tx(tables2, put.1, tx.ops + u.changes);
    assert tables2 == tables1[table := tables1[table].(items := u.items + tail')];
    OneItemShows(base, tables1, table, tx.ops + u.changes, put.1, u.items, item, put.0, after);
  }

  lemma OneItemShows(base: State, tables: map<string, TxTable>, table: string, ops: seq<TxOp>, own: seq<Row>,
                     before: seq<Item>, item: Item, item': Item, after: seq<Item>)
    requires table in tables && tables[table].items == before + ([item] + after) && ReplaysAs(base, tables, ops, own)
    ensures ReplaysAs(base, tables[table := tables[table].(items := before + ([item'] + after))], ops, own)
      <==> RowOf(item, own) == RowOf(item', own)
  {
    hide ApplyAll, RowsOf;
    var r := ApplyAll(base, Logged(ops, own)).value;
    var tables' := tables[table := tables[table].(items := before + ([item'] + after))];
    HasTable(r, View(tables, own), table);
    BagsDiffer(before, item, item', after, own);
    assert SameTable(r[table], View(tables, own)[table]);
    OtherTablesSame(r, View(tables, own), View(tables', own), table);
  }

  lemma OneRowDiffers(x: seq<Row>, row: Row, row': Row, y: seq<Row>)
    ensures multiset(x + ([row] + y)) == multiset(x + ([row'] + y)) <==> row == row'
  {
    assert multiset(x + ([row] + y)) == multiset(x) + multiset{row} + multiset(y);
    assert multiset(x + ([row'] + y)) == multiset(x) + multiset{row'} + multiset(y);
    assert multiset(x + ([row] + y))[row] == multiset(x)[row] + 1 + multiset(y)[row];
  }

  lemma BagsDiffer(before: seq<Item>, item: Item, item': Item, after: seq<Item>, own: seq<Row>)
    ensures multiset(RowsOf(before + ([item] + after), own)) == multiset(RowsOf(before + ([item'] + after), own))
      <==> RowOf(item, own) == RowOf(item', own)
  {
    var x, y, row, row' := RowsOf(before, own), RowsOf(after, own), RowOf(item, own), RowOf(item', own);
    assert RowsOf(before + ([item] + after), own) == x + ([row] + y);
    assert RowsOf(before + ([item'] + after), own) == x + ([row'] + y);
    OneRowDiffers(x, row, row', y);
  }

  lemma OtherTablesSame(r: State, view: State, view': State, table: string)
    requires table in r && table in view && table in view' && Same(r, view) && view' == view[table := view'[table]]
    requires view'[table].columns == view[table].columns && view'[table].indexes == view[table].indexes
    ensures Same(r, view') <==> multiset(view[table].rows) == multiset(view'[table].rows)
  {
    assert SameTable(r[table], view[table]);
    if multiset(view[table].rows) == multiset(view'[table].rows) {
      forall name | name in r ensures SameTable(r[name], view'[name]) {
        assert SameTable(r[name], view[name]);
      }
    } else {
      assert !SameTable(r[table], view'[table]);
    }
  }
}
