/** What each statement of a transaction does to the rows of its tables (novadb/engine.py, Transaction), said of the
    tables before and after and of what is logged. */
module Statements {
  import opened Tables
  import opened Transactions
  import opened OwnRows

  function TablesOf(tx: Tx): State {
    View(tx.tables, tx.own)
  }

  /** No row object is in two tables, and none is in one table twice. */
  ghost predicate RowsApart(tx: Tx) {
    && TablesOwnOnce(tx)
    && forall a, b, x, y | a in tx.tables && b in tx.tables && a != b && x in tx.tables[a].items && y in tx.tables[b].items && x.Own? && y.Own? ::
         x.id != y.id
  }

  lemma StatementKeepsApart(tx: Tx, stmt: Stmt)
    requires RowsApart(tx)
    ensures RowsApart(Execute(tx, stmt).tx)
  {
    hide UpdateItems, Kept, Dropped, OwnOnce;
    StatementKeepsOwnOnce(tx, stmt);
    OwnBelow(tx);
    match stmt
    case UpdateStmt(table, _, edit) =>
      if table in tx.tables { UpdateKeepsItems(table, tx.tables[table].items, tx.own, edit); }
    case DeleteStmt(table, pick) =>
      if table in tx.tables { KeptMember(tx.tables[table].items, tx.own, pick); }
    case InsertManyStmt(table, rows) =>
      if rows.Some? { NewOwn(|tx.own|, |rows.value|); }
    case _ =>
  }

  lemma NewOwn(from: nat, count: nat)
    ensures forall x | x in Transactions.OwnRows(Ids(from, count)) :: x.Own? && x.id >= from
  {
  }

  lemma OwnBelow(tx: Tx)
    requires TablesOwnOnce(tx)
    ensures forall a, x | a in tx.tables && x in tx.tables[a].items && x.Own? :: x.id < |tx.own|
  {
  }

  lemma UpdateKeepsItems(table: string, items: seq<Item>, held: seq<Row>, edit: Row -> Edit)
    ensures forall x | x in UpdateItems(table, items, held, edit).items && x.Own? :: x in items
  {
    UpdateKeepsKinds(table, items, held, edit);
    var u := UpdateItems(table, items, held, edit);
    forall x | x in u.items && x.Own? ensures x in items {
      var i :| 0 <= i < |u.items| && u.items[i] == x;
      assert items[i] in items;
    }
  }

  lemma {:induction false} RunKeepsApart(tx: Tx, stmts: seq<Stmt>)
    requires RowsApart(tx)
    ensures RowsApart(ExecuteAll(tx, stmts))
    decreases |stmts|
  {
    hide Execute, RowsApart;
    if stmts != [] {
      StatementKeepsApart(tx, stmts[0]);
      RunKeepsApart(Execute(tx, stmts[0]).tx, stmts[1..]);
    }
  }

  lemma BeginApart(state: State)
    ensures RowsApart(Begin(state)) && TablesOf(Begin(state)) == state
  {
    forall name | name in state ensures TablesOf(Begin(state))[name] == state[name] {
      assert RowsOf(BaseRows(state[name].rows), []) == state[name].rows;
    }
  }

  // ---------------------------------------------------------------- positions

  ghost predicate AscendingIn(positions: seq<nat>, n: nat) {
    && (forall i | 0 <= i < |positions| :: positions[i] < n)
    && forall i, j | 0 <= i < j < |positions| :: positions[i] < positions[j]
  }

  /** The rows at these positions. */
  function At(rows: seq<Row>, positions: seq<nat>): (r: seq<Row>)
    ensures |r| == |positions|
  {
    seq(|positions|, i requires 0 <= i < |positions| => if positions[i] < |rows| then rows[positions[i]] else map[])
  }

  /** Exactly the positions, in order, of the rows that satisfy a condition. */
  ghost predicate Picks(positions: seq<nat>, rows: seq<Row>, holds: Row -> bool) {
    AscendingIn(positions, |rows|) && forall p | 0 <= p < |rows| :: p in positions <==> holds(rows[p])
  }

  lemma PicksMore(positions: seq<nat>, rows: seq<Row>, row: Row, holds: Row -> bool)
    requires Picks(positions, rows, holds)
    ensures Picks(if holds(row) then positions + [|rows|] else positions, rows + [row], holds)
  {
    var more := if holds(row) then positions + [|rows|] else positions;
    assert |rows| !in positions;
    forall p | 0 <= p < |rows| + 1 ensures p in more <==> holds((rows + [row])[p]) {
      if p < |rows| {
        assert p in more <==> p in positions;
      }
    }
  }

  lemma AtMore(positions: seq<nat>, rows: seq<Row>, row: Row)
    requires AscendingIn(positions, |rows|)
    ensures At(rows + [row], positions) == At(rows, positions)
    ensures At(rows + [row], positions + [|rows|]) == At(rows, positions) + [row]
  {
  }

  // ---------------------------------------------------------------- DELETE

  function Stays(pick: Row -> Option<bool>): Row -> bool {
    row => pick(row) == Some(false)
  }

  function Goes(pick: Row -> Option<bool>): Row -> bool {
    row => pick(row) == Some(true)
  }

  /** `kept` and `gone` are what a DELETE makes of the positions. */
  ghost predicate Divides(items: seq<Item>, own: seq<Row>, pick: Row -> Option<bool>, kept: seq<nat>, gone: seq<nat>) {
    var rows := RowsOf(items, own);
    && Picks(kept, rows, Stays(pick)) && Picks(gone, rows, Goes(pick))
    && RowsOf(Kept(items, own, pick), own) == At(rows, kept) && RowsOf(Dropped(items, own, pick), own) == At(rows, gone)
  }

  lemma NoneDivided(own: seq<Row>, pick: Row -> Option<bool>)
    ensures Divides([], own, pick, [], [])
  {
  }

  lemma DividesMore(items: seq<Item>, item: Item, own: seq<Row>, pick: Row -> Option<bool>, kept: seq<nat>, gone: seq<nat>)
    requires Divides(items, own, pick, kept, gone) && pick(RowOf(item, own)).Some?
    ensures if pick(RowOf(item, own)).value then Divides(items + [item], own, pick, kept, gone + [|items|])
            else Divides(items + [item], own, pick, kept + [|items|], gone)
  {
    hide Kept, Dropped;
    var rows, row := RowsOf(items, own), RowOf(item, own);
    RowsOfLast(items, item, own);
    PicksMore(kept, rows, row, Stays(pick));
    PicksMore(gone, rows, row, Goes(pick));
    AtMore(kept, rows, row);
    AtMore(gone, rows, row);
    KeptOneMore(items + [item], |items|, own, pick);
    assert (items + [item])[..|items|] == items && (items + [item])[..|items| + 1] == items + [item];
    RowsOfLast(Kept(items, own, pick), item, own);
    RowsOfLast(Dropped(items, own, pick), item, own);
    assert Goes(pick)(row) <==> pick(row) == Some(true);
    assert Stays(pick)(row) <==> pick(row) == Some(false);
    hide Picks, At, RowsOf, RowOf, Stays, Goes;
  }

  lemma {:induction false} KeptPicks(items: seq<Item>, own: seq<Row>, pick: Row -> Option<bool>) returns (kept: seq<nat>, gone: seq<nat>)
    requires forall i | 0 <= i < |items| :: pick(RowOf(items[i], own)).Some?
    ensures Divides(items, own, pick, kept, gone)
  {
    hide Divides, RowOf;
    if items == [] {
      NoneDivided(own, pick);
      kept, gone := [], [];
    } else {
      var last := |items| - 1;
      kept, gone := KeptPicks(items[..last], own, pick);
      assert items == items[..last] + [items[last]];
      DividesMore(items[..last], items[last], own, pick, kept, gone);
      if pick(RowOf(items[last], own)).value { gone := gone + [last]; } else { kept := kept + [last]; }
    }
  }

  lemma NoneKept(own: seq<Row>, pick: Row -> Option<bool>)
    ensures Kept([], own, pick) == [] && Dropped([], own, pick) == []
  {
  }

  lemma RowsOfLast(items: seq<Item>, item: Item, own: seq<Row>)
    ensures RowsOf(items + [item], own) == RowsOf(items, own) + [RowOf(item, own)] && items + [] == items
  {
  }

  /** Every other table is as it was. */
  ghost predicate OthersAs(before: State, after: State, table: string) {
    forall name | name != table :: (name in before <==> name in after) && (name in before ==> after[name] == before[name])
  }

  /** DELETE: raises, changing nothing, where the predicate raises on some row; otherwise the rows that stay are those
      at exactly the positions where it is false, in order, and the log gains the removals of the others, in order. */
  lemma DeleteLeaves(tx: Tx, table: string, pick: Row -> Option<bool>) returns (kept: seq<nat>, gone: seq<nat>)
    requires table in tx.tables
    ensures var before, r := TablesOf(tx), Execute(tx, DeleteStmt(table, pick));
      var rows := before[table].rows;
      && (r.ok <==> forall row | row in rows :: pick(row).Some?)
      && (!r.ok ==> r.tx == tx)
      && (r.ok ==>
            && Picks(kept, rows, Stays(pick)) && Picks(gone, rows, Goes(pick))
            && Becomes(before, TablesOf(r.tx), table, At(rows, kept)) && r.tx.own == tx.own
            && LogsMore(tx, r.tx, Deletes(table, At(rows, gone))))
  {
    var items := tx.tables[table].items;
    var rows := TablesOf(tx)[table].rows;
    kept, gone := [], [];
    RowsOfItems(items, tx.own);
    if forall row | row in rows :: pick(row).Some? {
      forall i | 0 <= i < |items| ensures pick(RowOf(items[i], tx.own)).Some? { assert rows[i] in rows; }
      kept, gone := KeptPicks(items, tx.own, pick);
      DeletedTables(tx, table, Kept(items, tx.own, pick));
      RemovalsLogged(table, Dropped(items, tx.own, pick), tx.own);
      MoreLogged(tx.ops, Removals(table, Dropped(items, tx.own, pick)), tx.own);
      hide Kept, Dropped, Removals, RowsOf, Picks, View;
    }
  }

  /** The table holds these rows now, and nothing else has changed. */
  ghost predicate Becomes(before: State, after: State, table: string, rows: seq<Row>) {
    table in before && table in after && after[table] == before[table].(rows := rows) && OthersAs(before, after, table)
  }

  /** What the log of the transaction has gained, as it would be written now. */
  ghost predicate LogsMore(tx: Tx, tx': Tx, ops: seq<LogOp>) {
    Logged(tx'.ops, tx'.own) == Logged(tx.ops, tx'.own) + ops
  }

  function Deletes(table: string, rows: seq<Row>): seq<LogOp> {
    seq(|rows|, i requires 0 <= i < |rows| => Delete(table, rows[i]))
  }

  lemma DeletedTables(tx: Tx, table: string, items: seq<Item>)
    requires table in tx.tables
    ensures var tables := tx.tables[table := tx.tables[table].(items := items)];
      Becomes(View(tx.tables, tx.own), View(tables, tx.own), table, RowsOf(items, tx.own))
  {
  }

  lemma RemovalsLogged(table: string, items: seq<Item>, own: seq<Row>)
    ensures Logged(Removals(table, items), own) == Deletes(table, RowsOf(items, own))
  {
  }

  lemma MoreLogged(a: seq<TxOp>, b: seq<TxOp>, own: seq<Row>)
    ensures Logged(a + b, own) == Logged(a, own) + Logged(b, own)
  {
  }

  lemma RowsOfItems(items: seq<Item>, own: seq<Row>)
    ensures forall row :: row in RowsOf(items, own) <==> exists item :: item in items && RowOf(item, own) == row
  {
    forall row ensures row in RowsOf(items, own) <==> exists item :: item in items && RowOf(item, own) == row {
      if row in RowsOf(items, own) {
        var i :| 0 <= i < |items| && RowsOf(items, own)[i] == row;
        assert items[i] in items;
      }
      if item :| item in items && RowOf(item, own) == row {
        var i :| 0 <= i < |items| && items[i] == item;
        assert RowsOf(items, own)[i] == row;
      }
    }
  }

  // ---------------------------------------------------------------- UPDATE

  /** The loop of an UPDATE before row `i`: `u` is what it did to the rows before, and no row after is touched. */
  ghost predicate EditedTo(table: string, items: seq<Item>, own: seq<Row>, edit: Row -> Edit, i: nat, u: Updated, rows: seq<Row>) {
    && i <= |items| && OwnOnce(items, |own|) && |u.items| == i && |u.own| == |own|
    && UpdateItems(table, items[..i], own, edit) == u && u.ok
    && (forall j | 0 <= j < i :: u.items[j].Own? == items[j].Own? && (items[j].Own? ==> u.items[j] == items[j]))
    && rows == RowsOf(u.items + items[i..], u.own)
  }

  lemma NothingEdited(table: string, items: seq<Item>, own: seq<Row>, edit: Row -> Edit)
    requires OwnOnce(items, |own|)
    ensures EditedTo(table, items, own, edit, 0, Updated([], own, [], true), RowsOf(items, own))
  {
    hide OwnOnce;
    assert items[..0] == [] && [] + items[0..] == items;
  }

  lemma AllEdited(table: string, items: seq<Item>, own: seq<Row>, edit: Row -> Edit, u: Updated, rows: seq<Row>)
    requires EditedTo(table, items, own, edit, |items|, u, rows)
    ensures UpdateItems(table, items, own, edit) == u && u.ok && rows == RowsOf(u.items, u.own)
  {
    hide UpdateItems, OwnOnce;
    assert items[..|items|] == items && u.items + items[|items|..] == u.items;
  }

  lemma EditKeeps(table: string, items: seq<Item>, own: seq<Row>, edit: Row -> Edit, i: nat, u: Updated, rows: seq<Row>) returns (u': Updated)
    requires EditedTo(table, items, own, edit, i, u, rows) && i < |items| && edit(rows[i]).Keep?
    ensures EditedTo(table, items, own, edit, i + 1, u', rows) && u'.changes == u.changes
  {
    hide UpdateItems, OwnOnce;
    assert (u.items + items[i..])[i] == items[i];
    UpdateOneMore(table, items, i, own, edit, u);
    u' := u.(items := u.items + [items[i]]);
    assert u'.items + items[i + 1..] == u.items + items[i..];
  }

  lemma EditChanges(table: string, items: seq<Item>, own: seq<Row>, edit: Row -> Edit, i: nat, u: Updated, rows: seq<Row>) returns (u': Updated)
    requires EditedTo(table, items, own, edit, i, u, rows) && i < |items| && edit(rows[i]).Change?
    ensures EditedTo(table, items, own, edit, i + 1, u', rows[i := edit(rows[i]).after])
    ensures u'.changes == u.changes + [Changed(table, rows[i], edit(rows[i]).after)]
  {
    hide UpdateItems, OwnOnce, RowsOf, PutRow;
    assert (u.items + items[i..])[i] == items[i];
    UpdateOneMore(table, items, i, own, edit, u);
    var put := PutRow(items[i], u.own, edit(rows[i]).after);
    u' := Updated(u.items + [put.0], put.1, u.changes + [Changed(table, rows[i], edit(rows[i]).after)], true);
    RowAssigned(items, i, u.items, u.own, edit(rows[i]).after);
    PutKeepsKind(items[i], u.own, edit(rows[i]).after);
  }

  lemma EditStops(table: string, items: seq<Item>, own: seq<Row>, edit: Row -> Edit, i: nat, u: Updated, rows: seq<Row>)
    requires EditedTo(table, items, own, edit, i, u, rows) && i < |items| && edit(rows[i]).Fail?
    ensures var r := UpdateItems(table, items, own, edit);
      !r.ok && rows[i := edit(rows[i]).partial] == RowsOf(r.items, r.own) && r.changes == u.changes
  {
    hide UpdateItems, OwnOnce, RowsOf, PutRow;
    assert (u.items + items[i..])[i] == items[i];
    UpdateStops(table, items, i, own, edit, u);
    RowAssigned(items, i, u.items, u.own, edit(rows[i]).partial);
    var put := PutRow(items[i], u.own, edit(rows[i]).partial);
    assert u.items + [put.0] + items[i + 1..] == u.items + ([put.0] + items[i + 1..]);
  }

  lemma PutKeepsKind(item: Item, own: seq<Row>, row: Row)
    ensures var put := PutRow(item, own, row);
      put.0.Own? == item.Own? && (item.Own? ==> put.0 == item) && |put.1| == |own|
  {
  }

  /** What an UPDATE makes of one row; of the row that raises, what it had assigned by then. */
  function Edited(edit: Row -> Edit, row: Row): Row {
    match edit(row)
    case Keep => row
    case Change(after) => after
    case Fail(partial) => partial
  }

  function Changing(edit: Row -> Edit): Row -> bool {
    row => edit(row).Change?
  }

  /** The logged changes of rows. */
  function Updates(table: string, rows: seq<Row>, edit: Row -> Edit): seq<LogOp> {
    seq(|rows|, i requires 0 <= i < |rows| => Update(table, rows[i], Edited(edit, rows[i])))
  }

  /** The first `k` of these rows edited. */
  ghost predicate EditedFirst(before: seq<Row>, after: seq<Row>, edit: Row -> Edit, k: nat) {
    |after| == |before| && forall i | 0 <= i < |before| :: after[i] == if i < k then Edited(edit, before[i]) else before[i]
  }

  /** The changes are logged so, whatever the transaction's own rows hold by then. */
  ghost predicate LoggedAs(changes: seq<TxOp>, ops: seq<LogOp>) {
    forall own :: Logged(changes, own) == ops
  }

  lemma UpdatesMore(table: string, changes: seq<TxOp>, rows: seq<Row>, row: Row, edit: Row -> Edit)
    requires LoggedAs(changes, Updates(table, rows, edit))
    ensures LoggedAs(changes + [Changed(table, row, Edited(edit, row))], Updates(table, rows + [row], edit))
  {
    forall own ensures Logged(changes + [Changed(table, row, Edited(edit, row))], own) == Updates(table, rows + [row], edit) {
      assert Logged(changes, own) == Updates(table, rows, edit);
    }
  }

  /** The loop of an UPDATE before row `k`, said of the rows it began with. */
  ghost predicate RunTo(table: string, items: seq<Item>, own: seq<Row>, edit: Row -> Edit, k: nat, u: Updated, rows: seq<Row>, changed: seq<nat>) {
    var before := RowsOf(items, own);
    && k <= |before| && EditedTo(table, items, own, edit, k, u, rows) && EditedFirst(before, rows, edit, k)
    && Picks(changed, before[..k], Changing(edit)) && LoggedAs(u.changes, Updates(table, At(before, changed), edit))
  }

  lemma RunStarts(table: string, items: seq<Item>, own: seq<Row>, edit: Row -> Edit)
    requires OwnOnce(items, |own|)
    ensures RunTo(table, items, own, edit, 0, Updated([], own, [], true), RowsOf(items, own), [])
  {
    hide OwnOnce;
    NothingEdited(table, items, own, edit);
  }

  lemma RunGoesOn(table: string, items: seq<Item>, own: seq<Row>, edit: Row -> Edit, k: nat, u: Updated, rows: seq<Row>, changed: seq<nat>)
      returns (u': Updated, rows': seq<Row>, changed': seq<nat>)
    requires RunTo(table, items, own, edit, k, u, rows, changed) && k < |items| && !edit(RowOf(items[k], own)).Fail?
    ensures RunTo(table, items, own, edit, k + 1, u', rows', changed')
  {
    hide EditedTo, LoggedAs;
    var before := RowsOf(items, own);
    var row := before[k];
    assert before[..k + 1] == before[..k] + [row] && rows[k] == row && |before[..k]| == k;
    PicksMore(changed, before[..k], row, Changing(edit));
    assert Changing(edit)(row) <==> edit(row).Change?;
    AtWithin(changed, before, k);
    hide Picks;
    if edit(row).Change? {
      u' := EditChanges(table, items, own, edit, k, u, rows);
      UpdatesMore(table, u.changes, At(before, changed), row, edit);
      rows', changed' := rows[k := edit(row).after], changed + [k];
    } else {
      u' := EditKeeps(table, items, own, edit, k, u, rows);
      rows', changed' := rows, changed;
    }
  }

  lemma {:induction false} EditRun(table: string, items: seq<Item>, own: seq<Row>, edit: Row -> Edit, k: nat) returns (u: Updated, rows: seq<Row>, changed: seq<nat>)
    requires OwnOnce(items, |own|) && k <= |items| && forall i | 0 <= i < k :: !edit(RowOf(items[i], own)).Fail?
    ensures RunTo(table, items, own, edit, k, u, rows, changed)
  {
    hide OwnOnce, RunTo;
    if k == 0 {
      RunStarts(table, items, own, edit);
      u, rows, changed := Updated([], own, [], true), RowsOf(items, own), [];
    } else {
      u, rows, changed := EditRun(table, items, own, edit, k - 1);
      u, rows, changed := RunGoesOn(table, items, own, edit, k - 1, u, rows, changed);
    }
  }

  lemma AtWithin(positions: seq<nat>, rows: seq<Row>, k: nat)
    requires k < |rows|
    ensures At(rows, positions + [k]) == At(rows, positions) + [rows[k]]
  {
  }

  lemma PutTouches(item: Item, own: seq<Row>, row: Row)
    ensures var own' := PutRow(item, own, row).1; |own'| == |own| && forall id: nat | id < |own| && Own(id) != item :: own'[id] == own[id]
  {
  }

  lemma {:induction false} UpdateTouches(table: string, items: seq<Item>, own: seq<Row>, edit: Row -> Edit)
    ensures var u := UpdateItems(table, items, own, edit);
      |u.own| == |own| && forall id: nat | id < |own| && Own(id) !in items :: u.own[id] == own[id]
    decreases |items|
  {
    hide PutRow, RowOf;
    if items != [] {
      var row := RowOf(items[0], own);
      assert items[0] in items && forall item | item in items[1..] :: item in items;
      match edit(row)
      case Keep => UpdateTouches(table, items[1..], own, edit);
      case Change(after) =>
        PutTouches(items[0], own, after);
        UpdateTouches(table, items[1..], PutRow(items[0], own, after).1, edit);
      case Fail(partial) => PutTouches(items[0], own, partial);
    }
  }

  lemma OtherTablesKeep(tx: Tx, table: string, items: seq<Item>, own: seq<Row>)
    requires RowsApart(tx) && table in tx.tables && |own| == |tx.own|
    requires forall id: nat | id < |own| && Own(id) !in tx.tables[table].items :: own[id] == tx.own[id]
    ensures Becomes(TablesOf(tx), View(tx.tables[table := tx.tables[table].(items := items)], own), table, RowsOf(items, own))
  {
    forall name | name in tx.tables && name != table ensures RowsOf(tx.tables[name].items, own) == RowsOf(tx.tables[name].items, tx.own) {
      var others := tx.tables[name].items;
      forall i | 0 <= i < |others| ensures RowOf(others[i], own) == RowOf(others[i], tx.own) {
        assert others[i] in others;
        if others[i].Own? { assert Own(others[i].id) !in tx.tables[table].items; }
      }
    }
  }

  lemma FirstFailure(rows: seq<Row>, edit: Row -> Edit) returns (k: nat)
    ensures k <= |rows| && (forall i | 0 <= i < k :: !edit(rows[i]).Fail?) && (k < |rows| ==> edit(rows[k]).Fail?)
  {
    k := 0;
    while k < |rows| && !edit(rows[k]).Fail?
      invariant k <= |rows| && forall i | 0 <= i < k :: !edit(rows[i]).Fail?
    {
      k := k + 1;
    }
  }

  lemma UpdatedRows(table: string, items: seq<Item>, own: seq<Row>, edit: Row -> Edit, k: nat) returns (changed: seq<nat>)
    requires OwnOnce(items, |own|) && k <= |items| && (forall i | 0 <= i < k :: !edit(RowOf(items[i], own)).Fail?)
    requires k < |items| ==> edit(RowOf(items[k], own)).Fail?
    ensures var u, rows := UpdateItems(table, items, own, edit), RowsOf(items, own);
      && (u.ok <==> k == |rows|) && EditedFirst(rows, RowsOf(u.items, u.own), edit, k + 1)
      && Picks(changed, rows[..k], Changing(edit))
      && LoggedAs(u.changes, Updates(table, At(rows, changed), edit))
  {
    hide EditedTo, OwnOnce, UpdateItems, Picks, LoggedAs;
    var u, rows;
    u, rows, changed := EditRun(table, items, own, edit, k);
    if k == |items| {
      AllEdited(table, items, own, edit, u, rows);
    } else {
      EditStops(table, items, own, edit, k, u, rows);
    }
  }

  /** UPDATE of known columns: up to the first row on which it raises, if any, each position holds the edit of the row
      it held, and that row what was assigned by then; the rows after it, and every other table, are as they were. The
      log gains the change of each row that changed, in order, the row that raises left out. */
  lemma UpdateLeaves(tx: Tx, table: string, edit: Row -> Edit) returns (k: nat, changed: seq<nat>)
    requires RowsApart(tx) && table in tx.tables
    ensures var before, r := TablesOf(tx), Execute(tx, UpdateStmt(table, true, edit));
      var rows, after := before[table].rows, TablesOf(r.tx);
      && k <= |rows| && (forall i | 0 <= i < k :: !edit(rows[i]).Fail?) && (k < |rows| ==> edit(rows[k]).Fail?)
      && (r.ok <==> k == |rows|)
      && table in after && EditedFirst(rows, after[table].rows, edit, k + 1) && Becomes(before, after, table, after[table].rows)
      && Picks(changed, rows[..k], Changing(edit)) && LogsMore(tx, r.tx, Updates(table, At(rows, changed), edit))
  {
    var items := tx.tables[table].items;
    k := FirstFailure(TablesOf(tx)[table].rows, edit);
    changed := UpdatedRows(table, items, tx.own, edit, k);
    UpdateTouches(table, items, tx.own, edit);
    hide UpdateItems, Picks, At, EditedFirst, Changing, Updates, View;
    var u := UpdateItems(table, items, tx.own, edit);
    UpdateRuns(tx, table, edit);
    OtherTablesKeep(tx, table, u.items, u.own);
    MoreLogged(tx.ops, u.changes, u.own);
    BecomesRows(TablesOf(tx), TablesOf(Execute(tx, UpdateStmt(table, true, edit)).tx), table, RowsOf(u.items, u.own));
    hide RowsApart, Becomes, Logged, Execute;
  }

  lemma UpdateRuns(tx: Tx, table: string, edit: Row -> Edit)
    requires table in tx.tables
    ensures var u := UpdateItems(table, tx.tables[table].items, tx.own, edit);
      Execute(tx, UpdateStmt(table, true, edit))
        == Outcome(Tx(tx.tables[table := tx.tables[table].(items := u.items)], u.own, tx.ops + u.changes), u.ok)
  {
    hide UpdateItems;
  }

  lemma BecomesRows(before: State, after: State, table: string, rows: seq<Row>)
    requires Becomes(before, after, table, rows)
    ensures table in after && after[table].rows == rows
  {
  }

  // ---------------------------------------------------------------- INSERT

  /** No two rows share a primary key. */
  ghost predicate KeysDistinct(columns: seq<Column>, rows: seq<Row>) {
    forall c, i, j | c in columns && c.primaryKey && 0 <= i < j < |rows| :: Get(rows[i], c.name) != Get(rows[j], c.name)
  }

  lemma DuplicateIff(columns: seq<Column>, rows: seq<Row>, row: Row)
    requires KeysDistinct(columns, rows)
    ensures Duplicate(columns, rows, row) <==> !KeysDistinct(columns, rows + [row])
  {
    var longer := rows + [row];
    if Duplicate(columns, rows, row) {
      var c, r :| c in columns && c.primaryKey && r in rows && Get(r, c.name) == Get(row, c.name);
      var i :| 0 <= i < |rows| && rows[i] == r;
      assert longer[i] == r && longer[|rows|] == row;
    } else {
      forall c, i, j | c in columns && c.primaryKey && 0 <= i < j < |longer| ensures Get(longer[i], c.name) != Get(longer[j], c.name) {
        assert longer[i] in rows;
      }
    }
  }

  lemma DistinctPrefix(columns: seq<Column>, rows: seq<Row>, more: seq<Row>)
    requires KeysDistinct(columns, rows + more)
    ensures KeysDistinct(columns, rows)
  {
    forall c, i, j | c in columns && c.primaryKey && 0 <= i < j < |rows| ensures Get(rows[i], c.name) != Get(rows[j], c.name) {
      assert (rows + more)[i] == rows[i] && (rows + more)[j] == rows[j];
    }
  }

  lemma {:induction false} NoneDuplicateIff(columns: seq<Column>, rows: seq<Row>, batch: seq<Row>)
    requires KeysDistinct(columns, rows)
    ensures NoneDuplicate(columns, rows, batch) <==> KeysDistinct(columns, rows + batch)
  {
    hide KeysDistinct, Duplicate;
    if batch == [] {
      assert rows + batch == rows;
    } else {
      var last := |batch| - 1;
      NoneDuplicateIff(columns, rows, batch[..last]);
      assert rows + batch == (rows + batch[..last]) + [batch[last]];
      NoneDuplicateLast(columns, rows, batch);
      if KeysDistinct(columns, rows + batch[..last]) {
        DuplicateIff(columns, rows + batch[..last], batch[last]);
      } else if KeysDistinct(columns, rows + batch) {
        DistinctPrefix(columns, rows + batch[..last], [batch[last]]);
      }
    }
  }

  lemma NoneDuplicateLast(columns: seq<Column>, rows: seq<Row>, batch: seq<Row>)
    requires batch != []
    ensures var last := |batch| - 1;
      NoneDuplicate(columns, rows, batch) <==> NoneDuplicate(columns, rows, batch[..last]) && !Duplicate(columns, rows + batch[..last], batch[last])
  {
    hide Duplicate;
    var last := |batch| - 1;
    assert forall i | 0 <= i < last :: batch[..last][..i] == batch[..i];
  }

  /** Rows put at the end of a table, and how they are logged. */
  lemma AppendedTables(tx: Tx, table: string, items: seq<Item>, rows: seq<Row>)
    requires TablesOwnOnce(tx) && table in tx.tables && RowsOf(items, tx.own + rows) == rows
    ensures var t := tx.tables[table];
      Becomes(TablesOf(tx), View(tx.tables[table := t.(items := t.items + items)], tx.own + rows), table, TablesOf(tx)[table].rows + rows)
  {
    var own := tx.own + rows;
    forall name | name in tx.tables ensures RowsOf(tx.tables[name].items, own) == RowsOf(tx.tables[name].items, tx.own) {
      var held := tx.tables[name].items;
      assert OwnOnce(held, |tx.own|);
    }
    assert RowsOf(tx.tables[table].items + items, own) == RowsOf(tx.tables[table].items, own) + rows;
  }

  /** INSERT of a row that normalization made: refused, changing nothing, exactly where it repeats a primary key; otherwise
      it comes after the rows there were, nothing else changes, and it is what is logged. */
  lemma InsertLeaves(tx: Tx, table: string, row: Row)
    requires TablesOwnOnce(tx) && table in tx.tables && KeysDistinct(tx.tables[table].columns, TablesOf(tx)[table].rows)
    ensures var before, r := TablesOf(tx), Execute(tx, InsertStmt(table, Some(row)));
      && (r.ok <==> KeysDistinct(before[table].columns, before[table].rows + [row]))
      && (!r.ok ==> r.tx == tx)
      && (r.ok ==> Becomes(before, TablesOf(r.tx), table, before[table].rows + [row]) && LogsMore(tx, r.tx, [Insert(table, row)]))
  {
    var id := |tx.own|;
    DuplicateIff(tx.tables[table].columns, TablesOf(tx)[table].rows, row);
    hide Duplicate, KeysDistinct;
    AppendedTables(tx, table, [Own(id)], [row]);
    MoreLogged(tx.ops, [NewRow(table, id)], tx.own + [row]);
    assert Logged([NewRow(table, id)], tx.own + [row]) == [Insert(table, row)];
  }

  /** INSERT MANY: the same of a batch, whole or not at all. */
  lemma InsertManyLeaves(tx: Tx, table: string, batch: seq<Row>)
    requires TablesOwnOnce(tx) && table in tx.tables && KeysDistinct(tx.tables[table].columns, TablesOf(tx)[table].rows)
    ensures var before, r := TablesOf(tx), Execute(tx, InsertManyStmt(table, Some(batch)));
      && (r.ok <==> KeysDistinct(before[table].columns, before[table].rows + batch))
      && (!r.ok ==> r.tx == tx)
      && (r.ok ==> Becomes(before, TablesOf(r.tx), table, before[table].rows + batch) && LogsMore(tx, r.tx, [InsertMany(table, batch)]))
  {
    var ids := Ids(|tx.own|, |batch|);
    NoneDuplicateIff(tx.tables[table].columns, TablesOf(tx)[table].rows, batch);
    InsertManyRuns(tx, table, batch);
    hide NoneDuplicate, KeysDistinct, Execute;
    NewRowsOf(tx.own, batch);
    AppendedTables(tx, table, Transactions.OwnRows(ids), batch);
    MoreLogged(tx.ops, [NewRows(table, ids)], tx.own + batch);
    assert Logged([NewRows(table, ids)], tx.own + batch) == [InsertMany(table, batch)];
  }

  lemma InsertManyRuns(tx: Tx, table: string, batch: seq<Row>)
    requires table in tx.tables
    ensures var t, ids := tx.tables[table], Ids(|tx.own|, |batch|);
      Execute(tx, InsertManyStmt(table, Some(batch)))
        == if !NoneDuplicate(t.columns, RowsOf(t.items, tx.own), batch) then Outcome(tx, false)
           else Outcome(Tx(tx.tables[table := t.(items := t.items + Transactions.OwnRows(ids))], tx.own + batch, tx.ops + [NewRows(table, ids)]), true)
  {
    hide NoneDuplicate;
  }

  lemma NewRowsOf(own: seq<Row>, batch: seq<Row>)
    ensures RowsOf(Transactions.OwnRows(Ids(|own|, |batch|)), own + batch) == batch
  {
  }

  /** CREATE TABLE and CREATE INDEX: refused, changing nothing, for a table that is there, or for a table or a column that
      is not; otherwise there is one more empty table, or one more index over the same rows. */
  lemma CreatesLeave(tx: Tx, name: string, columns: seq<Column>, column: string)
    ensures var before, r := TablesOf(tx), Execute(tx, CreateTableStmt(name, columns));
      && (r.ok <==> name !in before) && (!r.ok ==> r.tx == tx)
      && (r.ok ==> TablesOf(r.tx) == before[name := Table(columns, [], {})] && LogsMore(tx, r.tx, [CreateTable(name, columns)]))
    ensures var before, r := TablesOf(tx), Execute(tx, CreateIndexStmt(name, column));
      && (r.ok <==> name in before && exists c :: c in before[name].columns && c.name == column) && (!r.ok ==> r.tx == tx)
      && (r.ok ==>
            && TablesOf(r.tx) == before[name := before[name].(indexes := before[name].indexes + {column})]
            && LogsMore(tx, r.tx, [CreateIndex(name, column)]))
  {
    MoreLogged(tx.ops, [NewTable(name, columns)], tx.own);
    MoreLogged(tx.ops, [NewIndex(name, column)], tx.own);
    assert Logged([NewTable(name, columns)], tx.own) == [CreateTable(name, columns)];
    assert Logged([NewIndex(name, column)], tx.own) == [CreateIndex(name, column)];
    assert RowsOf([], tx.own) == [];
  }

  /** Statements on no table, or with unknown columns or rows that do not normalize, change nothing. */
  lemma RefusedLeaves(tx: Tx, stmt: Stmt)
    requires match stmt
      case CreateTableStmt(_, _) => false
      case InsertStmt(table, row) => table !in tx.tables || row.None?
      case InsertManyStmt(table, rows) => table !in tx.tables || rows.None?
      case UpdateStmt(table, columnsKnown, _) => table !in tx.tables || !columnsKnown
      case CreateIndexStmt(table, _) => table !in tx.tables
      case DeleteStmt(table, _) => table !in tx.tables
    ensures Execute(tx, stmt) == Outcome(tx, false)
  {
  }

  // ---------------------------------------------------------------- keys over runs

  ghost predicate AllKeysDistinct(state: State) {
    forall name | name in state :: KeysDistinct(state[name].columns, state[name].rows)
  }

  lemma DistinctAt(columns: seq<Column>, rows: seq<Row>, positions: seq<nat>)
    requires KeysDistinct(columns, rows) && AscendingIn(positions, |rows|)
    ensures KeysDistinct(columns, At(rows, positions))
  {
  }

  lemma BecomesDistinct(before: State, after: State, table: string, rows: seq<Row>)
    requires AllKeysDistinct(before) && Becomes(before, after, table, rows) && KeysDistinct(before[table].columns, rows)
    ensures AllKeysDistinct(after)
  {
    hide KeysDistinct;
  }

  lemma StatementKeepsKeys(tx: Tx, stmt: Stmt)
    requires TablesOwnOnce(tx) && AllKeysDistinct(TablesOf(tx)) && !stmt.UpdateStmt?
    ensures AllKeysDistinct(TablesOf(Execute(tx, stmt).tx))
  {
    hide Execute, KeysDistinct, View, TablesOwnOnce;
    var before := TablesOf(tx);
    SameTables(tx);
    match stmt
    case CreateTableStmt(name, columns) =>
      CreatesLeave(tx, name, columns, "");
      NoKeys(columns);
    case CreateIndexStmt(table, column) => CreatesLeave(tx, table, [], column);
    case InsertStmt(table, row) =>
      if table in tx.tables && row.Some? {
        InsertLeaves(tx, table, row.value);
        var r := Execute(tx, stmt);
        if r.ok { BecomesDistinct(before, TablesOf(r.tx), table, before[table].rows + [row.value]); }
      } else { RefusedLeaves(tx, stmt); }
    case InsertManyStmt(table, rows) =>
      if table in tx.tables && rows.Some? {
        InsertManyLeaves(tx, table, rows.value);
        var r := Execute(tx, stmt);
        if r.ok { BecomesDistinct(before, TablesOf(r.tx), table, before[table].rows + rows.value); }
      } else { RefusedLeaves(tx, stmt); }
    case DeleteStmt(table, pick) =>
      if table in tx.tables {
        var kept, _ := DeleteLeaves(tx, table, pick);
        var r := Execute(tx, stmt);
        if r.ok {
          DistinctAt(before[table].columns, before[table].rows, kept);
          BecomesDistinct(before, TablesOf(r.tx), table, At(before[table].rows, kept));
        }
      } else { RefusedLeaves(tx, stmt); }
  }

  lemma NoKeys(columns: seq<Column>)
    ensures KeysDistinct(columns, [])
  {
  }

  lemma SameTables(tx: Tx)
    ensures TablesOf(tx).Keys == tx.tables.Keys
    ensures forall name | name in tx.tables :: TablesOf(tx)[name].columns == tx.tables[name].columns
  {
  }

  /** Primary keys stay distinct: whatever statements a transaction runs, refused ones included, as long as none is an
      UPDATE, which checks no keys. */
  lemma KeysStayDistinct(state: State, stmts: seq<Stmt>)
    requires AllKeysDistinct(state) && forall i | 0 <= i < |stmts| :: !stmts[i].UpdateStmt?
    ensures AllKeysDistinct(TablesOf(ExecuteAll(Begin(state), stmts)))
  {
    BeginApart(state);
    hide Begin, AllKeysDistinct;
    RunKeepsKeys(Begin(state), stmts);
  }

  lemma {:induction false} RunKeepsKeys(tx: Tx, stmts: seq<Stmt>)
    requires TablesOwnOnce(tx) && AllKeysDistinct(TablesOf(tx)) && forall i | 0 <= i < |stmts| :: !stmts[i].UpdateStmt?
    ensures AllKeysDistinct(TablesOf(ExecuteAll(tx, stmts)))
    decreases |stmts|
  {
    hide AllKeysDistinct, TablesOwnOnce, Execute, TablesOf;
    if stmts != [] {
      StatementKeepsKeys(tx, stmts[0]);
      StatementKeepsOwnOnce(tx, stmts[0]);
      RunKeepsKeys(Execute(tx, stmts[0]).tx, stmts[1..]);
    }
  }

  /** An UPDATE of every row to the same. */
  function ToAll(row: Row): Row -> Edit {
    _ => Change(row)
  }

  /** An UPDATE can make rows share a key. */
  lemma UpdateRepeatsKeys(tx: Tx, table: string, row: Row)
    requires RowsApart(tx) && table in tx.tables && |TablesOf(tx)[table].rows| > 1
    requires exists c :: c in tx.tables[table].columns && c.primaryKey
    ensures var r := Execute(tx, UpdateStmt(table, true, ToAll(row)));
      r.ok && table in TablesOf(r.tx) && !KeysDistinct(tx.tables[table].columns, TablesOf(r.tx)[table].rows)
  {
    var k, changed := UpdateLeaves(tx, table, ToAll(row));
    hide Execute, View, Picks, Logged, RowsApart, KeysDistinct;
    var after := TablesOf(Execute(tx, UpdateStmt(table, true, ToAll(row))).tx)[table].rows;
    assert forall other :: ToAll(row)(other) == Change(row);
    assert after[0] == row == after[1];
    SameKeys(tx.tables[table].columns, after);
  }

  lemma SameKeys(columns: seq<Column>, rows: seq<Row>)
    requires (exists c :: c in columns && c.primaryKey) && |rows| > 1 && rows[0] == rows[1]
    ensures !KeysDistinct(columns, rows)
  {
    var c :| c in columns && c.primaryKey;
    assert Get(rows[0], c.name) == Get(rows[1], c.name);
  }
}
