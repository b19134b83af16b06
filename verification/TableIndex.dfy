/** Table indexes (novadb/engine.py, Table): one B+ tree per indexed column, kept in step with the rows. */
module TableIndex {
  import opened Tables
  import opened Transactions
  import opened OwnRows
  import opened BTree
  import opened Statements

  /** The positions of the rows, each under the key of its column value. */
  ghost function Positions(rows: seq<Row>, column: string, keyOf: Value -> Key): set<Pair> {
    set i | 0 <= i < |rows| :: (keyOf(Get(rows[i], column)), i)
  }

  /** What a full scan finds: the rows, in row order, whose column value has the key. */
  function Scan(rows: seq<Row>, column: string, key: Key, keyOf: Value -> Key): seq<Row> {
    if rows == [] then []
    else
      var last := |rows| - 1;
      Scan(rows[..last], column, key, keyOf) + (if keyOf(Get(rows[last], column)) == key then [rows[last]] else [])
  }

  function RowsAt(rows: seq<Row>, positions: seq<int>): seq<Row>
    requires forall p | p in positions :: 0 <= p < |rows|
  {
    seq(|positions|, i requires 0 <= i < |positions| => assert positions[i] in positions; rows[positions[i]])
  }

  lemma RowsAtPrefix(rows: seq<Row>, positions: seq<int>)
    requires rows != [] && forall p | p in positions :: 0 <= p < |rows| - 1
    ensures RowsAt(rows, positions) == RowsAt(rows[..|rows| - 1], positions)
    ensures RowsAt(rows, positions + [|rows| - 1]) == RowsAt(rows[..|rows| - 1], positions) + [rows[|rows| - 1]]
  {
    var last := |rows| - 1;
    var few, more := RowsAt(rows[..last], positions), RowsAt(rows, positions + [last]);
    forall i | 0 <= i < |positions| ensures RowsAt(rows, positions)[i] == few[i] == more[i] {
      assert positions[i] in positions;
    }
    assert more == few + [rows[last]];
  }

  /** What a lookup finds where the index files `filed` and the table now holds `rows`: the present rows at the
      positions filed under the key. */
  function Found(filed: seq<Row>, rows: seq<Row>, column: string, key: Key, keyOf: Value -> Key): seq<Row>
    requires |filed| == |rows|
  {
    if rows == [] then []
    else
      var last := |rows| - 1;
      Found(filed[..last], rows[..last], column, key, keyOf) + (if keyOf(Get(filed[last], column)) == key then [rows[last]] else [])
  }

  /** Ascending positions of exactly the rows filed under a key pick out what a lookup finds. */
  lemma LastPosition(positions: seq<int>, last: int)
    requires AscendingInts(positions) && last in positions && forall p | p in positions :: p <= last
    ensures var fewer := positions[..|positions| - 1];
      positions == fewer + [last] && AscendingInts(fewer) && forall p :: p in fewer <==> p in positions && p != last
  {
    var n := |positions| - 1;
    var i :| 0 <= i <= n && positions[i] == last;
    assert positions[n] in positions && i == n;
    assert positions == positions[..n] + [last];
  }

  lemma {:induction false} PositionsAreFound(filed: seq<Row>, rows: seq<Row>, positions: seq<int>, column: string, key: Key, keyOf: Value -> Key)
    requires |filed| == |rows| && AscendingInts(positions)
    requires forall p :: p in positions <==> 0 <= p < |rows| && keyOf(Get(filed[p], column)) == key
    ensures RowsAt(rows, positions) == Found(filed, rows, column, key, keyOf)
  {
    if rows == [] {
      FirstIsMember(positions);
    } else {
      var last := |rows| - 1;
      var n := |positions| - 1;
      if keyOf(Get(filed[last], column)) == key {
        assert last in positions;
        LastPosition(positions, last);
        var fewer := positions[..n];
        PositionsAreFound(filed[..last], rows[..last], fewer, column, key, keyOf);
        hide Found;
        RowsAtPrefix(rows, fewer);
      } else {
        assert forall p | p in positions :: p < last;
        PositionsAreFound(filed[..last], rows[..last], positions, column, key, keyOf);
        RowsAtPrefix(rows, positions);
      }
    }
  }

  /** Where filed and present rows agree in their keys, a lookup finds what a full scan finds. */
  lemma {:induction false} FoundIsScan(filed: seq<Row>, rows: seq<Row>, column: string, key: Key, keyOf: Value -> Key)
    requires |filed| == |rows| && forall i | 0 <= i < |rows| :: keyOf(Get(filed[i], column)) == keyOf(Get(rows[i], column))
    ensures Found(filed, rows, column, key, keyOf) == Scan(rows, column, key, keyOf)
  {
    if rows != [] {
      var last := |rows| - 1;
      FoundIsScan(filed[..last], rows[..last], column, key, keyOf);
    }
  }

  lemma {:induction false} FoundMember(filed: seq<Row>, rows: seq<Row>, i: nat, column: string, keyOf: Value -> Key)
    requires i < |filed| == |rows|
    ensures rows[i] in Found(filed, rows, column, keyOf(Get(filed[i], column)), keyOf)
  {
    var last := |rows| - 1;
    if i < last { FoundMember(filed[..last], rows[..last], i, column, keyOf); }
  }

  lemma {:induction false} ScanMember(rows: seq<Row>, column: string, key: Key, keyOf: Value -> Key)
    ensures forall row | row in Scan(rows, column, key, keyOf) :: row in rows && keyOf(Get(row, column)) == key
  {
    if rows != [] { ScanMember(rows[..|rows| - 1], column, key, keyOf); }
  }

  /** Ascending positions of exactly the matching rows pick out what the scan finds. */
  lemma PositionsAreScan(rows: seq<Row>, positions: seq<int>, column: string, key: Key, keyOf: Value -> Key)
    requires AscendingInts(positions)
    requires forall p :: p in positions <==> 0 <= p < |rows| && keyOf(Get(rows[p], column)) == key
    ensures RowsAt(rows, positions) == Scan(rows, column, key, keyOf)
  {
    PositionsAreFound(rows, rows, positions, column, key, keyOf);
    FoundIsScan(rows, rows, column, key, keyOf);
  }

  /** Whatever rows an index files, its lookups agree with a scan of the present rows, for every key, exactly when
      every position has kept its key. */
  lemma LookupsRightIff(filed: seq<Row>, rows: seq<Row>, column: string, keyOf: Value -> Key)
    requires |filed| == |rows|
    ensures (forall key :: Found(filed, rows, column, key, keyOf) == Scan(rows, column, key, keyOf))
      <==> forall i | 0 <= i < |rows| :: keyOf(Get(filed[i], column)) == keyOf(Get(rows[i], column))
  {
    if forall key :: Found(filed, rows, column, key, keyOf) == Scan(rows, column, key, keyOf) {
      forall i | 0 <= i < |rows| ensures keyOf(Get(filed[i], column)) == keyOf(Get(rows[i], column)) {
        var key := keyOf(Get(filed[i], column));
        FoundMember(filed, rows, i, column, keyOf);
        ScanMember(rows, column, key, keyOf);
      }
    } else {
      var key :| Found(filed, rows, column, key, keyOf) != Scan(rows, column, key, keyOf);
      if forall i | 0 <= i < |rows| :: keyOf(Get(filed[i], column)) == keyOf(Get(rows[i], column)) {
        FoundIsScan(filed, rows, column, key, keyOf);
        assert false;
      }
    }
  }

  lemma PositionsOneMore(rows: seq<Row>, row: Row, column: string, keyOf: Value -> Key)
    ensures Positions(rows + [row], column, keyOf) == Positions(rows, column, keyOf) + {(keyOf(Get(row, column)), |rows|)}
  {
    var longer := rows + [row];
    forall pair ensures pair in Positions(longer, column, keyOf)
      <==> pair in Positions(rows, column, keyOf) || pair == (keyOf(Get(row, column)), |rows|)
    {
      if pair in Positions(rows, column, keyOf) {
        var i :| 0 <= i < |rows| && pair == (keyOf(Get(rows[i], column)), i);
        assert longer[i] == rows[i];
      }
      if pair == (keyOf(Get(row, column)), |rows|) {
        assert longer[|rows|] == row;
      }
    }
  }

  /** The tree files exactly these rows, each at its position. */
  ghost predicate Files(tree: BPlusTree, rows: seq<Row>, column: string, keyOf: Value -> Key)
    reads tree, tree.Repr
  {
    tree.Valid() && tree.pairs == Positions(rows, column, keyOf)
  }

  /** The trees share no node. */
  ghost predicate Apart(trees: map<string, BPlusTree>)
    reads trees.Values
  {
    forall a, b | a in trees && b in trees && a != b :: trees[a] != trees[b] && trees[a].Repr !! trees[b].Repr
  }

  ghost function Nodes(trees: map<string, BPlusTree>): set<TreeNode>
    reads trees.Values
  {
    set column, n | column in trees && n in trees[column].Repr :: n
  }

  class IndexedTable {
    /** The key an index files a value under: its canonical JSON text. */
    const keyOf: Value -> Key
    const columns: seq<Column>
    var rows: seq<Row>
    var trees: map<string, BPlusTree>

    ghost predicate Valid()
      reads this, trees.Values, Nodes(trees)
    {
      Apart(trees) && forall column | column in trees :: Files(trees[column], rows, column, keyOf)
    }

    /** The indexes file these rows, as many as the table has, whatever the table holds now. */
    ghost predicate Filing(filed: seq<Row>)
      reads this, trees.Values, Nodes(trees)
    {
      |filed| == |rows| && Apart(trees) && forall column | column in trees :: Files(trees[column], filed, column, keyOf)
    }

    constructor (columns: seq<Column>, keyOf: Value -> Key)
      ensures Valid() && rows == [] && trees == map[] && this.keyOf == keyOf && this.columns == columns
    {
      this.keyOf, this.columns := keyOf, columns;
      rows, trees := [], map[];
    }

    /** lookup_index: the indexed rows, or None where the column has no index. */
    method LookupIndex(column: string, value: Value, ghost filed: seq<Row>) returns (found: Option<seq<Row>>)
      requires Filing(filed)
      ensures found == if column in trees then Some(Found(filed, rows, column, keyOf(value), keyOf)) else None
      ensures filed == rows && column in trees ==> found == Some(Scan(rows, column, keyOf(value), keyOf))
    {
      if column !in trees {
        return None;
      }
      var tree := trees[column];
      assert Files(tree, filed, column, keyOf);
      var positions := tree.Find(keyOf(value));
      forall p ensures p in positions <==> 0 <= p < |rows| && keyOf(Get(filed[p], column)) == keyOf(value) {
        assert p in positions <==> (keyOf(value), p) in Positions(filed, column, keyOf);
      }
      PositionsAreFound(filed, rows, positions, column, keyOf(value), keyOf);
      found := Some(RowsAt(rows, positions));
      if filed == rows {
        FoundIsScan(rows, rows, column, keyOf(value), keyOf);
      }
    }

    /** One index from nothing, row by row. */
    method BuildTree(column: string) returns (tree: BPlusTree)
      ensures fresh(tree) && fresh(tree.Repr) && Files(tree, rows, column, keyOf)
    {
      hide BPlusTree.Valid, Positions;
      tree := new BPlusTree(32);
      NoPositions(column, keyOf);
      assert rows[..0] == [];
      for pos := 0 to |rows|
        invariant fresh(tree) && fresh(tree.Repr) && Files(tree, rows[..pos], column, keyOf)
      {
        tree.Insert(keyOf(Get(rows[pos], column)), pos);
        PositionsOneMore(rows[..pos], rows[pos], column, keyOf);
        assert rows[..pos] + [rows[pos]] == rows[..pos + 1];
      }
      assert rows[..|rows|] == rows;
    }

    /** rebuild_indexes: every index anew. */
    method RebuildIndexes()
      modifies this`trees
      ensures Valid() && trees.Keys == old(trees.Keys)
      ensures fresh(trees.Values) && fresh(Nodes(trees))
    {
      hide Files;
      var columns := trees.Keys;
      var built: map<string, BPlusTree> := map[];
      var todo := columns;
      while todo != {}
        invariant todo <= columns && built.Keys == columns - todo
        invariant forall column | column in built :: fresh(built[column]) && fresh(built[column].Repr)
        invariant forall column | column in built :: Files(built[column], rows, column, keyOf)
        invariant Apart(built)
      {
        var column :| column in todo;
        var tree := BuildTree(column);
        built := built[column := tree];
        todo := todo - {column};
      }
      trees := built;
    }

    /** create_index: refused for a column the table does not have. */
    method CreateIndex(column: string) returns (ok: bool)
      modifies this`trees
      ensures ok == exists c :: c in columns && c.name == column
      ensures if ok then Valid() && trees.Keys == old(trees.Keys) + {column} && fresh(trees.Values) && fresh(Nodes(trees))
              else trees == old(trees)
    {
      ok := exists c :: c in columns && c.name == column;
      if ok {
        var placeholder := new BPlusTree(32);
        trees := trees[column := placeholder];
        RebuildIndexes();
      }
    }

    /** Replay and restores, which index once they have the rows. */
    method ReplaceRows(rows': seq<Row>)
      modifies this`rows, this`trees
      ensures Valid() && rows == rows' && trees.Keys == old(trees.Keys) && fresh(trees.Values) && fresh(Nodes(trees))
    {
      rows := rows';
      RebuildIndexes();
    }

    /** insert_many, of a batch that has passed its checks. */
    method InsertMany(batch: seq<Row>)
      modifies this`rows, this`trees
      ensures Valid() && rows == old(rows) + batch && trees.Keys == old(trees.Keys)
    {
      rows := rows + batch;
      if trees != map[] {
        RebuildIndexes();
      }
    }

    /** update: the rows edited in place, then every index anew; the row that raises leaves the rows as they are by
        then, and the indexes as they were. */
    method Update(edit: Row -> Edit, ghost table: string, ghost items: seq<Item>, ghost own: seq<Row>) returns (ok: bool)
      requires rows == RowsOf(items, own) && OwnOnce(items, |own|)
      modifies this`rows, this`trees
      ensures var u := UpdateItems(table, items, own, edit); ok == u.ok && rows == RowsOf(u.items, u.own)
      ensures trees.Keys == old(trees.Keys)
      ensures if ok then Valid() else trees == old(trees) && forall filed :: old(Filing(filed)) ==> Filing(filed)
    {
      hide Files, UpdateItems, OwnOnce;
      ok := EditRows(edit, table, items, own);
      if ok {
        RebuildIndexes();
      }
    }

    /** The loop of an UPDATE. */
    method EditRows(edit: Row -> Edit, ghost table: string, ghost items: seq<Item>, ghost own: seq<Row>) returns (ok: bool)
      requires rows == RowsOf(items, own) && OwnOnce(items, |own|)
      modifies this`rows
      ensures var u := UpdateItems(table, items, own, edit); ok == u.ok && rows == RowsOf(u.items, u.own)
    {
      hide EditedTo, UpdateItems, OwnOnce;
      ghost var u := Updated([], own, [], true);
      NothingEdited(table, items, own, edit);
      for i := 0 to |rows|
        invariant |rows| == |items| && EditedTo(table, items, own, edit, i, u, rows)
      {
        var result := edit(rows[i]);
        match result {
          case Keep =>
            u := EditKeeps(table, items, own, edit, i, u, rows);
          case Change(after) =>
            u := EditChanges(table, items, own, edit, i, u, rows);
            rows := rows[i := after];
          case Fail(partial) =>
            EditStops(table, items, own, edit, i, u, rows);
            rows := rows[i := partial];
            return false;
        }
      }
      AllEdited(table, items, own, edit, u, rows);
      ok := true;
    }

    /** delete: the rows kept, then every index anew; nothing changes where the predicate raises. */
    method Delete(pick: Row -> Option<bool>, ghost items: seq<Item>, ghost own: seq<Row>) returns (ok: bool)
      requires rows == RowsOf(items, own)
      modifies this`rows, this`trees
      ensures ok == forall item | item in items :: pick(RowOf(item, own)).Some?
      ensures if ok then Valid() && trees.Keys == old(trees.Keys) && rows == RowsOf(Kept(items, own, pick), own)
              else trees == old(trees) && rows == old(rows)
    {
      ok := true;
      var kept := KeepRows(pick, items, own);
      if kept.None? {
        return false;
      }
      rows := kept.value;
      RebuildIndexes();
    }

    /** The loop of a DELETE. */
    method KeepRows(pick: Row -> Option<bool>, ghost items: seq<Item>, ghost own: seq<Row>) returns (r: Option<seq<Row>>)
      requires rows == RowsOf(items, own)
      ensures r.Some? <==> forall item | item in items :: pick(RowOf(item, own)).Some?
      ensures r.Some? ==> r.value == RowsOf(Kept(items, own, pick), own)
    {
      hide RowsOf;
      var kept := [];
      NoneKept(own, pick);
      assert items[..0] == [];
      for i := 0 to |rows|
        invariant kept == RowsOf(Kept(items[..i], own, pick), own)
        invariant forall j | 0 <= j < i :: pick(RowOf(items[j], own)).Some?
      {
        KeptOneMore(items, i, own, pick);
        RowsOfLast(Kept(items[..i], own, pick), items[i], own);
        hide Kept, RowOf;
        var picked := pick(rows[i]);
        if picked.None? {
          assert items[i] in items;
          return None;
        }
        if !picked.value {
          kept := kept + [rows[i]];
        }
      }
      assert items[..|rows|] == items;
      r := Some(kept);
    }

    /** insert: one row more, filed in every index in place, after whatever rows the indexes file. */
    method AppendRow(row: Row, ghost filed: seq<Row>)
      requires Filing(filed)
      modifies this, trees.Values, Nodes(trees)
      ensures rows == old(rows) + [row] && trees == old(trees) && Filing(filed + [row])
      ensures filed == old(rows) ==> Valid()
      ensures fresh(Nodes(trees) - old(Nodes(trees)))
    {
      hide Files, Apart, Nodes;
      NodesHold(trees);
      rows := rows + [row];
      AppendEntries(filed);
      NodesHold(trees);
    }

    method AppendEntries(ghost filed: seq<Row>)
      requires |rows| == |filed| + 1 && Apart(trees) && forall column | column in trees :: Files(trees[column], filed, column, keyOf)
      modifies trees.Values, set column, n | column in trees && n in trees[column].Repr :: n
      ensures Apart(trees) && forall column | column in trees :: Files(trees[column], filed + [rows[|filed|]], column, keyOf)
      ensures forall column | column in trees :: fresh(trees[column].Repr - old(trees[column].Repr))
    {
      hide Files, Apart;
      var todo := trees.Keys;
      while todo != {}
        invariant todo <= trees.Keys && Apart(trees)
        invariant forall column | column in todo :: Files(trees[column], filed, column, keyOf) && trees[column].Repr == old(trees[column].Repr)
        invariant forall column | column in trees.Keys - todo :: Files(trees[column], filed + [rows[|filed|]], column, keyOf)
        invariant forall column | column in trees :: fresh(trees[column].Repr - old(trees[column].Repr))
      {
        var column :| column in todo;
        AppendEntry(column, filed);
        todo := todo - {column};
      }
    }

    /** append_index_entries, one index of it: no other tree is touched. */
    method AppendEntry(column: string, ghost filed: seq<Row>)
      requires |rows| == |filed| + 1 && column in trees && Files(trees[column], filed, column, keyOf) && Apart(trees)
      modifies trees[column], trees[column].Repr
      ensures Files(trees[column], filed + [rows[|filed|]], column, keyOf) && Apart(trees)
      ensures fresh(trees[column].Repr - old(trees[column].Repr))
      ensures forall c, held | c in trees && c != column && old(Files(trees[c], held, c, keyOf)) :: Files(trees[c], held, c, keyOf)
      ensures forall c | c in trees && c != column :: trees[c].Repr == old(trees[c].Repr)
    {
      hide BPlusTree.Valid, Positions;
      var last := |rows| - 1;
      trees[column].Insert(keyOf(Get(rows[last], column)), last);
      PositionsOneMore(filed, rows[last], column, keyOf);
    }
  }

  lemma NodesHold(trees: map<string, BPlusTree>)
    ensures forall column | column in trees :: trees[column].Repr <= Nodes(trees)
    ensures forall n | n in Nodes(trees) :: exists column :: column in trees && n in trees[column].Repr
  {
  }

  lemma NoPositions(column: string, keyOf: Value -> Key)
    ensures Positions([], column, keyOf) == {}
  {
  }

  /** Rows changed under an index that is not rebuilt, as a SELECT that sorts the table's own list and an UPDATE that
      raises midway do: the index files them right, and its lookups agree with a scan, exactly when every position
      keeps its key. */
  lemma StaleIndexIff(tree: BPlusTree, rows: seq<Row>, rows': seq<Row>, column: string, keyOf: Value -> Key)
    requires |rows| == |rows'| && Files(tree, rows, column, keyOf)
    ensures Files(tree, rows', column, keyOf)
      <==> forall i | 0 <= i < |rows| :: keyOf(Get(rows[i], column)) == keyOf(Get(rows'[i], column))
    ensures (forall key :: Found(rows, rows', column, key, keyOf) == Scan(rows', column, key, keyOf))
      <==> forall i | 0 <= i < |rows| :: keyOf(Get(rows[i], column)) == keyOf(Get(rows'[i], column))
  {
    hide BPlusTree.Valid;
    LookupsRightIff(rows, rows', column, keyOf);
    if Files(tree, rows', column, keyOf) {
      forall i | 0 <= i < |rows| ensures keyOf(Get(rows[i], column)) == keyOf(Get(rows'[i], column)) {
        assert (keyOf(Get(rows[i], column)), i) in Positions(rows', column, keyOf);
      }
    }
  }

  /** Two rows sorted into the other order: a lookup of either value finds the other row. */
  lemma SortingBreaksLookup(keyOf: Value -> Key)
    requires keyOf(Int(1)) != keyOf(Int(2))
    ensures var one, two: Row := map["x" := Int(1)], map["x" := Int(2)];
      && Found([two, one], [one, two], "x", keyOf(Int(1)), keyOf) == [two]
      && Scan([one, two], "x", keyOf(Int(1)), keyOf) == [one]
  {
    var one, two: Row := map["x" := Int(1)], map["x" := Int(2)];
    OneFound(two, one, "x", keyOf(Int(1)), keyOf);
    OneFound(one, one, "x", keyOf(Int(1)), keyOf);
    assert [two, one][..1] == [two] && [one, two][..1] == [one];
  }

  lemma OneFound(filed: Row, row: Row, column: string, key: Key, keyOf: Value -> Key)
    ensures Found([filed], [row], column, key, keyOf) == if keyOf(Get(filed, column)) == key then [row] else []
    ensures Scan([row], column, key, keyOf) == if keyOf(Get(row, column)) == key then [row] else []
  {
    assert [filed][..0] == [] && [row][..0] == [];
  }
}
