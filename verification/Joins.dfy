/** Joins (novadb/optimizer.py): the hash join, the nested loop, and chains of them chosen by cost. */
module Joins {
  import opened Tables

  /** A column name: bare, or qualified by a table or an alias. */
  datatype Name = Plain(column: string) | Qualified(owner: string, column: string)

  /** A row of a relation in a join. */
  type Wide = map<Name, Value>

  function Get(row: Wide, name: Name): Value {
    if name in row then row[name] else Null
  }

  /** `over` wins on columns both rows have: dict(base).update(over). */
  function Merge(base: Wide, over: Wide): Wide {
    base + over
  }

  /** Merging either way gives the same row exactly when the rows agree on the columns they share. */
  lemma MergeCommutesIff(l: Wide, r: Wide)
    ensures Merge(l, r) == Merge(r, l) <==> forall name | name in l && name in r :: l[name] == r[name]
  {
    if forall name | name in l && name in r :: l[name] == r[name] {
      assert Merge(l, r) == Merge(r, l);
    } else {
      var name :| name in l && name in r && l[name] != r[name];
      assert Merge(l, r)[name] == r[name] && Merge(r, l)[name] == l[name];
    }
  }

  // ---------------------------------------------------------------- the two loops

  /** The key on each side, and which side's columns win. */
  datatype On = On(leftKey: Name, rightKey: Name, leftWins: bool)

  function Pair(l: Wide, r: Wide, on: On): seq<Wide> {
    if Get(l, on.leftKey) != Get(r, on.rightKey) then []
    else [if on.leftWins then Merge(r, l) else Merge(l, r)]
  }

  /** One left row against all right rows. */
  function ByLeft(l: Wide, right: seq<Wide>, on: On): seq<Wide> {
    if right == [] then [] else Pair(l, right[0], on) + ByLeft(l, right[1..], on)
  }

  function LeftLoop(left: seq<Wide>, right: seq<Wide>, on: On): seq<Wide> {
    if left == [] then [] else ByLeft(left[0], right, on) + LeftLoop(left[1..], right, on)
  }

  /** One right row against all left rows. */
  function ByRight(left: seq<Wide>, r: Wide, on: On): seq<Wide> {
    if left == [] then [] else Pair(left[0], r, on) + ByRight(left[1..], r, on)
  }

  function RightLoop(left: seq<Wide>, right: seq<Wide>, on: On): seq<Wide> {
    if right == [] then [] else ByRight(left, right[0], on) + RightLoop(left, right[1..], on)
  }

  /** nested_loop_join. */
  function NestedJoin(left: seq<Wide>, right: seq<Wide>, leftKey: Name, rightKey: Name): seq<Wide> {
    LeftLoop(left, right, On(leftKey, rightKey, false))
  }

  /** A value Python can use as a dictionary key; lists and objects it cannot. */
  predicate Hashable(v: Value) {
    !v.Json?
  }

  predicate KeysHash(rows: seq<Wide>, key: Name) {
    forall row | row in rows :: Hashable(Get(row, key))
  }

  /** hash_join: the smaller side is indexed, the other side probes it, and its columns win. None where a
      key cannot be hashed. */
  function HashJoin(left: seq<Wide>, right: seq<Wide>, leftKey: Name, rightKey: Name): Option<seq<Wide>> {
    if !KeysHash(left, leftKey) || !KeysHash(right, rightKey) then None
    else if |left| <= |right| then Some(RightLoop(left, right, On(leftKey, rightKey, false)))
    else Some(LeftLoop(left, right, On(leftKey, rightKey, true)))
  }

  lemma {:induction false} ByRightSplit(l: Wide, left: seq<Wide>, right: seq<Wide>, on: On)
    requires left != [] && left[0] == l
    ensures multiset(RightLoop(left, right, on)) == multiset(ByLeft(l, right, on)) + multiset(RightLoop(left[1..], right, on))
  {
    if right != [] {
      ByRightSplit(l, left, right[1..], on);
      var pair, more := Pair(l, right[0], on), ByRight(left[1..], right[0], on);
      assert multiset(ByRight(left, right[0], on)) == multiset(pair) + multiset(more);
    }
  }

  /** Looping over the left side outside or inside finds the same matches. */
  lemma {:induction false} LoopsAgree(left: seq<Wide>, right: seq<Wide>, on: On)
    ensures multiset(LeftLoop(left, right, on)) == multiset(RightLoop(left, right, on))
  {
    if left == [] {
      NoLeft(right, on);
    } else {
      ByRightSplit(left[0], left, right, on);
      LoopsAgree(left[1..], right, on);
    }
  }

  lemma {:induction false} NoLeft(right: seq<Wide>, on: On)
    ensures RightLoop([], right, on) == []
  {
    if right != [] { NoLeft(right[1..], on); }
  }

  // ---------------------------------------------------------------- what both sides agree on

  /** A row's part under some columns. */
  ghost function Restrict(row: Wide, columns: iset<Name>): Wide {
    map name | name in row && name in columns :: row[name]
  }

  ghost function RestrictAll(rows: seq<Wide>, columns: iset<Name>): (r: seq<Wide>)
    ensures |r| == |rows| && forall i | 0 <= i < |rows| :: r[i] == Restrict(rows[i], columns)
  {
    seq(|rows|, i requires 0 <= i < |rows| => Restrict(rows[i], columns))
  }

  /** Rows of the two sides share no column among these. */
  ghost predicate Disjoint(left: seq<Wide>, right: seq<Wide>, columns: iset<Name>) {
    forall l, r, name | l in left && r in right && name in columns :: !(name in l && name in r)
  }

  lemma RestrictPair(l: Wide, r: Wide, on: On, columns: iset<Name>)
    requires on.leftKey in columns && on.rightKey in columns
    requires forall name | name in columns :: !(name in l && name in r)
    ensures RestrictAll(Pair(l, r, on), columns) == Pair(Restrict(l, columns), Restrict(r, columns), on.(leftWins := false))
  {
    var x, y := Restrict(l, columns), Restrict(r, columns);
    assert Get(l, on.leftKey) == Get(x, on.leftKey) && Get(r, on.rightKey) == Get(y, on.rightKey);
    assert Restrict(Merge(l, r), columns) == Merge(x, y);
    assert Restrict(Merge(r, l), columns) == Merge(x, y);
  }

  lemma RestrictSum(a: seq<Wide>, b: seq<Wide>, columns: iset<Name>)
    ensures RestrictAll(a + b, columns) == RestrictAll(a, columns) + RestrictAll(b, columns)
  {
  }

  lemma {:induction false} RestrictByLeft(l: Wide, right: seq<Wide>, on: On, columns: iset<Name>)
    requires on.leftKey in columns && on.rightKey in columns && Disjoint([l], right, columns)
    ensures RestrictAll(ByLeft(l, right, on), columns) == ByLeft(Restrict(l, columns), RestrictAll(right, columns), on.(leftWins := false))
  {
    if right != [] {
      assert l in [l] && right[0] in right;
      RestrictPair(l, right[0], on, columns);
      assert Disjoint([l], right[1..], columns);
      RestrictByLeft(l, right[1..], on, columns);
      RestrictSum(Pair(l, right[0], on), ByLeft(l, right[1..], on), columns);
      assert RestrictAll(right, columns)[1..] == RestrictAll(right[1..], columns);
    }
  }

  /** Under these columns, a join sees only these columns' columns, whichever side wins elsewhere. */
  lemma {:induction false} RestrictLoop(left: seq<Wide>, right: seq<Wide>, on: On, columns: iset<Name>)
    requires on.leftKey in columns && on.rightKey in columns && Disjoint(left, right, columns)
    ensures RestrictAll(LeftLoop(left, right, on), columns)
      == LeftLoop(RestrictAll(left, columns), RestrictAll(right, columns), on.(leftWins := false))
  {
    if left != [] {
      assert left[0] in left;
      assert Disjoint([left[0]], right, columns) && Disjoint(left[1..], right, columns);
      RestrictByLeft(left[0], right, on, columns);
      RestrictLoop(left[1..], right, on, columns);
      RestrictSum(ByLeft(left[0], right, on), LeftLoop(left[1..], right, on), columns);
      assert RestrictAll(left, columns)[1..] == RestrictAll(left[1..], columns);
    }
  }

  lemma {:induction false} LoopSplit(a: seq<Wide>, b: seq<Wide>, right: seq<Wide>, on: On)
    ensures LeftLoop(a + b, right, on) == LeftLoop(a, right, on) + LeftLoop(b, right, on)
  {
    if a == [] {
      assert a + b == b;
    } else {
      assert (a + b)[0] == a[0] && (a + b)[1..] == a[1..] + b;
      LoopSplit(a[1..], b, right, on);
    }
  }

  lemma RemoveOne(a: seq<Wide>, b: seq<Wide>, i: nat)
    requires a != [] && multiset(a) == multiset(b) && i < |b| && b[i] == a[0]
    ensures multiset(a[1..]) == multiset(b[..i] + b[i + 1..])
  {
    assert a == [a[0]] + a[1..];
    assert b == b[..i] + ([b[i]] + b[i + 1..]);
    assert multiset(a) - multiset{a[0]} == multiset(a[1..]);
    assert multiset(b) - multiset{b[i]} == multiset(b[..i]) + multiset(b[i + 1..]);
  }

  /** The bag of matches depends on the bag of left rows alone. */
  lemma {:induction false} LoopBag(a: seq<Wide>, b: seq<Wide>, right: seq<Wide>, on: On)
    requires multiset(a) == multiset(b)
    ensures multiset(LeftLoop(a, right, on)) == multiset(LeftLoop(b, right, on))
    decreases |a|
  {
    if a == [] {
      assert |multiset(b)| == 0;
      assert b == [];
    } else {
      assert a[0] in multiset(b);
      var i :| 0 <= i < |b| && b[i] == a[0];
      var x, y := b[..i], b[i + 1..];
      RemoveOne(a, b, i);
      assert b == x + ([a[0]] + y);
      assert a == [a[0]] + a[1..];
      LoopBag(a[1..], x + y, right, on);
      LoopSplit(x, [a[0]] + y, right, on);
      LoopSplit(x, y, right, on);
      assert ([a[0]] + y)[1..] == y;
    }
  }

  /** A mapped bag depends on the bag. */
  lemma {:induction false} RestrictBag(a: seq<Wide>, b: seq<Wide>, columns: iset<Name>)
    requires multiset(a) == multiset(b)
    ensures multiset(RestrictAll(a, columns)) == multiset(RestrictAll(b, columns))
    decreases |a|
  {
    if a == [] {
      assert |multiset(b)| == 0;
      assert b == [];
    } else {
      assert a[0] in multiset(b);
      var i :| 0 <= i < |b| && b[i] == a[0];
      var x, y := b[..i], b[i + 1..];
      RemoveOne(a, b, i);
      assert b == x + ([a[0]] + y);
      assert a == [a[0]] + a[1..];
      RestrictBag(a[1..], x + y, columns);
      RestrictSum([a[0]], a[1..], columns);
      RestrictSum(x, [a[0]] + y, columns);
      RestrictSum([a[0]], y, columns);
      RestrictSum(x, y, columns);
    }
  }

  lemma PairWinner(l: Wide, r: Wide, on: On, columns: iset<Name>)
    requires forall name | name in columns :: !(name in l && name in r)
    ensures RestrictAll(Pair(l, r, on.(leftWins := true)), columns) == RestrictAll(Pair(l, r, on.(leftWins := false)), columns)
  {
    assert Restrict(Merge(l, r), columns) == Restrict(Merge(r, l), columns);
  }

  lemma {:induction false} ByLeftWinner(l: Wide, right: seq<Wide>, on: On, columns: iset<Name>)
    requires Disjoint([l], right, columns)
    ensures RestrictAll(ByLeft(l, right, on.(leftWins := true)), columns) == RestrictAll(ByLeft(l, right, on.(leftWins := false)), columns)
  {
    if right != [] {
      var r, t, f := right[0], on.(leftWins := true), on.(leftWins := false);
      assert l in [l] && r in right && Disjoint([l], right[1..], columns);
      ByLeftWinner(l, right[1..], on, columns);
      PairWinner(l, r, on, columns);
      hide RestrictAll, Pair;
      RestrictSum(Pair(l, r, t), ByLeft(l, right[1..], t), columns);
      RestrictSum(Pair(l, r, f), ByLeft(l, right[1..], f), columns);
    }
  }

  /** In columns that only one side has, it does not matter which side wins. */
  lemma {:induction false} LoopWinner(left: seq<Wide>, right: seq<Wide>, on: On, columns: iset<Name>)
    requires Disjoint(left, right, columns)
    ensures RestrictAll(LeftLoop(left, right, on.(leftWins := true)), columns) == RestrictAll(LeftLoop(left, right, on.(leftWins := false)), columns)
  {
    if left != [] {
      assert left[0] in left && Disjoint([left[0]], right, columns) && Disjoint(left[1..], right, columns);
      ByLeftWinner(left[0], right, on, columns);
      LoopWinner(left[1..], right, on, columns);
      var t, f := on.(leftWins := true), on.(leftWins := false);
      RestrictSum(ByLeft(left[0], right, t), LeftLoop(left[1..], right, t), columns);
      RestrictSum(ByLeft(left[0], right, f), LeftLoop(left[1..], right, f), columns);
    }
  }

  /** Hash join and nested loop find the same bag of matches, with the same values in every column that only
      one side has, for all inputs, all keys, and whichever side is indexed. */
  lemma JoinsAgree(left: seq<Wide>, right: seq<Wide>, leftKey: Name, rightKey: Name, columns: iset<Name>)
    requires Disjoint(left, right, columns) && HashJoin(left, right, leftKey, rightKey).Some?
    ensures multiset(RestrictAll(HashJoin(left, right, leftKey, rightKey).value, columns))
      == multiset(RestrictAll(NestedJoin(left, right, leftKey, rightKey), columns))
  {
    var on := On(leftKey, rightKey, false);
    LoopWinner(left, right, on, columns);
    LoopsAgree(left, right, on);
    RestrictBag(LeftLoop(left, right, on), RightLoop(left, right, on), columns);
  }

  // ---------------------------------------------------------------- a chain of joins

  /** _qualify_rows, one row: every column bare, under its table, and under its alias. */
  function Qualify(table: string, alias: string, row: map<string, Value>): Wide {
    (map column | column in row :: Plain(column) := row[column])
    + (map column | column in row :: Qualified(table, column) := row[column])
    + (map column | column in row :: Qualified(alias, column) := row[column])
  }

  function QualifyAll(table: string, alias: string, rows: seq<map<string, Value>>): (r: seq<Wide>)
    ensures |r| == |rows| && forall i | 0 <= i < |rows| :: r[i] == Qualify(table, alias, rows[i])
  {
    seq(|rows|, i requires 0 <= i < |rows| => Qualify(table, alias, rows[i]))
  }

  datatype Join = Join(table: string, alias: string, leftKey: Name, rightKey: Name)

  /** The text before the first dot of a key. */
  function Owner(key: Name): string {
    if key.Qualified? then key.owner else key.column
  }

  /** The first join that touches a known relation, or the length. */
  function Choose(joins: seq<Join>, known: set<string>): (i: nat)
    ensures i <= |joins|
  {
    if joins == [] || Owner(joins[0].leftKey) in known || Owner(joins[0].rightKey) in known then 0 else 1 + Choose(joins[1..], known)
  }

  /** Which side of the ON clause is the new relation's. */
  function Oriented(join: Join): (Name, Name) {
    if Owner(join.leftKey) in {join.alias, join.table} then (join.rightKey, join.leftKey) else (join.leftKey, join.rightKey)
  }

  /** How a step joins: by the cost comparison, or by any other rule. */
  type Strategy = (nat, nat) -> bool

  /** The planner's rule: hash when the sum of the sizes is at most their product. */
  function ByCost(n: nat, m: nat): bool {
    n + m <= n * m
  }

  /** It hashes exactly where both sides have at least two rows, or neither has any. */
  lemma ByCostIff(n: nat, m: nat)
    ensures ByCost(n, m) <==> (n >= 2 && m >= 2) || (n == 0 && m == 0)
  {
    if n >= 2 && m >= 2 {
      assert (n - 1) * (m - 1) >= 1 * (m - 1);
      assert (n - 1) * (m - 1) == n * m - n - m + 1;
    } else if n == 1 {
      assert n * m == m;
    } else if m == 1 {
      assert n * m == n;
    }
  }

  function JoinStep(strategy: Strategy, rows: seq<Wide>, relation: seq<Wide>, keys: (Name, Name)): Option<seq<Wide>> {
    if strategy(|rows|, |relation|) then HashJoin(rows, relation, keys.0, keys.1) else Some(NestedJoin(rows, relation, keys.0, keys.1))
  }

  /** The join loop of execute; None where a join connects to nothing, names no table, or cannot hash. */
  function Chain(strategy: Strategy, db: State, rows: seq<Wide>, joins: seq<Join>, known: set<string>): Option<seq<Wide>>
    decreases |joins|
  {
    if joins == [] then Some(rows)
    else
      var i := Choose(joins, known);
      if i == |joins| || joins[i].table !in db then None
      else
        var join := joins[i];
        var next := JoinStep(strategy, rows, QualifyAll(join.table, join.alias, db[join.table].rows), Oriented(join));
        if next.None? then None
        else Chain(strategy, db, next.value, joins[..i] + joins[i + 1..], known + {join.alias, join.table})
  }

  /** The columns under some owners: tables or aliases. */
  ghost function Under(owners: set<string>): iset<Name> {
    iset name: Name | name.Qualified? && name.owner in owners
  }

  predicate Names(join: Join, owner: string) {
    owner in {join.alias, join.table}
  }

  /** Each of the owners names one relation at most, whether known already or still to join, and all keys are theirs. */
  ghost predicate Distinct(joins: seq<Join>, owners: set<string>, known: set<string>) {
    && (forall i | 0 <= i < |joins| :: joins[i].leftKey in Under(owners) && joins[i].rightKey in Under(owners))
    && (forall i, owner | 0 <= i < |joins| && owner in owners && Names(joins[i], owner) :: owner !in known)
    && (forall i, j, owner | 0 <= i < j < |joins| && owner in owners && Names(joins[i], owner) :: !Names(joins[j], owner))
  }

  /** The rows' columns under the owners are those of known relations. */
  ghost predicate UsesOnly(rows: seq<Wide>, owners: set<string>, known: set<string>) {
    forall row, name | row in rows && name in row && name in Under(owners) :: name.owner in known
  }

  lemma {:induction false} LoopRows(left: seq<Wide>, right: seq<Wide>, on: On, row: Wide)
    requires row in LeftLoop(left, right, on)
    ensures exists l, r :: l in left && r in right && (row == Merge(l, r) || row == Merge(r, l))
  {
    if row in ByLeft(left[0], right, on) {
      ByLeftRows(left[0], right, on, row);
    } else {
      LoopRows(left[1..], right, on, row);
    }
  }

  lemma {:induction false} ByLeftRows(l: Wide, right: seq<Wide>, on: On, row: Wide)
    requires row in ByLeft(l, right, on)
    ensures exists r :: r in right && (row == Merge(l, r) || row == Merge(r, l))
  {
    if row in Pair(l, right[0], on) {
      assert right[0] in right;
    } else {
      ByLeftRows(l, right[1..], on, row);
    }
  }

  /** A joined row is a left row and a right row together. */
  lemma StepRows(strategy: Strategy, rows: seq<Wide>, relation: seq<Wide>, keys: (Name, Name), row: Wide)
    requires JoinStep(strategy, rows, relation, keys).Some? && row in JoinStep(strategy, rows, relation, keys).value
    ensures exists l, r :: l in rows && r in relation && (row == Merge(l, r) || row == Merge(r, l))
  {
    var on := On(keys.0, keys.1, false);
    LoopsAgree(rows, relation, on);
    assert row in RightLoop(rows, relation, on) ==> row in multiset(LeftLoop(rows, relation, on));
    if row in LeftLoop(rows, relation, on) {
      LoopRows(rows, relation, on, row);
    } else {
      LoopRows(rows, relation, on.(leftWins := true), row);
    }
  }

  /** One step, by either strategy, is the canonical join of what the aliases see. */
  lemma StepAgrees(strategy: Strategy, rows: seq<Wide>, relation: seq<Wide>, keys: (Name, Name), columns: iset<Name>)
    requires JoinStep(strategy, rows, relation, keys).Some? && Disjoint(rows, relation, columns)
    requires keys.0 in columns && keys.1 in columns
    ensures multiset(RestrictAll(JoinStep(strategy, rows, relation, keys).value, columns))
      == multiset(LeftLoop(RestrictAll(rows, columns), RestrictAll(relation, columns), On(keys.0, keys.1, false)))
  {
    RestrictLoop(rows, relation, On(keys.0, keys.1, false), columns);
    if strategy(|rows|, |relation|) {
      JoinsAgree(rows, relation, keys.0, keys.1, columns);
    }
  }

  lemma RelationColumns(table: string, alias: string, rows: seq<map<string, Value>>, owners: set<string>)
    ensures UsesOnly(QualifyAll(table, alias, rows), owners, {alias, table})
  {
  }

  /** The rows of a step use one relation more. */
  lemma StepUses(strategy: Strategy, rows: seq<Wide>, relation: seq<Wide>, keys: (Name, Name), owners: set<string>, known: set<string>, names: set<string>)
    requires JoinStep(strategy, rows, relation, keys).Some? && UsesOnly(rows, owners, known) && UsesOnly(relation, owners, names)
    ensures UsesOnly(JoinStep(strategy, rows, relation, keys).value, owners, known + names)
  {
    var joined := JoinStep(strategy, rows, relation, keys).value;
    forall row, name | row in joined && name in row && name in Under(owners) ensures name.owner in known + names {
      StepRows(strategy, rows, relation, keys, row);
      var l, r :| l in rows && r in relation && (row == Merge(l, r) || row == Merge(r, l));
      assert name in l || name in r;
    }
  }

  lemma SidesDisjoint(rows: seq<Wide>, relation: seq<Wide>, owners: set<string>, known: set<string>, names: set<string>)
    requires UsesOnly(rows, owners, known) && UsesOnly(relation, owners, names)
    requires forall owner | owner in owners && owner in names :: owner !in known
    ensures Disjoint(rows, relation, Under(owners))
  {
  }

  lemma DistinctRest(joins: seq<Join>, i: nat, owners: set<string>, known: set<string>)
    requires Distinct(joins, owners, known) && i < |joins|
    ensures Distinct(joins[..i] + joins[i + 1..], owners, known + {joins[i].alias, joins[i].table})
    ensures var keys := Oriented(joins[i]); keys.0 in Under(owners) && keys.1 in Under(owners)
    ensures forall owner | owner in owners && owner in {joins[i].alias, joins[i].table} :: owner !in known
  {
    var rest := joins[..i] + joins[i + 1..];
    forall k | 0 <= k < |rest| ensures rest[k] == joins[if k < i then k else k + 1] {
    }
    forall k, owner | 0 <= k < |rest| && owner in owners && Names(rest[k], owner) ensures owner !in {joins[i].alias, joins[i].table} {
      assert !Names(joins[i], owner);
    }
    assert forall owner | owner in {joins[i].alias, joins[i].table} :: Names(joins[i], owner);
  }

  /** Rows that the owners cannot tell apart. */
  ghost predicate Alike(rows1: seq<Wide>, rows2: seq<Wide>, owners: set<string>) {
    multiset(RestrictAll(rows1, Under(owners))) == multiset(RestrictAll(rows2, Under(owners)))
  }

  /** The rows of two runs before a step, and what the owners say of them. */
  ghost predicate Paired(rows1: seq<Wide>, rows2: seq<Wide>, owners: set<string>, known: set<string>) {
    Alike(rows1, rows2, owners) && UsesOnly(rows1, owners, known) && UsesOnly(rows2, owners, known)
  }

  /** One step from such rows, by any two strategies that both answer, ends in such rows. */
  lemma StepsAgree(s1: Strategy, s2: Strategy, rows1: seq<Wide>, rows2: seq<Wide>, relation: seq<Wide>, keys: (Name, Name),
                   owners: set<string>, known: set<string>, names: set<string>)
    requires Paired(rows1, rows2, owners, known) && UsesOnly(relation, owners, names)
    requires forall owner | owner in owners && owner in names :: owner !in known
    requires keys.0 in Under(owners) && keys.1 in Under(owners)
    requires JoinStep(s1, rows1, relation, keys).Some? && JoinStep(s2, rows2, relation, keys).Some?
    ensures Paired(JoinStep(s1, rows1, relation, keys).value, JoinStep(s2, rows2, relation, keys).value, owners, known + names)
  {
    hide RestrictAll, UsesOnly, LeftLoop, JoinStep, Under;
    var columns := Under(owners);
    SidesDisjoint(rows1, relation, owners, known, names);
    SidesDisjoint(rows2, relation, owners, known, names);
    StepAgrees(s1, rows1, relation, keys, columns);
    StepAgrees(s2, rows2, relation, keys, columns);
    LoopBag(RestrictAll(rows1, columns), RestrictAll(rows2, columns), RestrictAll(relation, columns), On(keys.0, keys.1, false));
    StepUses(s1, rows1, relation, keys, owners, known, names);
    StepUses(s2, rows2, relation, keys, owners, known, names);
  }

  /** Chains from rows that the owners cannot tell apart end in rows that the owners cannot tell apart. */
  lemma {:induction false} ChainsAgree(s1: Strategy, s2: Strategy, db: State, rows1: seq<Wide>, rows2: seq<Wide>, joins: seq<Join>,
                                       known: set<string>, owners: set<string>)
    requires Distinct(joins, owners, known) && Paired(rows1, rows2, owners, known)
    requires Chain(s1, db, rows1, joins, known).Some? && Chain(s2, db, rows2, joins, known).Some?
    ensures Alike(Chain(s1, db, rows1, joins, known).value, Chain(s2, db, rows2, joins, known).value, owners)
    decreases |joins|
  {
    hide Distinct, UsesOnly, JoinStep, Oriented, Under, Alike;
    if joins != [] {
      var i := Choose(joins, known);
      var join := joins[i];
      var relation := QualifyAll(join.table, join.alias, db[join.table].rows);
      var keys := Oriented(join);
      DistinctRest(joins, i, owners, known);
      RelationColumns(join.table, join.alias, db[join.table].rows, owners);
      StepsAgree(s1, s2, rows1, rows2, relation, keys, owners, known, {join.alias, join.table});
      ChainsAgree(s1, s2, db, JoinStep(s1, rows1, relation, keys).value, JoinStep(s2, rows2, relation, keys).value,
                  joins[..i] + joins[i + 1..], known + {join.alias, join.table}, owners);
    }
  }

  /** The join loop of execute, from the base table. */
  function Execute(strategy: Strategy, db: State, table: string, alias: string, joins: seq<Join>): Option<seq<Wide>> {
    if table !in db then None
    else Chain(strategy, db, QualifyAll(table, alias, db[table].rows), joins, {alias, table})
  }

  /** The choice between hash join and nested loop, by cost or by any rule, step by step, never changes what an
      answer holds in the columns of owners that name one relation each. */
  lemma StrategyDoesNotMatter(s1: Strategy, s2: Strategy, db: State, table: string, alias: string, joins: seq<Join>, owners: set<string>)
    requires Distinct(joins, owners, {alias, table})
    requires Execute(s1, db, table, alias, joins).Some? && Execute(s2, db, table, alias, joins).Some?
    ensures multiset(RestrictAll(Execute(s1, db, table, alias, joins).value, Under(owners)))
      == multiset(RestrictAll(Execute(s2, db, table, alias, joins).value, Under(owners)))
  {
    hide Distinct, Chain, UsesOnly;
    var rows := QualifyAll(table, alias, db[table].rows);
    RelationColumns(table, alias, db[table].rows, owners);
    ChainsAgree(s1, s2, db, rows, rows, joins, {alias, table}, owners);
  }

  // ---------------------------------------------------------------- whether it answers

  function Nested(): Strategy {
    (n: nat, m: nat) => false
  }

  /** Along the nested loops: at each step that `strategy` would hash, the keys of both sides can be. */
  predicate Hashes(strategy: Strategy, db: State, rows: seq<Wide>, joins: seq<Join>, known: set<string>)
    decreases |joins|
  {
    if joins == [] then true
    else
      var i := Choose(joins, known);
      if i == |joins| || joins[i].table !in db then true
      else
        var join := joins[i];
        var relation := QualifyAll(join.table, join.alias, db[join.table].rows);
        var keys := Oriented(join);
        && (strategy(|rows|, |relation|) ==> KeysHash(rows, keys.0) && KeysHash(relation, keys.1))
        && Hashes(strategy, db, NestedJoin(rows, relation, keys.0, keys.1), joins[..i] + joins[i + 1..], known + {join.alias, join.table})
  }

  lemma AlikeLength(rows1: seq<Wide>, rows2: seq<Wide>, owners: set<string>)
    requires Alike(rows1, rows2, owners)
    ensures |rows1| == |rows2|
  {
    assert |multiset(RestrictAll(rows1, Under(owners)))| == |rows1|;
  }

  lemma AlikeHashes(rows1: seq<Wide>, rows2: seq<Wide>, owners: set<string>, key: Name)
    requires Alike(rows1, rows2, owners) && key in Under(owners) && KeysHash(rows1, key)
    ensures KeysHash(rows2, key)
  {
    hide Under;
    var a, b := RestrictAll(rows1, Under(owners)), RestrictAll(rows2, Under(owners));
    forall row | row in rows2 ensures Hashable(Get(row, key)) {
      var i :| 0 <= i < |rows2| && rows2[i] == row;
      assert b[i] in multiset(b) && b[i] in multiset(a);
      var k :| 0 <= k < |a| && a[k] == b[i];
      assert Get(row, key) == Get(b[i], key) == Get(rows1[k], key) && rows1[k] in rows1;
    }
  }

  lemma StepAnswersIff(strategy: Strategy, rows1: seq<Wide>, rows2: seq<Wide>, relation: seq<Wide>, keys: (Name, Name), owners: set<string>)
    requires Alike(rows1, rows2, owners) && keys.0 in Under(owners)
    ensures JoinStep(strategy, rows1, relation, keys).Some?
      <==> (strategy(|rows2|, |relation|) ==> KeysHash(rows2, keys.0) && KeysHash(relation, keys.1))
  {
    hide Alike, Under, KeysHash;
    AlikeLength(rows1, rows2, owners);
    if KeysHash(rows1, keys.0) { AlikeHashes(rows1, rows2, owners, keys.0); }
    AlikeBack(rows1, rows2, owners);
    if KeysHash(rows2, keys.0) { AlikeHashes(rows2, rows1, owners, keys.0); }
  }

  lemma AlikeBack(rows1: seq<Wide>, rows2: seq<Wide>, owners: set<string>)
    requires Alike(rows1, rows2, owners)
    ensures Alike(rows2, rows1, owners)
  {
  }

  /** A chain answers exactly when the nested loops would and every key that it hashes can be hashed. */
  lemma {:induction false} ChainAnswersIff(strategy: Strategy, db: State, rows1: seq<Wide>, rows2: seq<Wide>, joins: seq<Join>,
                                           known: set<string>, owners: set<string>)
    requires Distinct(joins, owners, known) && Paired(rows1, rows2, owners, known)
    ensures Chain(strategy, db, rows1, joins, known).Some?
      <==> Chain(Nested(), db, rows2, joins, known).Some? && Hashes(strategy, db, rows2, joins, known)
    decreases |joins|
  {
    hide Distinct, UsesOnly, JoinStep, Oriented, Under, Alike, KeysHash;
    var i := Choose(joins, known);
    if joins != [] && i < |joins| && joins[i].table in db {
      var join := joins[i];
      var relation := QualifyAll(join.table, join.alias, db[join.table].rows);
      var keys := Oriented(join);
      var rest, known' := joins[..i] + joins[i + 1..], known + {join.alias, join.table};
      DistinctRest(joins, i, owners, known);
      StepAnswersIff(strategy, rows1, rows2, relation, keys, owners);
      NestedStep(rows2, relation, keys);
      if JoinStep(strategy, rows1, relation, keys).Some? {
        RelationColumns(join.table, join.alias, db[join.table].rows, owners);
        StepsAgree(strategy, Nested(), rows1, rows2, relation, keys, owners, known, {join.alias, join.table});
        ChainAnswersIff(strategy, db, JoinStep(strategy, rows1, relation, keys).value, NestedJoin(rows2, relation, keys.0, keys.1), rest, known', owners);
      }
    }
  }

  lemma NestedStep(rows: seq<Wide>, relation: seq<Wide>, keys: (Name, Name))
    ensures JoinStep(Nested(), rows, relation, keys) == Some(NestedJoin(rows, relation, keys.0, keys.1))
  {
  }

  /** Whatever rule chooses, step by step, between hash join and nested loop: the chain answers exactly when it answers
      by nested loops alone and, at every step that the rule hashes there, no key is a list or an object. It then
      answers the same. */
  lemma StrategyAnswersIff(strategy: Strategy, db: State, table: string, alias: string, joins: seq<Join>, owners: set<string>)
    requires Distinct(joins, owners, {alias, table})
    ensures var r, nested := Execute(strategy, db, table, alias, joins), Execute(Nested(), db, table, alias, joins);
      && (r.Some? <==> nested.Some? && Hashes(strategy, db, QualifyAll(table, alias, db[table].rows), joins, {alias, table}))
      && (r.Some? ==> multiset(RestrictAll(r.value, Under(owners))) == multiset(RestrictAll(nested.value, Under(owners))))
  {
    hide Distinct, Chain, UsesOnly, Hashes, RestrictAll, Under;
    if table in db {
      var rows := QualifyAll(table, alias, db[table].rows);
      RelationColumns(table, alias, db[table].rows, owners);
      ChainAnswersIff(strategy, db, rows, rows, joins, {alias, table}, owners);
      if Execute(strategy, db, table, alias, joins).Some? {
        StrategyDoesNotMatter(strategy, Nested(), db, table, alias, joins, owners);
      }
    }
  }

  /** The planner's own rule. */
  lemma ExecuteAnswersIff(db: State, table: string, alias: string, joins: seq<Join>, owners: set<string>)
    requires Distinct(joins, owners, {alias, table})
    ensures var r, nested := Execute(ByCost, db, table, alias, joins), Execute(Nested(), db, table, alias, joins);
      && (r.Some? <==> nested.Some? && Hashes(ByCost, db, QualifyAll(table, alias, db[table].rows), joins, {alias, table}))
      && (r.Some? ==> multiset(RestrictAll(r.value, Under(owners))) == multiset(RestrictAll(nested.value, Under(owners))))
  {
    StrategyAnswersIff(ByCost, db, table, alias, joins, owners);
  }

  ghost predicate RowsHash(rows: seq<Wide>) {
    forall row, name | row in rows && name in row :: Hashable(row[name])
  }

  /** No table that is joined holds lists or objects. */
  ghost predicate CellsHash(db: State, tables: set<string>) {
    forall table, row, column | table in tables && table in db && row in db[table].rows && column in row :: Hashable(row[column])
  }

  function TablesOf(joins: seq<Join>): set<string> {
    set i | 0 <= i < |joins| :: joins[i].table
  }

  lemma RelationHashes(db: State, tables: set<string>, table: string, alias: string)
    requires CellsHash(db, tables) && table in db && table in tables
    ensures RowsHash(QualifyAll(table, alias, db[table].rows))
  {
  }

  lemma NestedHashes(rows: seq<Wide>, relation: seq<Wide>, keys: (Name, Name))
    requires RowsHash(rows) && RowsHash(relation)
    ensures RowsHash(NestedJoin(rows, relation, keys.0, keys.1))
  {
    NestedStep(rows, relation, keys);
    forall row, name | row in NestedJoin(rows, relation, keys.0, keys.1) && name in row ensures Hashable(row[name]) {
      StepRows(Nested(), rows, relation, keys, row);
      var l, r :| l in rows && r in relation && (row == Merge(l, r) || row == Merge(r, l));
      assert name in l || name in r;
    }
  }

  lemma KeysOfHashed(rows: seq<Wide>, key: Name)
    requires RowsHash(rows)
    ensures KeysHash(rows, key)
  {
  }

  lemma {:induction false} CleanChainHashes(strategy: Strategy, db: State, tables: set<string>, rows: seq<Wide>, joins: seq<Join>, known: set<string>)
    requires CellsHash(db, tables) && TablesOf(joins) <= tables && RowsHash(rows)
    ensures Hashes(strategy, db, rows, joins, known)
    decreases |joins|
  {
    hide CellsHash, RowsHash, KeysHash, QualifyAll, Oriented, NestedJoin;
    var i := Choose(joins, known);
    if joins != [] && i < |joins| && joins[i].table in db {
      var join := joins[i];
      var relation := QualifyAll(join.table, join.alias, db[join.table].rows);
      var keys := Oriented(join);
      assert join.table in TablesOf(joins);
      RelationHashes(db, tables, join.table, join.alias);
      KeysOfHashed(rows, keys.0);
      KeysOfHashed(relation, keys.1);
      NestedHashes(rows, relation, keys);
      var rest := joins[..i] + joins[i + 1..];
      assert forall k | 0 <= k < |rest| :: rest[k] == joins[if k < i then k else k + 1];
      CleanChainHashes(strategy, db, tables, NestedJoin(rows, relation, keys.0, keys.1), rest, known + {join.alias, join.table});
    }
  }

  /** So where no joined table holds lists or objects, every strategy refuses the same chains and answers the same. */
  lemma StrategyNeverMatters(s1: Strategy, s2: Strategy, db: State, table: string, alias: string, joins: seq<Join>, owners: set<string>)
    requires CellsHash(db, TablesOf(joins) + {table}) && Distinct(joins, owners, {alias, table})
    ensures var r1, r2 := Execute(s1, db, table, alias, joins), Execute(s2, db, table, alias, joins);
      && (r1.Some? <==> r2.Some?)
      && (r1.Some? ==> multiset(RestrictAll(r1.value, Under(owners))) == multiset(RestrictAll(r2.value, Under(owners))))
  {
    hide Distinct, CellsHash, RowsHash, RestrictAll, Chain, Hashes, TablesOf;
    if table in db {
      RelationHashes(db, TablesOf(joins) + {table}, table, alias);
      var rows := QualifyAll(table, alias, db[table].rows);
      CleanChainHashes(s1, db, TablesOf(joins) + {table}, rows, joins, {alias, table});
      CleanChainHashes(s2, db, TablesOf(joins) + {table}, rows, joins, {alias, table});
      StrategyAnswersIff(s1, db, table, alias, joins, owners);
      StrategyAnswersIff(s2, db, table, alias, joins, owners);
    }
  }

  /** A list or an object under a key fails the hash join; the nested loop compares it. */
  lemma StrategyMatters(document: string, name: Name)
    ensures var rows: seq<Wide> := [map[name := Json(document)]];
      && JoinStep((n, m) => true, rows, rows, (name, name)).None?
      && JoinStep((n, m) => false, rows, rows, (name, name)) == Some(rows)
  {
    var row: Wide := map[name := Json(document)];
    var on := On(name, name, false);
    assert row in [row] && [row][1..] == [];
    assert Merge(row, row) == row && Pair(row, row, on) == [row];
    assert ByLeft(row, [], on) == [] && ByLeft(row, [row], on) == [row];
    assert LeftLoop([], [row], on) == [] && LeftLoop([row], [row], on) == [row];
  }
}
