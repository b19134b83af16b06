/** What a chain of joins answers (novadb/optimizer.py): the combinations of one row from each relation that agree on
    the two keys of every ON clause; and when it answers at all. */
module JoinMeaning {
  import opened Tables
  import opened Joins

  // ---------------------------------------------------------------- combinations

  /** One row with each row of a relation. */
  function WithEach(row: Wide, part: seq<Wide>): seq<Wide> {
    if part == [] then [] else [Merge(row, part[0])] + WithEach(row, part[1..])
  }

  function Cross(rows: seq<Wide>, part: seq<Wide>): seq<Wide> {
    if rows == [] then [] else WithEach(rows[0], part) + Cross(rows[1..], part)
  }

  /** One row from each relation, in all ways. */
  function CrossAll(rows: seq<Wide>, parts: seq<seq<Wide>>): seq<Wide>
    decreases |parts|
  {
    if parts == [] then rows else CrossAll(Cross(rows, parts[0]), parts[1..])
  }

  /** The two keys of every ON clause hold equal values. */
  predicate Meets(row: Wide, joins: seq<Join>) {
    forall join | join in joins :: Get(row, join.leftKey) == Get(row, join.rightKey)
  }

  function Meeting(rows: seq<Wide>, joins: seq<Join>): seq<Wide> {
    if rows == [] then [] else (if Meets(rows[0], joins) then [rows[0]] else []) + Meeting(rows[1..], joins)
  }

  // ---------------------------------------------------------------- bags

  lemma {:induction false} CrossSplit(a: seq<Wide>, b: seq<Wide>, part: seq<Wide>)
    ensures Cross(a + b, part) == Cross(a, part) + Cross(b, part)
  {
    if a == [] {
      assert a + b == b;
    } else {
      assert (a + b)[1..] == a[1..] + b;
      CrossSplit(a[1..], b, part);
    }
  }

  lemma CrossMoved(row: Wide, x: seq<Wide>, y: seq<Wide>, part: seq<Wide>)
    ensures multiset(Cross(x + ([row] + y), part)) == multiset(Cross([row], part)) + multiset(Cross(x + y, part))
  {
    hide Cross;
    CrossSplit(x, [row] + y, part);
    CrossSplit([row], y, part);
    CrossSplit(x, y, part);
  }

  /** The bag of combinations depends on the bag of rows. */
  lemma {:induction false} CrossBag(a: seq<Wide>, b: seq<Wide>, part: seq<Wide>)
    requires multiset(a) == multiset(b)
    ensures multiset(Cross(a, part)) == multiset(Cross(b, part))
    decreases |a|
  {
    hide Cross, WithEach;
    if a == [] {
      assert |multiset(b)| == 0;
      assert b == [];
    } else {
      assert a[0] in multiset(b);
      var i :| 0 <= i < |b| && b[i] == a[0];
      var x, y := b[..i], b[i + 1..];
      RemoveOne(a, b, i);
      CrossBag(a[1..], x + y, part);
      assert b == x + ([a[0]] + y) && a == [a[0]] + a[1..];
      CrossSplit([a[0]], a[1..], part);
      CrossMoved(a[0], x, y, part);
    }
  }

  lemma {:induction false} CrossAllBag(a: seq<Wide>, b: seq<Wide>, parts: seq<seq<Wide>>)
    requires multiset(a) == multiset(b)
    ensures multiset(CrossAll(a, parts)) == multiset(CrossAll(b, parts))
    decreases |parts|
  {
    if parts != [] {
      CrossBag(a, b, parts[0]);
      CrossAllBag(Cross(a, parts[0]), Cross(b, parts[0]), parts[1..]);
    }
  }

  lemma MeetingCons(row: Wide, rows: seq<Wide>, joins: seq<Join>)
    ensures Meeting([row] + rows, joins) == (if Meets(row, joins) then [row] else []) + Meeting(rows, joins)
  {
    hide Meets;
    var all := [row] + rows;
    assert all[0] == row && all[1..] == rows;
  }

  lemma {:induction false} MeetingSplit(a: seq<Wide>, b: seq<Wide>, joins: seq<Join>)
    ensures Meeting(a + b, joins) == Meeting(a, joins) + Meeting(b, joins)
  {
    hide Meets, Meeting;
    if a == [] {
      assert a + b == b;
      NoneMeeting(joins);
    } else {
      assert a == [a[0]] + a[1..] && a + b == [a[0]] + (a[1..] + b);
      MeetingSplit(a[1..], b, joins);
      MeetingCons(a[0], a[1..], joins);
      MeetingCons(a[0], a[1..] + b, joins);
    }
  }

  lemma MeetingMoved(row: Wide, x: seq<Wide>, y: seq<Wide>, joins: seq<Join>)
    ensures multiset(Meeting(x + ([row] + y), joins)) == multiset(Meeting([row], joins)) + multiset(Meeting(x + y, joins))
  {
    hide Meeting;
    MeetingSplit(x, [row] + y, joins);
    MeetingSplit([row], y, joins);
    MeetingSplit(x, y, joins);
  }

  lemma {:induction false} MeetingBag(a: seq<Wide>, b: seq<Wide>, joins: seq<Join>)
    requires multiset(a) == multiset(b)
    ensures multiset(Meeting(a, joins)) == multiset(Meeting(b, joins))
    decreases |a|
  {
    hide Meeting;
    if a == [] {
      assert |multiset(b)| == 0;
      assert b == [];
    } else {
      assert a[0] in multiset(b);
      var i :| 0 <= i < |b| && b[i] == a[0];
      var x, y := b[..i], b[i + 1..];
      RemoveOne(a, b, i);
      MeetingBag(a[1..], x + y, joins);
      assert b == x + ([a[0]] + y) && a == [a[0]] + a[1..];
      MeetingSplit([a[0]], a[1..], joins);
      MeetingMoved(a[0], x, y, joins);
    }
  }

  // ---------------------------------------------------------------- the order of relations

  lemma MergesSwap(l: Wide, x: Wide, b: Wide)
    requires forall name | name in b :: name !in x
    ensures Merge(Merge(l, x), b) == Merge(Merge(l, b), x)
  {
  }

  lemma WithOne(row: Wide, x: Wide)
    ensures WithEach(row, [x]) == [Merge(row, x)]
  {
    assert [x][1..] == [] && WithEach(row, []) == [];
  }

  lemma CrossOne(row: Wide, rows: seq<Wide>, x: Wide)
    ensures Cross([row] + rows, [x]) == [Merge(row, x)] + Cross(rows, [x])
  {
    hide WithEach, Merge;
    WithOne(row, x);
    var all := [row] + rows;
    assert all[1..] == rows && all[0] == row;
    assert Cross(all, [x]) == WithEach(row, [x]) + Cross(rows, [x]);
  }

  /** Merging a row with each row of a relation, one of another before or after. */
  lemma {:induction false} WithEachSwaps(l: Wide, x: Wide, q: seq<Wide>)
    requires forall b, name | b in q && name in b :: name !in x
    ensures WithEach(Merge(l, x), q) == Cross(WithEach(l, q), [x])
  {
    hide Merge;
    if q != [] {
      var b := q[0];
      assert b in q;
      WithEachSwaps(l, x, q[1..]);
      MergesSwap(l, x, b);
      CrossOne(Merge(l, b), WithEach(l, q[1..]), x);
      hide Cross;
    }
  }

  lemma {:induction false} CrossCons(rows: seq<Wide>, x: Wide, p: seq<Wide>)
    ensures multiset(Cross(rows, [x] + p)) == multiset(Cross(rows, [x])) + multiset(Cross(rows, p))
  {
    if rows != [] {
      CrossCons(rows[1..], x, p);
      assert ([x] + p)[1..] == p && [x][1..] == [];
      assert WithEach(rows[0], [x] + p) == [Merge(rows[0], x)] + WithEach(rows[0], p);
      assert WithEach(rows[0], [x]) == [Merge(rows[0], x)] + WithEach(rows[0], []);
    }
  }

  /** Two relations without a shared column may be crossed in either order. */
  lemma {:induction false} CrossSwaps(l: Wide, p: seq<Wide>, q: seq<Wide>)
    requires forall a, b, name | a in p && b in q && name in b :: name !in a
    ensures multiset(Cross(WithEach(l, p), q)) == multiset(Cross(WithEach(l, q), p))
  {
    if p == [] {
      CrossNothing(WithEach(l, q));
    } else {
      var x := p[0];
      assert x in p && p == [x] + p[1..];
      CrossSwaps(l, p[1..], q);
      WithEachSwaps(l, x, q);
      CrossCons(WithEach(l, q), x, p[1..]);
      assert ([Merge(l, x)] + WithEach(l, p[1..]))[1..] == WithEach(l, p[1..]);
    }
  }

  lemma {:induction false} CrossNothing(rows: seq<Wide>)
    ensures Cross(rows, []) == []
  {
    if rows != [] { CrossNothing(rows[1..]); }
  }

  lemma {:induction false} CrossTwice(rows: seq<Wide>, p: seq<Wide>, q: seq<Wide>)
    requires forall a, b, name | a in p && b in q && name in b :: name !in a
    ensures multiset(Cross(Cross(rows, p), q)) == multiset(Cross(Cross(rows, q), p))
  {
    if rows != [] {
      hide WithEach;
      CrossTwice(rows[1..], p, q);
      CrossSwaps(rows[0], p, q);
      CrossSplit(WithEach(rows[0], p), Cross(rows[1..], p), q);
      CrossSplit(WithEach(rows[0], q), Cross(rows[1..], q), p);
    }
  }

  /** No column is in two of the relations. */
  ghost predicate PartsApart(parts: seq<seq<Wide>>) {
    forall i, j, a, b, name | 0 <= i < j < |parts| && a in parts[i] && b in parts[j] && name in b :: name !in a
  }

  /** Any relation may be crossed first. */
  lemma {:induction false} CrossFirst(rows: seq<Wide>, parts: seq<seq<Wide>>, i: nat)
    requires i < |parts| && PartsApart(parts)
    ensures multiset(CrossAll(rows, parts)) == multiset(CrossAll(Cross(rows, parts[i]), parts[..i] + parts[i + 1..]))
    decreases |parts|
  {
    hide Cross;
    if i == 0 {
      assert parts[..0] + parts[1..] == parts[1..];
    } else {
      var a, x, rest := parts[0], parts[i], parts[1..];
      assert PartsApart(rest);
      CrossFirst(Cross(rows, a), rest, i - 1);
      var others := rest[..i - 1] + rest[i..];
      CrossTwice(rows, a, x);
      CrossAllBag(Cross(Cross(rows, a), x), Cross(Cross(rows, x), a), others);
      assert parts[..i] + parts[i + 1..] == [a] + others;
      assert ([a] + others)[1..] == others;
    }
  }

  // ---------------------------------------------------------------- where clauses are checked

  /** Equal keys on the two sides are what the clause says of the combination. */
  ghost predicate Tests(keys: (Name, Name), l: Wide, r: Wide, clause: Join) {
    Get(l, keys.0) == Get(r, keys.1) <==> Meets(Merge(l, r), [clause])
  }

  lemma {:induction false} ByLeftMeets(l: Wide, right: seq<Wide>, keys: (Name, Name), clause: Join)
    requires forall r | r in right :: Tests(keys, l, r, clause)
    ensures ByLeft(l, right, On(keys.0, keys.1, false)) == Meeting(WithEach(l, right), [clause])
  {
    hide Meets, Merge;
    if right != [] {
      assert right[0] in right && Tests(keys, l, right[0], clause);
      ByLeftMeets(l, right[1..], keys, clause);
      MeetingCons(Merge(l, right[0]), WithEach(l, right[1..]), [clause]);
    }
  }

  /** A nested loop keeps the combinations that meet the clause. */
  lemma {:induction false} LoopMeets(left: seq<Wide>, right: seq<Wide>, keys: (Name, Name), clause: Join)
    requires forall l, r | l in left && r in right :: Tests(keys, l, r, clause)
    ensures LeftLoop(left, right, On(keys.0, keys.1, false)) == Meeting(Cross(left, right), [clause])
  {
    hide Tests, Meets, WithEach, ByLeft, Meeting;
    if left == [] {
      NoneMeeting([clause]);
    } else {
      assert left[0] in left;
      ByLeftMeets(left[0], right, keys, clause);
      LoopMeets(left[1..], right, keys, clause);
      MeetingSplit(WithEach(left[0], right), Cross(left[1..], right), [clause]);
    }
  }

  lemma NoneMeeting(joins: seq<Join>)
    ensures Meeting([], joins) == []
  {
  }

  lemma {:induction false} WithEachMeeting(l: Wide, part: seq<Wide>, join: Join)
    requires forall r | r in part :: join.leftKey !in r && join.rightKey !in r
    ensures Meeting(WithEach(l, part), [join]) == if Meets(l, [join]) then WithEach(l, part) else []
  {
    if part != [] {
      assert part[0] in part && join in [join];
      WithEachMeeting(l, part[1..], join);
      assert Meets(Merge(l, part[0]), [join]) <==> Meets(l, [join]) by {
        assert Get(Merge(l, part[0]), join.leftKey) == Get(l, join.leftKey);
        assert Get(Merge(l, part[0]), join.rightKey) == Get(l, join.rightKey);
      }
      var rest := WithEach(l, part[1..]);
      assert ([Merge(l, part[0])] + rest)[1..] == rest;
    }
  }

  lemma {:induction false} CrossMeeting(rows: seq<Wide>, part: seq<Wide>, join: Join)
    requires forall r | r in part :: join.leftKey !in r && join.rightKey !in r
    ensures Cross(Meeting(rows, [join]), part) == Meeting(Cross(rows, part), [join])
  {
    hide Meets, WithEach;
    if rows != [] {
      var rest := Meeting(rows[1..], [join]);
      CrossMeeting(rows[1..], part, join);
      WithEachMeeting(rows[0], part, join);
      MeetingSplit(WithEach(rows[0], part), Cross(rows[1..], part), [join]);
      assert ([rows[0]] + rest)[1..] == rest && [] + rest == rest;
    }
  }

  /** No row has a column of the join's clause. */
  ghost predicate Lack(parts: seq<seq<Wide>>, join: Join) {
    forall i, r | 0 <= i < |parts| && r in parts[i] :: join.leftKey !in r && join.rightKey !in r
  }

  /** A clause on columns that later relations do not have may be checked before or after them. */
  lemma {:induction false} CrossAllMeeting(rows: seq<Wide>, parts: seq<seq<Wide>>, join: Join)
    requires Lack(parts, join)
    ensures CrossAll(Meeting(rows, [join]), parts) == Meeting(CrossAll(rows, parts), [join])
    decreases |parts|
  {
    hide Meeting, Cross;
    if parts != [] {
      CrossMeeting(rows, parts[0], join);
      forall i, r | 0 <= i < |parts| - 1 && r in parts[1..][i] ensures join.leftKey !in r && join.rightKey !in r {
        assert r in parts[i + 1];
      }
      CrossAllMeeting(Cross(rows, parts[0]), parts[1..], join);
    }
  }

  /** The clauses of `joins` are that of `join` and those of the rest. */
  ghost predicate Splits(joins: seq<Join>, join: Join, rest: seq<Join>) {
    forall j :: j in joins <==> j == join || j in rest
  }

  lemma MeetsBoth(row: Wide, join: Join, rest: seq<Join>, joins: seq<Join>)
    requires Splits(joins, join, rest)
    ensures Meets(row, joins) <==> Meets(row, [join]) && Meets(row, rest)
  {
    assert join in [join] && join in joins;
  }

  lemma {:induction false} MeetingBoth(rows: seq<Wide>, join: Join, rest: seq<Join>, joins: seq<Join>)
    requires Splits(joins, join, rest)
    ensures Meeting(Meeting(rows, [join]), rest) == Meeting(rows, joins)
  {
    hide Meets, Splits, Meeting;
    if rows == [] {
      NoneMeeting([join]);
      NoneMeeting(rest);
      NoneMeeting(joins);
    } else {
      var row, others := rows[0], rows[1..];
      assert rows == [row] + others;
      MeetingBoth(others, join, rest, joins);
      MeetsBoth(row, join, rest, joins);
      MeetingCons(row, others, [join]);
      MeetingCons(row, others, joins);
      MeetingCons(row, Meeting(others, [join]), rest);
      assert [] + Meeting(others, [join]) == Meeting(others, [join]);
    }
  }

  // ---------------------------------------------------------------- a chain

  /** The rows of a table, none where there is no such table. */
  function RowsOf(db: State, table: string): seq<Row> {
    if table in db then db[table].rows else []
  }

  /** What the owners see of the relations to join. */
  ghost function Parts(db: State, joins: seq<Join>, owners: set<string>): seq<seq<Wide>> {
    seq(|joins|, i requires 0 <= i < |joins| => Seen(db, joins[i].table, joins[i].alias, owners))
  }

  ghost function Seen(db: State, table: string, alias: string, owners: set<string>): seq<Wide> {
    RestrictAll(QualifyAll(table, alias, RowsOf(db, table)), Under(owners))
  }

  /** Columns that the owners see in a relation are the relation's. */
  lemma SeenIsOwn(db: State, table: string, alias: string, owners: set<string>, row: Wide, name: Name)
    requires row in Seen(db, table, alias, owners) && name in row
    ensures name.Qualified? && name.owner in owners && name.owner in {alias, table}
  {
    var i :| 0 <= i < |RowsOf(db, table)| && Seen(db, table, alias, owners)[i] == row;
  }

  /** The owners see each row whole: every column of it under its table and under its alias, where they are owners, and
      nothing else. */
  lemma SeenIs(db: State, table: string, alias: string, owners: set<string>, i: nat, name: Name)
    requires i < |RowsOf(db, table)|
    ensures |Seen(db, table, alias, owners)| == |RowsOf(db, table)|
    ensures var row, seen := RowsOf(db, table)[i], Seen(db, table, alias, owners)[i];
      && (name in seen <==> name.Qualified? && name.owner in owners && name.owner in {alias, table} && name.column in row)
      && (name in seen ==> seen[name] == row[name.column])
  {
  }

  lemma PartsAreApart(db: State, joins: seq<Join>, owners: set<string>, known: set<string>)
    requires Distinct(joins, owners, known)
    ensures PartsApart(Parts(db, joins, owners))
  {
    hide Seen, Under;
    var parts := Parts(db, joins, owners);
    forall i, j, a, b, name | 0 <= i < j < |parts| && a in parts[i] && b in parts[j] && name in b ensures name !in a {
      var m, n := joins[i], joins[j];
      SeenIsOwn(db, n.table, n.alias, owners, b, name);
      assert Names(n, name.owner);
      assert !Names(m, name.owner);
      if name in a {
        SeenIsOwn(db, m.table, m.alias, owners, a, name);
        assert false;
      }
    }
  }

  lemma PartsWithout(db: State, joins: seq<Join>, owners: set<string>, i: nat)
    requires i < |joins|
    ensures Parts(db, joins[..i] + joins[i + 1..], owners) == Parts(db, joins, owners)[..i] + Parts(db, joins, owners)[i + 1..]
    ensures Splits(joins, joins[i], joins[..i] + joins[i + 1..])
  {
    hide Seen;
    var rest := joins[..i] + joins[i + 1..];
    assert joins == joins[..i] + ([joins[i]] + joins[i + 1..]);
    assert forall k | 0 <= k < |rest| :: rest[k] == joins[if k < i then k else k + 1];
  }

  predicate Touches(join: Join, known: set<string>) {
    Owner(join.leftKey) in known || Owner(join.rightKey) in known
  }

  lemma {:induction false} ChosenTouches(joins: seq<Join>, known: set<string>)
    ensures var i := Choose(joins, known);
      && (i < |joins| ==> Touches(joins[i], known))
      && forall k | 0 <= k < i :: !Touches(joins[k], known)
  {
    if joins != [] && !Touches(joins[0], known) { ChosenTouches(joins[1..], known); }
  }

  /** The join's clause compares a column of its own relation with one of another. */
  predicate Links(join: Join) {
    Names(join, Owner(join.leftKey)) != Names(join, Owner(join.rightKey))
  }

  /** A name that no owner's column has. */
  function Nowhere(): Name {
    Plain("")
  }

  /** The clause that a step checks: the one written, where it links. Otherwise the new relation does not have the key
      that is looked up in it, so the other key must be NULL; which it is, unless its relation is known by then. */
  function Checked(join: Join, known: set<string>): Join {
    if Links(join) then join
    else if Owner(join.leftKey) in known then join.(rightKey := Nowhere())
    else join.(leftKey := Nowhere(), rightKey := Nowhere())
  }

  /** The clauses that a chain checks, in its order. */
  function AllChecked(joins: seq<Join>, known: set<string>): seq<Join>
    decreases |joins|
  {
    var i := Choose(joins, known);
    if i == |joins| then []
    else [Checked(joins[i], known)] + AllChecked(joins[..i] + joins[i + 1..], known + {joins[i].alias, joins[i].table})
  }

  /** The key is under the owners, and known or not. */
  predicate Has(key: Name, known: set<string>) {
    key.Qualified? && key.owner in known
  }

  /** A clause that links has one key on each side of the next step; otherwise the second key is not the new relation's. */
  lemma ChosenKeys(joins: seq<Join>, owners: set<string>, known: set<string>)
    requires Distinct(joins, owners, known) && Choose(joins, known) < |joins|
    ensures var i := Choose(joins, known);
      var join, keys := joins[i], Oriented(joins[i]);
      && keys.0.Qualified? && keys.1.Qualified?
      && !Names(join, keys.0.owner)
      && (Links(join) ==> Has(keys.0, known) && !Has(keys.1, known))
      && (!Links(join) ==> keys == (join.leftKey, join.rightKey) && !Names(join, keys.1.owner))
  {
    ChosenTouches(joins, known);
  }

  /** No relation that is joined later has a key of the clause that is checked. */
  lemma CheckedKeys(joins: seq<Join>, owners: set<string>, known: set<string>, k: nat, key: Name)
    requires Distinct(joins, owners, known) && Choose(joins, known) < |joins|
    requires k < |joins| && k != Choose(joins, known)
    requires var clause := Checked(joins[Choose(joins, known)], known); key in {clause.leftKey, clause.rightKey}
    ensures key.Qualified? && key.owner in owners ==> !Names(joins[k], key.owner)
  {
    ChosenTouches(joins, known);
  }

  lemma RowsWithout(rows: seq<Wide>, owners: set<string>, known: set<string>, key: Name)
    requires UsesOnly(rows, owners, known) && !Has(key, known)
    ensures forall row | row in RestrictAll(rows, Under(owners)) :: key !in row
  {
  }

  /** Where the keys are, the clause that is checked is met by the combination when the loop finds the keys equal. */
  lemma CheckedTests(join: Join, known: set<string>, l: Wide, r: Wide)
    requires var keys := Oriented(join);
      && keys.0 !in r
      && (Links(join) ==> keys.1 !in l)
      && (!Links(join) ==> keys == (join.leftKey, join.rightKey) && keys.1 !in r && Nowhere() !in l && Nowhere() !in r)
      && (!Links(join) && Owner(join.leftKey) !in known ==> keys.0 !in l)
    ensures Tests(Oriented(join), l, r, Checked(join, known))
  {
    var keys, clause, row := Oriented(join), Checked(join, known), Merge(l, r);
    assert clause in [clause];
    assert Get(row, keys.0) == Get(l, keys.0);
    if Links(join) {
      assert Get(row, keys.1) == Get(r, keys.1);
    } else {
      assert Get(row, Nowhere()) == Null == Get(r, keys.1);
    }
  }

  lemma StepTests(rows: seq<Wide>, relation: seq<Wide>, joins: seq<Join>, known: set<string>, owners: set<string>)
    requires Distinct(joins, owners, known) && UsesOnly(rows, owners, known) && Choose(joins, known) < |joins|
    requires var join := joins[Choose(joins, known)]; UsesOnly(relation, owners, {join.alias, join.table})
    ensures var join := joins[Choose(joins, known)];
      forall l, r | l in RestrictAll(rows, Under(owners)) && r in RestrictAll(relation, Under(owners)) :: Tests(Oriented(join), l, r, Checked(join, known))
  {
    hide UsesOnly, RestrictAll, Under, Distinct, Links, Choose, Oriented, Tests, Checked;
    var join := joins[Choose(joins, known)];
    var keys, names := Oriented(join), {join.alias, join.table};
    ChosenKeys(joins, owners, known);
    RowsWithout(relation, owners, names, keys.0);
    RowsWithout(rows, owners, known, Nowhere());
    RowsWithout(relation, owners, names, Nowhere());
    if Links(join) {
      RowsWithout(rows, owners, known, keys.1);
    } else {
      RowsWithout(relation, owners, names, keys.1);
      if !Has(keys.0, known) { RowsWithout(rows, owners, known, keys.0); }
    }
    forall l, r | l in RestrictAll(rows, Under(owners)) && r in RestrictAll(relation, Under(owners)) ensures Tests(keys, l, r, Checked(join, known)) {
      CheckedTests(join, known, l, r);
    }
  }

  /** A nested join step: the combinations that meet the clause it checks. */
  lemma StepMeans(db: State, rows: seq<Wide>, joins: seq<Join>, known: set<string>, owners: set<string>)
    requires Distinct(joins, owners, known) && UsesOnly(rows, owners, known) && Choose(joins, known) < |joins|
    ensures var join := joins[Choose(joins, known)];
      var keys := Oriented(join);
      RestrictAll(NestedJoin(rows, QualifyAll(join.table, join.alias, RowsOf(db, join.table)), keys.0, keys.1), Under(owners))
        == Meeting(Cross(RestrictAll(rows, Under(owners)), Seen(db, join.table, join.alias, owners)), [Checked(join, known)])
  {
    hide UsesOnly, RestrictAll, Under, Cross, Meeting, LeftLoop, Distinct, Choose, Oriented, Tests, Checked;
    var i, columns := Choose(joins, known), Under(owners);
    var join := joins[i];
    var keys := Oriented(join);
    var relation := QualifyAll(join.table, join.alias, RowsOf(db, join.table));
    DistinctRest(joins, i, owners, known);
    RelationColumns(join.table, join.alias, RowsOf(db, join.table), owners);
    SidesDisjoint(rows, relation, owners, known, {join.alias, join.table});
    RestrictLoop(rows, relation, On(keys.0, keys.1, false), columns);
    StepTests(rows, relation, joins, known, owners);
    LoopMeets(RestrictAll(rows, columns), RestrictAll(relation, columns), keys, Checked(join, known));
  }

  /** The relations joined later have neither key of the clause that is checked. */
  lemma LaterWithout(db: State, joins: seq<Join>, known: set<string>, owners: set<string>)
    requires Distinct(joins, owners, known) && Choose(joins, known) < |joins|
    ensures var i := Choose(joins, known);
      Lack(Parts(db, joins[..i] + joins[i + 1..], owners), Checked(joins[i], known))
  {
    hide Distinct, Choose, Seen, Checked;
    var i := Choose(joins, known);
    var rest, clause := joins[..i] + joins[i + 1..], Checked(joins[i], known);
    var parts := Parts(db, rest, owners);
    forall k, row, key | 0 <= k < |parts| && row in parts[k] && key in {clause.leftKey, clause.rightKey} ensures key !in row {
      var at := if k < i then k else k + 1;
      assert rest[k] == joins[at];
      CheckedKeys(joins, owners, known, at, key);
      if key in row {
        SeenIsOwn(db, rest[k].table, rest[k].alias, owners, row, key);
        assert false;
      }
    }
  }

  lemma {:induction false} MeetingAll(rows: seq<Wide>)
    ensures Meeting(rows, []) == rows
  {
    if rows != [] { MeetingAll(rows[1..]); }
  }

  /** All the combinations: with the chosen relation crossed and its clause checked first, or at the end. */
  lemma Reordered(rows: seq<Wide>, parts: seq<seq<Wide>>, i: nat, join: Join, rest: seq<Join>, joins: seq<Join>)
    requires i < |parts| && PartsApart(parts) && Splits(joins, join, rest)
    requires Lack(parts[..i] + parts[i + 1..], join)
    ensures multiset(Meeting(CrossAll(Meeting(Cross(rows, parts[i]), [join]), parts[..i] + parts[i + 1..]), rest))
      == multiset(Meeting(CrossAll(rows, parts), joins))
  {
    hide Meeting, CrossAll, Cross, PartsApart, Splits, Lack;
    var first, others := Cross(rows, parts[i]), parts[..i] + parts[i + 1..];
    CrossAllMeeting(first, others, join);
    MeetingBoth(CrossAll(first, others), join, rest, joins);
    CrossFirst(rows, parts, i);
    MeetingBag(CrossAll(rows, parts), CrossAll(first, others), joins);
  }

  /** The chain of nested loops answers the combinations that meet all the clauses it checks. */
  lemma {:induction false} ChainMeans(db: State, rows: seq<Wide>, joins: seq<Join>, known: set<string>, owners: set<string>)
    requires Distinct(joins, owners, known) && UsesOnly(rows, owners, known)
    requires Chain(Nested(), db, rows, joins, known).Some?
    ensures multiset(RestrictAll(Chain(Nested(), db, rows, joins, known).value, Under(owners)))
      == multiset(Meeting(CrossAll(RestrictAll(rows, Under(owners)), Parts(db, joins, owners)), AllChecked(joins, known)))
    decreases |joins|
  {
    hide Distinct, UsesOnly, Choose, Oriented, Under, RestrictAll, Meeting, Cross, Checked, Seen, NestedJoin, JoinStep, PartsApart, Lack;
    if joins == [] {
      MeetingAll(RestrictAll(rows, Under(owners)));
    } else {
      var i := Choose(joins, known);
      var join, rest, known' := joins[i], joins[..i] + joins[i + 1..], known + {joins[i].alias, joins[i].table};
      var keys := Oriented(join);
      var relation := QualifyAll(join.table, join.alias, RowsOf(db, join.table));
      NestedStep(rows, relation, keys);
      StepMeans(db, rows, joins, known, owners);
      DistinctRest(joins, i, owners, known);
      PartsWithout(db, joins, owners, i);
      PartsAreApart(db, joins, owners, known);
      LaterWithout(db, joins, known, owners);
      RelationColumns(join.table, join.alias, RowsOf(db, join.table), owners);
      StepUses(Nested(), rows, relation, keys, owners, known, {join.alias, join.table});
      ChainMeans(db, NestedJoin(rows, relation, keys.0, keys.1), rest, known', owners);
      Reordered(RestrictAll(rows, Under(owners)), Parts(db, joins, owners), i, Checked(join, known), AllChecked(rest, known'), AllChecked(joins, known));
    }
  }

  /** One row from each relation, in all ways, as the owners see them. */
  ghost function Combinations(db: State, table: string, alias: string, joins: seq<Join>, owners: set<string>): seq<Wide> {
    CrossAll(Seen(db, table, alias, owners), Parts(db, joins, owners))
  }

  /** Whatever the strategy, the answer is, as a bag and in the columns of the owners, the combinations that meet the
      clauses that are checked. */
  lemma ExecuteMeans(strategy: Strategy, db: State, table: string, alias: string, joins: seq<Join>, owners: set<string>)
    requires Distinct(joins, owners, {alias, table})
    requires Execute(strategy, db, table, alias, joins).Some?
    ensures multiset(RestrictAll(Execute(strategy, db, table, alias, joins).value, Under(owners)))
      == multiset(Meeting(Combinations(db, table, alias, joins, owners), AllChecked(joins, {alias, table})))
  {
    hide Distinct, UsesOnly, RestrictAll, Under, Meeting, CrossAll, Chain, Hashes, AllChecked;
    StrategyAnswersIff(strategy, db, table, alias, joins, owners);
    RelationColumns(table, alias, db[table].rows, owners);
    ChainMeans(db, QualifyAll(table, alias, db[table].rows), joins, {alias, table}, owners);
  }

  // ---------------------------------------------------------------- against the clauses as written

  lemma {:induction false} MeetingCount(rows: seq<Wide>, joins: seq<Join>, row: Wide)
    ensures multiset(Meeting(rows, joins))[row] == if Meets(row, joins) then multiset(rows)[row] else 0
  {
    hide Meets, Meeting;
    if rows == [] {
      NoneMeeting(joins);
    } else {
      MeetingCount(rows[1..], joins, row);
      assert rows == [rows[0]] + rows[1..];
      MeetingCons(rows[0], rows[1..], joins);
    }
  }

  /** Two lists of clauses pick the same bag exactly when they agree on each row. */
  lemma MeetingSameIff(rows: seq<Wide>, a: seq<Join>, b: seq<Join>)
    ensures multiset(Meeting(rows, a)) == multiset(Meeting(rows, b)) <==> forall row | row in rows :: Meets(row, a) <==> Meets(row, b)
  {
    hide Meets, Meeting;
    forall row ensures multiset(Meeting(rows, a))[row] == if Meets(row, a) then multiset(rows)[row] else 0
      ensures multiset(Meeting(rows, b))[row] == if Meets(row, b) then multiset(rows)[row] else 0
    {
      MeetingCount(rows, a, row);
      MeetingCount(rows, b, row);
    }
    forall row | row in rows ensures multiset(rows)[row] > 0 {
    }
  }

  /** The answer is the combinations that meet all the clauses as written, exactly when every combination meets them
      whenever it meets those that are checked, and the other way round. */
  lemma ExecuteMeansIff(strategy: Strategy, db: State, table: string, alias: string, joins: seq<Join>, owners: set<string>)
    requires Distinct(joins, owners, {alias, table})
    requires Execute(strategy, db, table, alias, joins).Some?
    ensures var all := Combinations(db, table, alias, joins, owners);
      multiset(RestrictAll(Execute(strategy, db, table, alias, joins).value, Under(owners))) == multiset(Meeting(all, joins))
      <==> forall row | row in all :: Meets(row, AllChecked(joins, {alias, table})) <==> Meets(row, joins)
  {
    hide Distinct, RestrictAll, Under, Meeting, Execute, Combinations, AllChecked, Meets;
    ExecuteMeans(strategy, db, table, alias, joins, owners);
    MeetingSameIff(Combinations(db, table, alias, joins, owners), AllChecked(joins, {alias, table}), joins);
  }

  /** Every clause compares a column of its own relation with one of another. */
  ghost predicate AllLink(joins: seq<Join>) {
    forall i | 0 <= i < |joins| :: Links(joins[i])
  }

  lemma RestLinks(joins: seq<Join>, i: nat)
    requires AllLink(joins) && i < |joins|
    ensures AllLink(joins[..i] + joins[i + 1..])
  {
    var rest := joins[..i] + joins[i + 1..];
    assert forall k | 0 <= k < |rest| :: rest[k] == joins[if k < i then k else k + 1];
  }

  lemma {:induction false} LinkedAreChecked(db: State, rows: seq<Wide>, joins: seq<Join>, known: set<string>, row: Wide)
    requires AllLink(joins) && Chain(Nested(), db, rows, joins, known).Some?
    ensures Meets(row, AllChecked(joins, known)) <==> Meets(row, joins)
    decreases |joins|
  {
    hide Meets, JoinStep, Choose, Oriented, Links, QualifyAll, Splits;
    if joins != [] {
      var i := Choose(joins, known);
      var rest, known' := joins[..i] + joins[i + 1..], known + {joins[i].alias, joins[i].table};
      var next := JoinStep(Nested(), rows, QualifyAll(joins[i].table, joins[i].alias, db[joins[i].table].rows), Oriented(joins[i]));
      RestLinks(joins, i);
      PartsWithout(db, joins, {}, i);
      LinkedAreChecked(db, next.value, rest, known', row);
      MeetsBoth(row, joins[i], rest, joins);
      HeadSplits(joins[i], AllChecked(rest, known'));
      MeetsBoth(row, joins[i], AllChecked(rest, known'), AllChecked(joins, known));
    }
  }

  lemma HeadSplits(join: Join, rest: seq<Join>)
    ensures Splits([join] + rest, join, rest)
  {
  }

  /** So where every clause links, in whatever order the joins are written: the answer is one row for each combination of
      one row from each relation in which the two columns of every clause hold equal values. */
  lemma JoinsMean(strategy: Strategy, db: State, table: string, alias: string, joins: seq<Join>, owners: set<string>)
    requires Distinct(joins, owners, {alias, table}) && AllLink(joins)
    requires Execute(strategy, db, table, alias, joins).Some?
    ensures multiset(RestrictAll(Execute(strategy, db, table, alias, joins).value, Under(owners)))
      == multiset(Meeting(Combinations(db, table, alias, joins, owners), joins))
  {
    hide Distinct, RestrictAll, Under, Meeting, Combinations, AllChecked, Meets, Chain, Hashes;
    ExecuteMeansIff(strategy, db, table, alias, joins, owners);
    StrategyAnswersIff(strategy, db, table, alias, joins, owners);
    forall row | row in Combinations(db, table, alias, joins, owners) ensures Meets(row, AllChecked(joins, {alias, table})) <==> Meets(row, joins) {
      LinkedAreChecked(db, QualifyAll(table, alias, db[table].rows), joins, {alias, table}, row);
    }
  }

  function OneRow(column: string): Table {
    Table([], [map[column := Int(1)]], {})
  }

  function Cell(table: string, column: string): Wide {
    map[Qualified(table, column) := Int(1)]
  }

  lemma OneQualified(table: string, column: string, owners: set<string>)
    requires table in owners
    ensures Restrict(Qualify(table, table, map[column := Int(1)]), Under(owners)) == Cell(table, column)
  {
    var wide := Qualify(table, table, map[column := Int(1)]);
    var name := Qualified(table, column);
    assert forall other | other in wide :: other in {Plain(column), name};
    assert name in wide && wide[name] == Int(1);
  }

  lemma OneSeen(db: State, table: string, column: string, owners: set<string>)
    requires table in db && db[table] == OneRow(column) && table in owners
    ensures Seen(db, table, table, owners) == [Cell(table, column)]
  {
    hide Restrict, Qualify, Under, Cell;
    OneQualified(table, column, owners);
    assert RowsOf(db, table) == [map[column := Int(1)]];
  }

  lemma CrossOnes(x: Wide, y: Wide, z: Wide)
    ensures CrossAll([x], [[y], [z]]) == [Merge(Merge(x, y), z)]
  {
    hide Merge;
    var xy := Merge(x, y);
    WithOne(x, y);
    WithOne(xy, z);
    assert Cross([], [y]) == [] && Cross([], [z]) == [];
    assert [x][1..] == [] && [xy][1..] == [] && [[y], [z]][1..] == [[z]] && [[z]][1..] == [];
    assert Cross([x], [y]) == [xy] && Cross([xy], [z]) == [Merge(xy, z)];
    assert CrossAll([xy], [[z]]) == CrossAll([Merge(xy, z)], []);
  }

  /** FROM a JOIN b ON a.id = c.x JOIN c ON c.x = a.id, over three tables of one row. */
  function Unlinked(a: string, b: string, c: string, id: string, x: string): seq<Join> {
    [Join(b, b, Qualified(a, id), Qualified(c, x)), Join(c, c, Qualified(c, x), Qualified(a, id))]
  }

  function ThreeTables(a: string, b: string, c: string, id: string, x: string): State {
    map[a := OneRow(id), b := OneRow(id), c := OneRow(x)]
  }

  lemma UnlinkedIsDistinct(a: string, b: string, c: string, id: string, x: string)
    requires a != b && a != c && b != c
    ensures var joins := Unlinked(a, b, c, id, x);
      Distinct(joins, {a, b, c}, {a}) && Connected(joins, {a}) && Links(joins[1]) && !Links(joins[0])
  {
    var joins := Unlinked(a, b, c, id, x);
    forall names, join | {a} <= names && Closed(joins, names) && join in joins ensures Touches(join, names) {
      assert a in names;
    }
  }

  lemma UnlinkedCombination(a: string, b: string, c: string, id: string, x: string)
    requires a != b && a != c && b != c
    ensures Combinations(ThreeTables(a, b, c, id, x), a, a, Unlinked(a, b, c, id, x), {a, b, c})
      == [Merge(Merge(Cell(a, id), Cell(b, id)), Cell(c, x))]
  {
    hide OneRow, Seen, Cell, CrossAll;
    var db, owners := ThreeTables(a, b, c, id, x), {a, b, c};
    OneSeen(db, a, id, owners);
    OneSeen(db, b, id, owners);
    OneSeen(db, c, x, owners);
    assert Parts(db, Unlinked(a, b, c, id, x), owners) == [[Cell(b, id)], [Cell(c, x)]];
    CrossOnes(Cell(a, id), Cell(b, id), Cell(c, x));
  }

  lemma UnlinkedChecks(a: string, b: string, c: string, id: string, x: string)
    requires a != b && a != c && b != c
    ensures var row := Merge(Merge(Cell(a, id), Cell(b, id)), Cell(c, x));
      Meets(row, Unlinked(a, b, c, id, x)) && !Meets(row, AllChecked(Unlinked(a, b, c, id, x), {a}))
  {
    var joins, row := Unlinked(a, b, c, id, x), Merge(Merge(Cell(a, id), Cell(b, id)), Cell(c, x));
    var checked := AllChecked(joins, {a});
    assert checked[0] == joins[0].(rightKey := Nowhere());
    assert checked[0] in checked && Get(row, Qualified(a, id)) == Int(1) && Get(row, Nowhere()) == Null;
  }

  lemma UnlinkedAnswers(a: string, b: string, c: string, id: string, x: string)
    requires a != b && a != c && b != c
    ensures Execute(Nested(), ThreeTables(a, b, c, id, x), a, a, Unlinked(a, b, c, id, x)).Some?
  {
    hide Execute, Connected, OneRow;
    UnlinkedIsDistinct(a, b, c, id, x);
    NestedAnswersIff(ThreeTables(a, b, c, id, x), a, a, Unlinked(a, b, c, id, x));
    assert {a, a} == {a};
  }

  /** The first clause does not name b, so b's rows are looked up under c.x, which they do not have. The one combination
      meets both clauses, and the answer is empty. */
  lemma UnlinkedClauseLosesRows(strategy: Strategy, a: string, b: string, c: string, id: string, x: string)
    requires a != b && a != c && b != c
    ensures var db, joins, owners := ThreeTables(a, b, c, id, x), Unlinked(a, b, c, id, x), {a, b, c};
      && |Combinations(db, a, a, joins, owners)| == 1 && Meets(Combinations(db, a, a, joins, owners)[0], joins)
      && (Execute(strategy, db, a, a, joins).Some? ==> Execute(strategy, db, a, a, joins).value == [])
      && Execute(Nested(), db, a, a, joins).Some?
  {
    hide Distinct, Connected, Links, Unlinked, Combinations, AllChecked, Meets, Execute, Meeting, Under, Restrict, Cell, Merge, ThreeTables;
    var db, joins, owners := ThreeTables(a, b, c, id, x), Unlinked(a, b, c, id, x), {a, b, c};
    UnlinkedIsDistinct(a, b, c, id, x);
    UnlinkedCombination(a, b, c, id, x);
    UnlinkedChecks(a, b, c, id, x);
    UnlinkedAnswers(a, b, c, id, x);
    if Execute(strategy, db, a, a, joins).Some? {
      var checked, row := AllChecked(joins, {a}), Combinations(db, a, a, joins, owners)[0];
      assert {a, a} == {a};
      ExecuteMeans(strategy, db, a, a, joins, owners);
      assert [row] == [row] + [];
      MeetingCons(row, [], checked);
      NoneMeeting(checked);
      assert |multiset(RestrictAll(Execute(strategy, db, a, a, joins).value, Under(owners)))| == 0;
    }
  }

  // ---------------------------------------------------------------- the two sides of a clause

  /** The same joins with the sides of some clauses exchanged. */
  ghost predicate Exchanged(joins: seq<Join>, others: seq<Join>) {
    && |joins| == |others|
    && forall i | 0 <= i < |joins| ::
      others[i] in {joins[i], joins[i].(leftKey := joins[i].rightKey, rightKey := joins[i].leftKey)}
  }

  lemma {:induction false} ExchangedChoice(joins: seq<Join>, others: seq<Join>, known: set<string>)
    requires Exchanged(joins, others)
    ensures Choose(joins, known) == Choose(others, known)
  {
    if joins != [] && !Touches(joins[0], known) { ExchangedChoice(joins[1..], others[1..], known); }
  }

  lemma ExchangedAt(joins: seq<Join>, others: seq<Join>, i: nat)
    requires Exchanged(joins, others) && AllLink(joins) && i < |joins|
    ensures joins[i].table == others[i].table && joins[i].alias == others[i].alias && Oriented(joins[i]) == Oriented(others[i])
    ensures Exchanged(joins[..i] + joins[i + 1..], others[..i] + others[i + 1..])
  {
    var a, b := joins[..i] + joins[i + 1..], others[..i] + others[i + 1..];
    assert forall k | 0 <= k < |a| :: a[k] == joins[if k < i then k else k + 1] && b[k] == others[if k < i then k else k + 1];
    assert Links(joins[i]);
  }

  lemma {:induction false} ExchangedChain(strategy: Strategy, db: State, rows: seq<Wide>, joins: seq<Join>, others: seq<Join>, known: set<string>)
    requires Exchanged(joins, others) && AllLink(joins)
    ensures Chain(strategy, db, rows, joins, known) == Chain(strategy, db, rows, others, known)
    decreases |joins|
  {
    hide Exchanged, AllLink, Choose, Oriented, JoinStep, Links, QualifyAll;
    SameLength(joins, others);
    ExchangedChoice(joins, others, known);
    var i := Choose(joins, known);
    if joins != [] && i < |joins| {
      ExchangedAt(joins, others, i);
      if joins[i].table in db {
        var join := joins[i];
        var next := JoinStep(strategy, rows, QualifyAll(join.table, join.alias, db[join.table].rows), Oriented(join));
        RestLinks(joins, i);
        if next.Some? {
          ExchangedChain(strategy, db, next.value, joins[..i] + joins[i + 1..], others[..i] + others[i + 1..], known + {join.alias, join.table});
        }
      }
    }
  }

  lemma SameLength(joins: seq<Join>, others: seq<Join>)
    requires Exchanged(joins, others)
    ensures |joins| == |others|
  {
  }

  /** ON a.x = b.y and ON b.y = a.x answer the same rows in the same order, and are refused alike. */
  lemma SidesMayBeExchanged(strategy: Strategy, db: State, table: string, alias: string, joins: seq<Join>, others: seq<Join>)
    requires AllLink(joins) && Exchanged(joins, others)
    ensures Execute(strategy, db, table, alias, joins) == Execute(strategy, db, table, alias, others)
  {
    hide Chain, AllLink, Exchanged;
    if table in db {
      ExchangedChain(strategy, db, QualifyAll(table, alias, db[table].rows), joins, others, {alias, table});
    }
  }

  // ---------------------------------------------------------------- when it answers

  /** The names hold both names of every relation whose clause names one of them. */
  ghost predicate Closed(joins: seq<Join>, names: set<string>) {
    forall join | join in joins && Touches(join, names) :: join.alias in names && join.table in names
  }

  /** From the known relations, clause by clause, every join is reached: every closed set of names touches all of them. */
  ghost predicate Connected(joins: seq<Join>, known: set<string>) {
    forall names, join | known <= names && Closed(joins, names) && join in joins :: Touches(join, names)
  }

  lemma ConnectedStep(joins: seq<Join>, known: set<string>, i: nat)
    requires i < |joins| && Touches(joins[i], known)
    ensures Connected(joins, known) <==> Connected(joins[..i] + joins[i + 1..], known + {joins[i].alias, joins[i].table})
  {
    var join, rest := joins[i], joins[..i] + joins[i + 1..];
    var known' := known + {join.alias, join.table};
    PartsWithout(map[], joins, {}, i);
    forall names | known' <= names ensures Closed(joins, names) <==> Closed(rest, names) {
    }
    if Connected(rest, known') {
      forall names, j | known <= names && Closed(joins, names) && j in joins ensures Touches(j, names) {
        assert join in joins && Touches(join, names);
        assert known' <= names;
      }
    }
  }

  lemma {:induction false} ChainAnswersIffConnected(db: State, rows: seq<Wide>, joins: seq<Join>, known: set<string>)
    ensures Chain(Nested(), db, rows, joins, known).Some? <==> Connected(joins, known) && forall join | join in joins :: join.table in db
    decreases |joins|
  {
    hide Choose, Oriented, JoinStep, Connected, NestedJoin, QualifyAll;
    ChosenTouches(joins, known);
    var i := Choose(joins, known);
    if joins == [] {
      NothingToConnect(known);
    } else if i == |joins| {
      NothingTouches(joins, known);
    } else {
      var join := joins[i];
      PartsWithout(db, joins, {}, i);
      ConnectedStep(joins, known, i);
      if join.table in db {
        var relation := QualifyAll(join.table, join.alias, db[join.table].rows);
        var keys := Oriented(join);
        NestedStep(rows, relation, keys);
        ChainAnswersIffConnected(db, NestedJoin(rows, relation, keys.0, keys.1), joins[..i] + joins[i + 1..], known + {join.alias, join.table});
      }
    }
  }

  lemma NothingToConnect(known: set<string>)
    ensures Connected([], known)
  {
  }

  lemma NothingTouches(joins: seq<Join>, known: set<string>)
    requires joins != [] && forall k | 0 <= k < |joins| :: !Touches(joins[k], known)
    ensures !Connected(joins, known)
  {
    assert Closed(joins, known) && joins[0] in joins;
  }

  /** The nested loops answer exactly when every table exists and the clauses lead from the base table to every join,
      in whatever order they are written. */
  lemma NestedAnswersIff(db: State, table: string, alias: string, joins: seq<Join>)
    ensures Execute(Nested(), db, table, alias, joins).Some?
      <==> table in db && (forall join | join in joins :: join.table in db) && Connected(joins, {alias, table})
  {
    if table in db {
      ChainAnswersIffConnected(db, QualifyAll(table, alias, db[table].rows), joins, {alias, table});
    }
  }
}
