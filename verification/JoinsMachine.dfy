/** The loops of novadb/optimizer.py: building and probing a hash index, the nested loop, and the join loop
    of execute. */
module JoinsMachine {
  import opened Tables
  import opened Joins

  /** The rows with this key value, in order. */
  function Matching(rows: seq<Wide>, key: Name, v: Value): seq<Wide> {
    if rows == [] then []
    else
      var last := |rows| - 1;
      Matching(rows[..last], key, v) + if Get(rows[last], key) == v then [rows[last]] else []
  }

  /** Each match updated by the probing row. */
  function MergeAll(matches: seq<Wide>, row: Wide): seq<Wide> {
    if matches == [] then []
    else
      var last := |matches| - 1;
      MergeAll(matches[..last], row) + [Merge(matches[last], row)]
  }

  lemma MergeAllMore(a: seq<Wide>, b: seq<Wide>, row: Wide)
    ensures MergeAll(a + b, row) == MergeAll(a, row) + MergeAll(b, row)
    decreases |b|
  {
    if b == [] {
      assert a + b == a && MergeAll(a, row) + [] == MergeAll(a, row);
    } else {
      var last := |b| - 1;
      assert (a + b)[..|a| + last] == a + b[..last];
      MergeAllMore(a, b[..last], row);
    }
  }

  lemma {:induction false} ByRightIsMerged(left: seq<Wide>, r: Wide, on: On)
    requires !on.leftWins
    ensures ByRight(left, r, on) == MergeAll(Matching(left, on.leftKey, Get(r, on.rightKey)), r)
  {
    if left != [] {
      var last := |left| - 1;
      ByRightIsMerged(left[..last], r, on);
      ByRightLast(left, r, on);
      var some := if Get(left[last], on.leftKey) == Get(r, on.rightKey) then [left[last]] else [];
      MergeAllMore(Matching(left[..last], on.leftKey, Get(r, on.rightKey)), some, r);
      assert MergeAll(some, r) == Pair(left[last], r, on);
    }
  }

  lemma {:induction false} ByRightLast(left: seq<Wide>, r: Wide, on: On)
    requires left != []
    ensures ByRight(left, r, on) == ByRight(left[..|left| - 1], r, on) + Pair(left[|left| - 1], r, on)
  {
    if |left| == 1 {
      assert ByRight(left[1..], r, on) == [] && left[..0] == [];
      assert Pair(left[0], r, on) + [] == [] + Pair(left[0], r, on);
    } else {
      ByRightLast(left[1..], r, on);
      assert left[1..][..|left| - 2] == left[..|left| - 1][1..];
      var rest := ByRight(left[..|left| - 1][1..], r, on);
      assert Pair(left[0], r, on) + (rest + Pair(left[|left| - 1], r, on)) == (Pair(left[0], r, on) + rest) + Pair(left[|left| - 1], r, on);
    }
  }

  /** The two directions of the same loop. */
  lemma {:induction false} ByLeftIsByRight(l: Wide, right: seq<Wide>, on: On)
    requires on.leftWins
    ensures ByLeft(l, right, on) == ByRight(right, l, On(on.rightKey, on.leftKey, false))
  {
    if right != [] { ByLeftIsByRight(l, right[1..], on); }
  }

  lemma {:induction false} LeftLoopIsRightLoop(left: seq<Wide>, right: seq<Wide>, on: On)
    requires on.leftWins
    ensures LeftLoop(left, right, on) == RightLoop(right, left, On(on.rightKey, on.leftKey, false))
  {
    if left != [] {
      ByLeftIsByRight(left[0], right, on);
      LeftLoopIsRightLoop(left[1..], right, on);
    }
  }

  lemma NoRight(left: seq<Wide>, on: On)
    ensures RightLoop(left, [], on) == []
  {
  }

  lemma {:induction false} RightLoopLast(left: seq<Wide>, right: seq<Wide>, on: On)
    requires right != []
    ensures RightLoop(left, right, on) == RightLoop(left, right[..|right| - 1], on) + ByRight(left, right[|right| - 1], on)
  {
    hide ByRight;
    if |right| == 1 {
      assert RightLoop(left, right[1..], on) == [] && right[..0] == [];
      assert ByRight(left, right[0], on) + [] == [] + ByRight(left, right[0], on);
    } else {
      RightLoopLast(left, right[1..], on);
      assert right[1..][..|right| - 2] == right[..|right| - 1][1..];
      var rest := RightLoop(left, right[..|right| - 1][1..], on);
      assert ByRight(left, right[0], on) + (rest + ByRight(left, right[|right| - 1], on))
          == (ByRight(left, right[0], on) + rest) + ByRight(left, right[|right| - 1], on);
    }
  }

  /** The build loop: rows filed under their key; None where a key cannot be hashed. */
  lemma NoneMatching(rows: seq<Wide>, key: Name)
    ensures KeysHash(rows[..0], key) && forall v :: Matching(rows[..0], key, v) == []
  {
  }

  lemma MatchingMore(rows: seq<Wide>, key: Name, i: nat)
    requires i < |rows|
    ensures KeysHash(rows[..i + 1], key) <==> KeysHash(rows[..i], key) && Hashable(Get(rows[i], key))
    ensures !Hashable(Get(rows[i], key)) ==> !KeysHash(rows, key)
    ensures forall v :: Matching(rows[..i + 1], key, v) == Matching(rows[..i], key, v) + if Get(rows[i], key) == v then [rows[i]] else []
  {
    assert rows[..i + 1][..i] == rows[..i] && rows[..i + 1] == rows[..i] + [rows[i]] && rows[i] in rows;
  }

  method BuildIndex(rows: seq<Wide>, key: Name) returns (r: Option<map<Value, seq<Wide>>>)
    ensures r.Some? <==> KeysHash(rows, key)
    ensures r.Some? ==> forall v :: (if v in r.value then r.value[v] else []) == Matching(rows, key, v)
  {
    hide Matching, KeysHash, Hashable;
    var index: map<Value, seq<Wide>> := map[];
    NoneMatching(rows, key);
    for i := 0 to |rows|
      invariant KeysHash(rows[..i], key)
      invariant forall v :: (if v in index then index[v] else []) == Matching(rows[..i], key, v)
    {
      var v := Get(rows[i], key);
      MatchingMore(rows, key, i);
      if !Hashable(v) {
        return None;
      }
      index := index[v := (if v in index then index[v] else []) + [rows[i]]];
    }
    assert rows[..|rows|] == rows;
    r := Some(index);
  }

  /** The probe loop. */
  method Probe(index: map<Value, seq<Wide>>, build: seq<Wide>, probe: seq<Wide>, buildKey: Name, probeKey: Name) returns (r: Option<seq<Wide>>)
    requires forall v :: (if v in index then index[v] else []) == Matching(build, buildKey, v)
    ensures r == if KeysHash(probe, probeKey) then Some(RightLoop(build, probe, On(buildKey, probeKey, false))) else None
  {
    var on := On(buildKey, probeKey, false);
    hide Matching, KeysHash, Hashable, RightLoop, ByRight;
    var output: seq<Wide> := [];
    NoneMatching(probe, probeKey);
    assert probe[..0] == [];
    NoRight(build, on);
    for i := 0 to |probe|
      invariant KeysHash(probe[..i], probeKey) && output == RightLoop(build, probe[..i], on)
    {
      var row := probe[i];
      var v := Get(row, probeKey);
      assert probe[..i + 1][..i] == probe[..i] && probe[..i + 1][i] == row;
      MatchingMore(probe, probeKey, i);
      if !Hashable(v) {
        return None;
      }
      var matches := if v in index then index[v] else [];
      RightLoopLast(build, probe[..i + 1], on);
      ByRightIsMerged(build, row, on);
      var merged := MergeEach(matches, row);
      output := output + merged;
    }
    assert probe[..|probe|] == probe;
    r := Some(output);
  }

  method MergeEach(matches: seq<Wide>, row: Wide) returns (merged: seq<Wide>)
    ensures merged == MergeAll(matches, row)
  {
    merged := [];
    for k := 0 to |matches|
      invariant merged == MergeAll(matches[..k], row)
    {
      assert matches[..k + 1][..k] == matches[..k];
      merged := merged + [Merge(matches[k], row)];
    }
    assert matches[..|matches|] == matches;
  }

  method HashJoinRows(left: seq<Wide>, right: seq<Wide>, leftKey: Name, rightKey: Name) returns (r: Option<seq<Wide>>)
    ensures r == HashJoin(left, right, leftKey, rightKey)
  {
    var buildIsLeft := |left| <= |right|;
    var build, probe := if buildIsLeft then left else right, if buildIsLeft then right else left;
    var buildKey, probeKey := if buildIsLeft then leftKey else rightKey, if buildIsLeft then rightKey else leftKey;
    var index := BuildIndex(build, buildKey);
    if index.None? {
      return None;
    }
    r := Probe(index.value, build, probe, buildKey, probeKey);
    if !buildIsLeft {
      LeftLoopIsRightLoop(left, right, On(leftKey, rightKey, true));
    }
  }

  lemma {:induction false} LeftLoopLast(left: seq<Wide>, right: seq<Wide>, on: On)
    requires left != []
    ensures LeftLoop(left, right, on) == LeftLoop(left[..|left| - 1], right, on) + ByLeft(left[|left| - 1], right, on)
  {
    assert left == left[..|left| - 1] + [left[|left| - 1]];
    LoopSplit(left[..|left| - 1], [left[|left| - 1]], right, on);
    var one := [left[|left| - 1]];
    assert LeftLoop(one[1..], right, on) == [] && ByLeft(one[0], right, on) + [] == ByLeft(one[0], right, on);
  }

  method NestedJoinRows(left: seq<Wide>, right: seq<Wide>, leftKey: Name, rightKey: Name) returns (output: seq<Wide>)
    ensures output == NestedJoin(left, right, leftKey, rightKey)
  {
    ghost var on := On(leftKey, rightKey, false);
    output := [];
    for i := 0 to |left|
      invariant output == LeftLoop(left[..i], right, on)
    {
      assert left[..i + 1][..i] == left[..i];
      LeftLoopLast(left[..i + 1], right, on);
      var matches := InnerLoop(left[i], right, leftKey, rightKey);
      output := output + matches;
    }
    assert left[..|left|] == left;
  }

  /** The inner loop of the nested loop. */
  method InnerLoop(row: Wide, right: seq<Wide>, leftKey: Name, rightKey: Name) returns (output: seq<Wide>)
    ensures output == ByLeft(row, right, On(leftKey, rightKey, false))
  {
    ghost var on := On(leftKey, rightKey, false);
    output := [];
    for j := 0 to |right|
      invariant output == ByLeft(row, right[..j], on)
    {
      assert right[..j + 1][..j] == right[..j];
      ByLeftLast(row, right[..j + 1], on);
      hide ByLeft;
      if Get(row, leftKey) == Get(right[j], rightKey) {
        output := output + [Merge(row, right[j])];
      } else {
        assert output + [] == output;
      }
    }
    assert right[..|right|] == right;
  }

  lemma {:induction false} ByLeftLast(l: Wide, right: seq<Wide>, on: On)
    requires right != []
    ensures ByLeft(l, right, on) == ByLeft(l, right[..|right| - 1], on) + Pair(l, right[|right| - 1], on)
  {
    if |right| == 1 {
      assert ByLeft(l, right[1..], on) == [] && right[..0] == [];
      assert Pair(l, right[0], on) + [] == [] + Pair(l, right[0], on);
    } else {
      var rest := ByLeft(l, right[..|right| - 1][1..], on);
      assert right[1..][..|right| - 2] == right[..|right| - 1][1..];
      ByLeftLast(l, right[1..], on);
      var a, b := Pair(l, right[0], on), Pair(l, right[|right| - 1], on);
      hide Pair;
      assert a + (rest + b) == (a + rest) + b;
    }
  }

  method ChooseJoin(joins: seq<Join>, known: set<string>) returns (i: nat)
    ensures i == Choose(joins, known)
  {
    i := 0;
    while i < |joins| && Owner(joins[i].leftKey) !in known && Owner(joins[i].rightKey) !in known
      invariant i <= |joins| && Choose(joins, known) == i + Choose(joins[i..], known)
    {
      i := i + 1;
    }
  }

  /** One step of the join loop: hash when the sum of the sizes is at most their product. */
  method StepByCost(rows: seq<Wide>, relation: seq<Wide>, keys: (Name, Name)) returns (r: Option<seq<Wide>>)
    ensures r == JoinStep(ByCost, rows, relation, keys)
  {
    if |rows| + |relation| <= |rows| * |relation| {
      r := HashJoinRows(rows, relation, keys.0, keys.1);
    } else {
      var joined := NestedJoinRows(rows, relation, keys.0, keys.1);
      r := Some(joined);
    }
  }

  /** The join loop of execute. */
  method JoinAll(db: State, table: string, alias: string, joins: seq<Join>) returns (r: Option<seq<Wide>>)
    ensures r == Execute(ByCost, db, table, alias, joins)
  {
    hide JoinStep, ByCost, QualifyAll, Oriented;
    if table !in db {
      return None;
    }
    var rows := QualifyAll(table, alias, db[table].rows);
    var known := {alias, table};
    var remaining := joins;
    while remaining != []
      invariant Execute(ByCost, db, table, alias, joins) == Chain(ByCost, db, rows, remaining, known)
      decreases |remaining|
    {
      var i := ChooseJoin(remaining, known);
      if i == |remaining| || remaining[i].table !in db {
        return None;
      }
      var chosen := remaining[i];
      var joined := StepByCost(rows, QualifyAll(chosen.table, chosen.alias, db[chosen.table].rows), Oriented(chosen));
      if joined.None? {
        return None;
      }
      rows := joined.value;
      known := known + {chosen.alias, chosen.table};
      remaining := remaining[..i] + remaining[i + 1..];
    }
    r := Some(rows);
  }
}
