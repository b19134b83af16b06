/** What compiled comparisons and arithmetic compute (novadb/bytecode.py): which rows of a sorted table a WHERE clause
    takes, what NULL does, and what integer expressions come to. All statements are about running compiled programs. */
module Comparisons {
  import opened Tables
  import opened Bytecode

  /** Running the compiled expression gives the value. */
  predicate Yields(host: Host, e: Expr, row: Row, params: seq<Value>, v: Value) {
    Run(host, CompileExpression(e), row, params) == Ok(v)
  }

  /** Running the compiled comparison gives true. */
  predicate Holds(host: Host, op: CompareOp, left: Expr, right: Expr, row: Row) {
    Run(host, CompilePredicate(Compare(op, left, right)), row, []) == Ok(Bool(true))
  }

  /** No placeholder in either. */
  predicate Ground(left: Expr, right: Expr) {
    Params(left) == 0 && Params(right) == 0
  }

  /** The host orders these values strictly and totally. */
  ghost predicate Orders(host: Host, values: set<Value>) {
    && Null !in values
    && (forall x, y | x in values && y in values :: host.ordered(x, y))
    && (forall x | x in values :: !host.less(x, x))
    && (forall x, y | x in values && y in values :: x == y || host.less(x, y) || host.less(y, x))
    && forall x, y, z | x in values && y in values && z in values && host.less(x, y) && host.less(y, z) :: host.less(x, z)
  }

  lemma Asymmetric(host: Host, values: set<Value>, x: Value, y: Value)
    requires Orders(host, values) && x in values && y in values && host.less(x, y)
    ensures !host.less(y, x) && x != y
  {
    assert !host.less(x, x);
  }

  lemma NotBefore(host: Host, values: set<Value>, x: Value, y: Value)
    requires Orders(host, values) && x in values && y in values && (x == y || host.less(x, y))
    ensures !host.less(y, x)
  {
    assert !host.less(x, x);
  }

  // ---------------------------------------------------------------- one comparison

  /** A comparison of two expressions answers true or false from their values, and raises where one of them does. */
  lemma ComparisonRuns(host: Host, op: CompareOp, left: Expr, right: Expr, row: Row)
    requires HostOk(host) && Ground(left, right)
    ensures var l, r := Run(host, CompileExpression(left), row, []), Run(host, CompileExpression(right), row, []);
      Run(host, CompilePredicate(Compare(op, left, right)), row, [])
      == if l.Ok? && r.Ok? then Ok(Bool(CompareValue(host, op, l.value, r.value))) else Raised
  {
    hide Run, CompareValue, Compile, RunCode, HostOk, CompilePred, CompilePredicate, CompileExpression;
    PredicateRuns(host, Compare(op, left, right), row, []);
    ExpressionRuns(host, left, row, []);
    ExpressionRuns(host, right, row, []);
    var none: seq<Value> := [];
    assert none[..0] == none && none[0..] == none;
  }

  /** NULL = NULL holds, and no other comparison with NULL does, whatever stands on the other side. */
  lemma NullEqualsOnlyNull(host: Host, op: CompareOp, left: Expr, right: Expr, row: Row, x: Value, y: Value)
    requires HostOk(host) && Ground(left, right)
    requires Yields(host, left, row, [], x) && Yields(host, right, row, [], y) && (x == Null || y == Null)
    ensures Holds(host, op, left, right, row) <==> op == Eq && x == Null && y == Null
  {
    hide Run;
    ComparisonRuns(host, op, left, right, row);
  }

  /** Values that the host does not order, as a number and a text, satisfy no comparison, not even !=. */
  lemma UnorderedSatisfyNothing(host: Host, op: CompareOp, left: Expr, right: Expr, row: Row, x: Value, y: Value)
    requires HostOk(host) && Ground(left, right)
    requires Yields(host, left, row, [], x) && Yields(host, right, row, [], y) && x != Null && y != Null && !host.ordered(x, y)
    ensures !Holds(host, op, left, right, row)
  {
    hide Run;
    ComparisonRuns(host, op, left, right, row);
  }

  /** Of ordered values exactly one of <, = and > holds, = when they are equal, and < when the first comes before;
      each other comparison is the complement of one of these; and exchanging the sides turns < into >. */
  lemma Trichotomy(host: Host, left: Expr, right: Expr, row: Row, x: Value, y: Value)
    requires HostOk(host) && Ground(left, right) && Orders(host, {x, y})
    requires Yields(host, left, row, [], x) && Yields(host, right, row, [], y)
    ensures Holds(host, Eq, left, right, row) <==> x == y
    ensures Holds(host, Lt, left, right, row) <==> host.less(x, y)
    ensures Holds(host, Gt, left, right, row) <==> x != y && !Holds(host, Lt, left, right, row)
    ensures Holds(host, Lt, left, right, row) <==> Holds(host, Gt, right, left, row)
    ensures Holds(host, Le, left, right, row) <==> !Holds(host, Gt, left, right, row)
    ensures Holds(host, Ge, left, right, row) <==> !Holds(host, Lt, left, right, row)
    ensures Holds(host, Ne, left, right, row) <==> !Holds(host, Eq, left, right, row)
  {
    hide Run, Orders;
    forall op { ComparisonRuns(host, op, left, right, row); }
    forall op { ComparisonRuns(host, op, right, left, row); }
    PairOrders(host, x, y);
  }

  lemma PairOrders(host: Host, x: Value, y: Value)
    requires Orders(host, {x, y})
    ensures x != Null && y != Null && host.ordered(x, y) && host.ordered(y, x)
    ensures host.less(x, y) <==> x != y && !host.less(y, x)
    ensures x == y ==> !host.less(x, y)
  {
    var values := {x, y};
    assert x in values && y in values;
    if x == y { NotBefore(host, values, x, y); }
    if host.less(x, y) { Asymmetric(host, values, x, y); }
  }

  // ---------------------------------------------------------------- a column of a table

  /** A compiled column gives the row's own value, and NULL where the row has none. */
  lemma ColumnRuns(host: Host, name: string, row: Row, params: seq<Value>)
    ensures name in row ==> Yields(host, Expr.Column(name), row, params, row[name])
    ensures name !in row ==> Yields(host, Expr.Column(name), row, params, Null)
  {
    ExpressionRuns(host, Expr.Column(name), row, params);
  }

  lemma ConstRuns(host: Host, c: Value, row: Row)
    ensures Yields(host, Const(c), row, [], c)
  {
    ExpressionRuns(host, Const(c), row, []);
  }

  function ValuesOf(rows: seq<Row>, name: string): set<Value> {
    set row | row in rows && name in row :: row[name]
  }

  /** The rows ascend in the column. */
  ghost predicate Ascending(host: Host, rows: seq<Row>, name: string) {
    && (forall row | row in rows :: name in row)
    && forall i, j | 0 <= i < j < |rows| :: rows[i][name] == rows[j][name] || host.less(rows[i][name], rows[j][name])
  }

  lemma SubOrders(host: Host, values: set<Value>, fewer: set<Value>)
    requires Orders(host, values) && fewer <= values
    ensures Orders(host, fewer)
  {
  }

  /** In ascending rows those before c come first, then those equal to it, then the others. */
  lemma {:induction false} Places(host: Host, rows: seq<Row>, name: string, c: Value)
    requires Ascending(host, rows, name) && Orders(host, ValuesOf(rows, name) + {c})
    ensures exists i, j :: 0 <= i <= j <= |rows| && Split(host, rows, name, c, i, j)
  {
    if rows == [] {
      assert Split(host, rows, name, c, 0, 0);
    } else {
      var first, rest := rows[0], rows[1..];
      assert first in rows;
      assert forall row | row in rest :: row in rows;
      SubOrders(host, ValuesOf(rows, name) + {c}, ValuesOf(rest, name) + {c});
      Places(host, rest, name, c);
      var i, j :| 0 <= i <= j <= |rest| && Split(host, rest, name, c, i, j);
      FirstPlaces(host, rows, name, c, i, j);
    }
  }

  /** The first i rows come before c, those up to j equal it, and c comes before the others. */
  ghost predicate Split(host: Host, rows: seq<Row>, name: string, c: Value, i: nat, j: nat) {
    && (forall row | row in rows :: name in row)
    && forall k | 0 <= k < |rows| ::
      && (host.less(rows[k][name], c) <==> k < i)
      && (rows[k][name] == c <==> i <= k < j)
      && (host.less(c, rows[k][name]) <==> j <= k)
  }

  lemma FirstPlaces(host: Host, rows: seq<Row>, name: string, c: Value, i: nat, j: nat)
    requires rows != [] && Ascending(host, rows, name) && Orders(host, ValuesOf(rows, name) + {c})
    requires i <= j < |rows| && Split(host, rows[1..], name, c, i, j)
    ensures exists i', j' :: 0 <= i' <= j' <= |rows| && Split(host, rows, name, c, i', j')
  {
    var first, rest, values := rows[0], rows[1..], ValuesOf(rows, name) + {c};
    forall k | 0 <= k < |rows| ensures rows[k] in rows && rows[k][name] in values {
    }
    forall k | 1 <= k < |rows| ensures rows[k] == rest[k - 1] {
    }
    if host.less(first[name], c) {
      Asymmetric(host, values, first[name], c);
      assert Split(host, rows, name, c, i + 1, j + 1);
    } else if first[name] == c {
      if rest != [] { NotBefore(host, values, c, rest[0][name]); }
      assert Split(host, rows, name, c, 0, j + 1);
    } else {
      assert host.less(c, first[name]);
      Asymmetric(host, values, c, first[name]);
      if rest != [] { Asymmetric(host, values, c, rest[0][name]); }
      assert Split(host, rows, name, c, 0, 0);
    }
  }

  /** The rows of a table that ascend in a column: those that satisfy `column < c` are a prefix, those that satisfy
      `column > c` a suffix, those that satisfy `column = c` lie between them and hold c itself, and `<=`, `>=` and `!=`
      take what the other three leave. */
  lemma ComparisonsCutSortedRows(host: Host, rows: seq<Row>, name: string, c: Value)
    requires HostOk(host) && Ascending(host, rows, name) && Orders(host, ValuesOf(rows, name) + {c})
    ensures exists i, j :: 0 <= i <= j <= |rows| && Cut(host, rows, name, c, i, j)
  {
    hide Orders, Run;
    Places(host, rows, name, c);
    var i, j :| 0 <= i <= j <= |rows| && Split(host, rows, name, c, i, j);
    forall k | 0 <= k < |rows| ensures CutAt(host, rows[k], name, c, k, i, j) {
      var row := rows[k];
      assert row in rows && row[name] in ValuesOf(rows, name);
      SubOrders(host, ValuesOf(rows, name) + {c}, {row[name], c});
      ColumnRuns(host, name, row, []);
      ConstRuns(host, c, row);
      Trichotomy(host, Expr.Column(name), Const(c), row, row[name], c);
    }
    assert Cut(host, rows, name, c, i, j);
  }

  predicate Takes(host: Host, op: CompareOp, name: string, c: Value, row: Row) {
    Holds(host, op, Expr.Column(name), Const(c), row)
  }

  predicate CutAt(host: Host, row: Row, name: string, c: Value, k: nat, i: nat, j: nat) {
    && (Takes(host, Lt, name, c, row) <==> k < i)
    && (Takes(host, Eq, name, c, row) <==> i <= k < j)
    && (Takes(host, Eq, name, c, row) <==> GetColumn(row, name) == c)
    && (Takes(host, Gt, name, c, row) <==> j <= k)
    && (Takes(host, Le, name, c, row) <==> k < j)
    && (Takes(host, Ge, name, c, row) <==> i <= k)
    && (Takes(host, Ne, name, c, row) <==> !(i <= k < j))
  }

  predicate Cut(host: Host, rows: seq<Row>, name: string, c: Value, i: nat, j: nat) {
    forall k | 0 <= k < |rows| :: CutAt(host, rows[k], name, c, k, i, j)
  }

  /** IS NULL takes the rows without a value, IS NOT NULL the others. */
  lemma NullTests(host: Host, name: string, row: Row, negated: bool)
    requires HostOk(host)
    ensures Run(host, CompilePredicate(IsNull(Expr.Column(name), negated)), row, []) == Ok(Bool(true))
      <==> ((name !in row || row[name] == Null) <==> !negated)
  {
    PredicateRuns(host, IsNull(Expr.Column(name), negated), row, []);
  }

  // ---------------------------------------------------------------- arithmetic

  /** Exact integer arithmetic; a quotient is a float. */
  ghost predicate Integers(host: Host) {
    forall x: int, y: int ::
      && host.arith(Add, Int(x), Int(y)) == Gives(Int(x + y))
      && host.arith(Sub, Int(x), Int(y)) == Gives(Int(x - y))
      && host.arith(Mul, Int(x), Int(y)) == Gives(Int(x * y))
      && host.arith(Div, Int(x), Int(y)) == if y == 0 then ZeroDivision else Gives(Float(x as real / y as real))
  }

  lemma ArithmeticRuns(host: Host, op: ArithOp, left: Expr, right: Expr, row: Row, x: Value, y: Value)
    requires Ground(left, right) && Yields(host, left, row, [], x) && Yields(host, right, row, [], y)
    ensures Run(host, CompileExpression(Arith(op, left, right)), row, []) == ArithValue(host, op, x, y)
  {
    hide Run, ArithValue, Compile, RunCode, CompileExpression;
    ExpressionRuns(host, Arith(op, left, right), row, []);
    ExpressionRuns(host, left, row, []);
    ExpressionRuns(host, right, row, []);
    var none: seq<Value> := [];
    assert none[..0] == none && none[0..] == none;
  }

  lemma IntegerValue(host: Host, op: ArithOp, x: int, y: int)
    requires Integers(host)
    ensures ArithValue(host, op, Int(x), Int(y)) == Ok(
      match op
      case Add => Int(x + y)
      case Sub => Int(x - y)
      case Mul => Int(x * y)
      case Div => if y == 0 then Null else Float(x as real / y as real))
  {
  }

  lemma ProductDivides(x: int, y: int)
    requires y != 0
    ensures (x * y) as real / y as real == x as real
  {
    var a, b := x as real, y as real;
    assert (x * y) as real == a * b;
    assert a * b / b == a;
  }

  /** What is added is taken away again. */
  lemma AddedThenTaken(host: Host, left: Expr, right: Expr, row: Row, x: int, y: int)
    requires Integers(host) && Ground(left, right) && Yields(host, left, row, [], Int(x)) && Yields(host, right, row, [], Int(y))
    ensures Yields(host, Arith(Sub, Arith(Add, left, right), right), row, [], Int(x))
  {
    hide Run, Integers, CompileExpression;
    IntegerValue(host, Add, x, y);
    IntegerValue(host, Sub, x + y, y);
    ArithmeticRuns(host, Add, left, right, row, Int(x), Int(y));
    ArithmeticRuns(host, Sub, Arith(Add, left, right), right, row, Int(x + y), Int(y));
  }

  /** What is multiplied is divided again, and a division by zero is NULL. */
  lemma MultipliedThenDivided(host: Host, left: Expr, right: Expr, row: Row, x: int, y: int)
    requires Integers(host) && Ground(left, right) && Yields(host, left, row, [], Int(x)) && Yields(host, right, row, [], Int(y))
    ensures Yields(host, Arith(Div, Arith(Mul, left, right), right), row, [], if y == 0 then Null else Float(x as real))
  {
    hide Run, Integers, CompileExpression, ArithValue;
    var product := x * y;
    IntegerValue(host, Mul, x, y);
    IntegerValue(host, Div, product, y);
    ArithmeticRuns(host, Mul, left, right, row, Int(x), Int(y));
    ArithmeticRuns(host, Div, Arith(Mul, left, right), right, row, Int(product), Int(y));
    if y != 0 { ProductDivides(x, y); }
  }

  /** NULL makes any arithmetic NULL. */
  lemma NullSpreads(host: Host, op: ArithOp, left: Expr, right: Expr, row: Row, x: Value, y: Value)
    requires Ground(left, right) && Yields(host, left, row, [], x) && Yields(host, right, row, [], y) && (x == Null || y == Null)
    ensures Yields(host, Arith(op, left, right), row, [], Null)
  {
    hide Run;
    ArithmeticRuns(host, op, left, right, row, x, y);
  }
}
