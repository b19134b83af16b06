/** Prepared statements (novadb/prepared.py): rebased programs, one numbering of placeholders over a whole
    SELECT, and the binding of INSERT templates. */
module Prepared {
  import opened Tables
  import opened Bytecode

  // ---------------------------------------------------------------- rebasing

  function RebaseInstr(instr: Instr, offset: nat): Instr {
    if instr.LoadParam? then LoadParam(instr.index + offset) else instr
  }

  /** _rebase_program. */
  function Rebase(program: Program, offset: nat): Program {
    Program(seq(|program.code|, i requires 0 <= i < |program.code| => RebaseInstr(program.code[i], offset)), program.parameterCount + offset)
  }

  lemma {:induction false} RebaseCode(host: Host, code: seq<Instr>, offset: nat, row: Row, params: seq<Value>, stack: seq<Value>)
    requires offset <= |params|
    ensures RunCode(host, Rebase(Program(code, 0), offset).code, row, params, stack) == RunCode(host, code, row, params[offset..], stack)
    decreases |code|
  {
    if code != [] {
      var rebased := Rebase(Program(code, 0), offset).code;
      assert rebased[1..] == Rebase(Program(code[1..], 0), offset).code;
      match Step(host, code[0], row, params[offset..], stack)
      case Ok(next) => RebaseCode(host, code[1..], offset, row, params, next);
      case _ =>
    }
  }

  /** A rebased program does with all the parameters what the program does with those from the offset on. */
  lemma RebasedRuns(host: Host, program: Program, offset: nat, row: Row, params: seq<Value>)
    requires offset <= |params|
    ensures Run(host, Rebase(program, offset), row, params) == Run(host, program, row, params[offset..])
  {
    RebaseCode(host, program.code, offset, row, params, []);
    assert Rebase(program, offset).code == Rebase(Program(program.code, 0), offset).code;
  }

  // ---------------------------------------------------------------- one SELECT

  /** The projections that are not aggregates, and the predicate if there is one. */
  datatype Select = Select(projections: seq<Expr>, filter: Option<Pred>)

  datatype CompiledSelect = CompiledSelect(projections: seq<Program>, filter: Option<Program>)

  /** _compile_select: each program starts its numbers where the ones before it ended. */
  function CompileProjections(projections: seq<Expr>, offset: nat): seq<Program>
    decreases |projections|
  {
    if projections == [] then []
    else [Rebase(CompileExpression(projections[0]), offset)] + CompileProjections(projections[1..], offset + Params(projections[0]))
  }

  function CompileSelect(s: Select): CompiledSelect {
    var offset := ParamsAll(s.projections);
    CompiledSelect(CompileProjections(s.projections, 0),
                   if s.filter.Some? then Some(Rebase(CompilePredicate(s.filter.value), offset)) else None)
  }

  function SelectParams(s: Select): nat {
    ParamsAll(s.projections) + if s.filter.Some? then PredParams(s.filter.value) else 0
  }

  /** The parameter numbers a piece of code loads, in order. */
  function Loads(code: seq<Instr>): seq<nat> {
    if code == [] then [] else (if code[0].LoadParam? then [code[0].index] else []) + Loads(code[1..])
  }

  function Numbers(from: nat, count: nat): seq<nat> {
    seq(count, i => from + i)
  }

  lemma {:induction false} LoadsSplit(a: seq<Instr>, b: seq<Instr>)
    ensures Loads(a + b) == Loads(a) + Loads(b)
  {
    if a == [] {
      assert a + b == b;
    } else {
      var one := if a[0].LoadParam? then [a[0].index] else [];
      assert (a + b)[0] == a[0] && (a + b)[1..] == a[1..] + b;
      assert Loads(a) == one + Loads(a[1..]) && Loads(a + b) == one + Loads(a[1..] + b);
      hide Loads;
      LoadsSplit(a[1..], b);
      Assoc(one, Loads(a[1..]), Loads(b));
    }
  }

  lemma Assoc(a: seq<nat>, b: seq<nat>, c: seq<nat>)
    ensures (a + b) + c == a + (b + c)
  {
  }

  lemma LoadsOne(instr: Instr)
    ensures Loads([instr]) == if instr.LoadParam? then [instr.index] else []
  {
    assert Loads([instr][1..]) == [];
  }

  lemma NumbersSplit(from: nat, n: nat, m: nat)
    ensures Numbers(from, n) + Numbers(from + n, m) == Numbers(from, n + m)
  {
  }

  lemma {:induction false} CompileLoads(e: Expr, next: nat)
    ensures Loads(Compile(e, next)) == Numbers(next, Params(e))
    decreases e
  {
    hide Loads, Numbers;
    NumbersFew(next);
    match e
    case Call(name, args) =>
      CompileAllLoads(args, next);
      LoadsSplit(CompileAll(args, next), [CallFunction(name, |args|)]);
      LoadsOne(CallFunction(name, |args|));
      assert Loads(CompileAll(args, next)) + [] == Loads(CompileAll(args, next));
    case Arith(op, left, right) =>
      var n := Params(left);
      CompileLoads(left, next);
      CompileLoads(right, next + n);
      LoadsTwo(Compile(left, next), Compile(right, next + n), Arithmetic(op), next, n, Params(right));
    case Param => LoadsOne(LoadParam(next));
    case Column(name) => LoadsOne(LoadCol(name));
    case Const(v) => LoadsOne(PushConst(v));
  }

  lemma NumbersFew(from: nat)
    ensures Numbers(from, 0) == [] && Numbers(from, 1) == [from]
  {
  }

  lemma LoadsTwo(a: seq<Instr>, b: seq<Instr>, last: Instr, next: nat, n: nat, m: nat)
    requires Loads(a) == Numbers(next, n) && Loads(b) == Numbers(next + n, m) && !last.LoadParam?
    ensures Loads(a + b + [last]) == Numbers(next, n + m)
  {
    LoadsSplit(a + b, [last]);
    LoadsSplit(a, b);
    LoadsOne(last);
    NumbersSplit(next, n, m);
  }

  lemma {:induction false} CompileAllLoads(args: seq<Expr>, next: nat)
    ensures Loads(CompileAll(args, next)) == Numbers(next, ParamsAll(args))
    decreases args
  {
    hide Loads, Numbers, Compile, Params;
    if args == [] {
      NumbersFew(next);
      NoLoads();
    } else {
      var n := Params(args[0]);
      assert CompileAll(args, next) == Compile(args[0], next) + CompileAll(args[1..], next + n);
      CompileLoads(args[0], next);
      CompileAllLoads(args[1..], next + n);
      LoadsSplit(Compile(args[0], next), CompileAll(args[1..], next + n));
      NumbersSplit(next, n, ParamsAll(args[1..]));
    }
  }

  lemma {:induction false} CompilePredLoads(p: Pred, next: nat)
    ensures Loads(CompilePred(p, next)) == Numbers(next, PredParams(p))
    decreases p
  {
    match p
    case Or(parts) => CompilePartsLoads(parts, OrAny, next, true);
    case And(parts) => CompilePartsLoads(parts, AndAll, next, true);
    case IsNull(e, negated) =>
      CompileLoads(e, next);
      LoadsSplit(Compile(e, next), [TestNull(negated)]);
      LoadsOne(TestNull(negated));
    case Compare(op, left, right) =>
      var n := Params(left);
      CompileLoads(left, next);
      CompileLoads(right, next + n);
      LoadsTwo(Compile(left, next), Compile(right, next + n), Cmp(op), next, n, Params(right));
    case Test(e) => CompileLoads(e, next);
  }

  lemma {:induction false} CompilePartsLoads(parts: seq<Pred>, connective: Instr, next: nat, first: bool)
    requires connective.AndAll? || connective.OrAny?
    ensures Loads(CompileParts(parts, connective, next, first)) == Numbers(next, PredParamsAll(parts))
    decreases parts
  {
    hide Loads, Numbers, CompilePred;
    NumbersFew(next);
    if parts == [] {
      NoLoads();
    } else {
      var n := PredParams(parts[0]);
      var code, more := CompilePred(parts[0], next), CompileParts(parts[1..], connective, next + n, false);
      var joint := if first then [] else [connective];
      CompilePredLoads(parts[0], next);
      CompilePartsLoads(parts[1..], connective, next + n, false);
      LoadsSplit(code + joint, more);
      LoadsSplit(code, joint);
      LoadsOne(connective);
      NoLoads();
      assert Loads(code) + [] == Loads(code);
      NumbersSplit(next, n, PredParamsAll(parts[1..]));
    }
  }

  lemma NoLoads()
    ensures Loads([]) == []
  {
  }

  lemma NumbersFrom(from: nat, count: nat, rest: seq<nat>, first: nat)
    requires [first] + rest == Numbers(from, count)
    ensures count > 0 && first == from && rest == Numbers(from + 1, count - 1)
  {
    assert |Numbers(from, count)| == |rest| + 1;
    assert Numbers(from, count)[0] == from && Numbers(from, count)[1..] == Numbers(from + 1, count - 1);
    assert ([first] + rest)[1..] == rest;
  }

  lemma {:induction false} RebaseLoads(code: seq<Instr>, offset: nat, from: nat, count: nat)
    requires Loads(code) == Numbers(from, count)
    ensures Loads(Rebase(Program(code, 0), offset).code) == Numbers(from + offset, count)
    decreases |code|
  {
    if code != [] {
      var rebased := Rebase(Program(code, 0), offset).code;
      assert rebased[0] == RebaseInstr(code[0], offset) && rebased[1..] == Rebase(Program(code[1..], 0), offset).code;
      hide Rebase;
      if code[0].LoadParam? {
        assert Loads(code) == [code[0].index] + Loads(code[1..]);
        NumbersFrom(from, count, Loads(code[1..]), code[0].index);
        RebaseLoads(code[1..], offset, from + 1, count - 1);
        assert Numbers(from + offset, count) == [from + offset] + Numbers(from + 1 + offset, count - 1);
      } else {
        assert [] + Loads(code[1..]) == Loads(code[1..]);
        RebaseLoads(code[1..], offset, from, count);
      }
    }
  }

  /** All the parameter numbers of a SELECT, program after program. */
  function ProgramLoads(programs: seq<Program>): seq<nat> {
    if programs == [] then [] else Loads(programs[0].code) + ProgramLoads(programs[1..])
  }

  lemma RebasedLoads(e: Expr, offset: nat)
    ensures Loads(Rebase(CompileExpression(e), offset).code) == Numbers(offset, Params(e))
  {
    CompileLoads(e, 0);
    RebaseLoads(Compile(e, 0), offset, 0, Params(e));
    assert Rebase(CompileExpression(e), offset).code == Rebase(Program(Compile(e, 0), 0), offset).code;
  }

  lemma {:induction false} ProjectionLoads(projections: seq<Expr>, offset: nat)
    ensures ProgramLoads(CompileProjections(projections, offset)) == Numbers(offset, ParamsAll(projections))
    decreases |projections|
  {
    hide Loads, Numbers, Rebase;
    if projections == [] {
      NumbersFew(offset);
    } else {
      var n := Params(projections[0]);
      var first, more := Rebase(CompileExpression(projections[0]), offset), CompileProjections(projections[1..], offset + n);
      RebasedLoads(projections[0], offset);
      ProjectionLoads(projections[1..], offset + n);
      assert ([first] + more)[1..] == more;
      NumbersSplit(offset, n, ParamsAll(projections[1..]));
    }
  }

  /** Over the projections and then the predicate, the placeholders are numbered 0, 1, 2, ... without a gap
      and without a clash. */
  lemma SelectNumbering(s: Select)
    ensures var c := CompileSelect(s);
      ProgramLoads(c.projections) + (if c.filter.Some? then Loads(c.filter.value.code) else []) == Numbers(0, SelectParams(s))
  {
    ProjectionLoads(s.projections, 0);
    if s.filter.Some? {
      var p, offset := s.filter.value, ParamsAll(s.projections);
      CompilePredLoads(p, 0);
      RebaseLoads(CompilePred(p, 0), offset, 0, PredParams(p));
      assert Rebase(CompilePredicate(p), offset).code == Rebase(Program(CompilePred(p, 0), 0), offset).code;
      NumbersSplit(0, offset, PredParams(p));
    } else {
      assert Numbers(0, ParamsAll(s.projections)) + [] == Numbers(0, ParamsAll(s.projections));
    }
  }

  function Offset(projections: seq<Expr>, i: nat): nat
    requires i <= |projections|
  {
    if i == 0 then 0 else Params(projections[0]) + Offset(projections[1..], i - 1)
  }

  lemma {:induction false} OffsetInside(projections: seq<Expr>, i: nat)
    requires i < |projections|
    ensures Offset(projections, i) + Params(projections[i]) <= ParamsAll(projections)
  {
    if i > 0 { OffsetInside(projections[1..], i - 1); }
  }

  lemma {:induction false} ProjectionAt(projections: seq<Expr>, offset: nat, i: nat)
    requires i < |projections|
    ensures |CompileProjections(projections, offset)| == |projections|
    ensures CompileProjections(projections, offset)[i] == Rebase(CompileExpression(projections[i]), offset + Offset(projections, i))
    decreases |projections|
  {
    if i > 0 {
      ProjectionAt(projections[1..], offset + Params(projections[0]), i - 1);
    } else if |projections| > 1 {
      ProjectionAt(projections[1..], offset + Params(projections[0]), 0);
    }
  }

  /** Run with the statement's parameters, each projection gives the value its own placeholders stand for. */
  lemma ProjectionRuns(host: Host, s: Select, i: nat, row: Row, params: seq<Value>)
    requires i < |s.projections| && |params| >= SelectParams(s)
    ensures Offset(s.projections, i) + Params(s.projections[i]) <= |params| && i < |CompileSelect(s).projections|
    ensures var from := Offset(s.projections, i);
      Run(host, CompileSelect(s).projections[i], row, params) == Eval(host, s.projections[i], row, params[from..from + Params(s.projections[i])])
  {
    var e, from := s.projections[i], Offset(s.projections, i);
    OffsetInside(s.projections, i);
    ProjectionIs(s, i);
    hide Run, Eval, Rebase, CompileExpression, CompileSelect, Offset;
    RebasedRuns(host, CompileExpression(e), from, row, params);
    ExpressionRuns(host, e, row, params[from..]);
    assert params[from..][..Params(e)] == params[from..from + Params(e)];
  }

  lemma ProjectionIs(s: Select, i: nat)
    requires i < |s.projections|
    ensures i < |CompileSelect(s).projections|
    ensures CompileSelect(s).projections[i] == Rebase(CompileExpression(s.projections[i]), Offset(s.projections, i))
  {
    ProjectionAt(s.projections, 0, i);
  }

  lemma PredicateOfSelectRuns(host: Host, s: Select, row: Row, params: seq<Value>)
    requires HostOk(host) && s.filter.Some? && Parsed(s.filter.value) && |params| == SelectParams(s)
    ensures Run(host, CompileSelect(s).filter.value, row, params)
      == EvalPred(host, s.filter.value, row, params[ParamsAll(s.projections)..])
  {
    var p, from := s.filter.value, ParamsAll(s.projections);
    RebasedRuns(host, CompilePredicate(p), from, row, params);
    PredicateRuns(host, p, row, params[from..]);
    assert params[from..][..PredParams(p)] == params[from..];
  }

  // ---------------------------------------------------------------- INSERT templates

  /** A value of an INSERT: written out, or a placeholder. */
  datatype Item = Literal(value: Value) | Placeholder

  function Placeholders(items: seq<Item>): nat {
    if items == [] then 0 else (if items[0].Placeholder? then 1 else 0) + Placeholders(items[1..])
  }

  /** What the statement says: the k-th placeholder stands for the k-th parameter. */
  function Meant(items: seq<Item>, params: seq<Value>): seq<Value>
    requires |params| == Placeholders(items)
  {
    if items == [] then []
    else if items[0].Placeholder? then [params[0]] + Meant(items[1..], params[1..])
    else [items[0].value] + Meant(items[1..], params)
  }

  /** What execute binds: the placeholders became NULLs, and every NULL takes the next parameter. */
  function Bound(items: seq<Item>, params: seq<Value>): seq<Value>
  {
    if items == [] then []
    else if (items[0].Placeholder? || items[0].value == Null) && params != [] then [params[0]] + Bound(items[1..], params[1..])
    else [if items[0].Placeholder? then Null else items[0].value] + Bound(items[1..], params)
  }

  /** A NULL written out before a placeholder. */
  predicate NullBeforePlaceholder(items: seq<Item>) {
    exists i, j :: 0 <= i < j < |items| && items[i] == Literal(Null) && items[j].Placeholder?
  }

  lemma {:induction false} NoneLeft(items: seq<Item>)
    requires Placeholders(items) == 0
    ensures Bound(items, []) == Meant(items, [])
  {
    if items != [] { NoneLeft(items[1..]); }
  }

  lemma {:induction false} PlaceholderLeft(items: seq<Item>)
    requires Placeholders(items) > 0
    ensures exists j :: 0 <= j < |items| && items[j].Placeholder?
  {
    if !items[0].Placeholder? {
      PlaceholderLeft(items[1..]);
      var j :| 0 <= j < |items| - 1 && items[1..][j].Placeholder?;
      assert items[j + 1].Placeholder?;
    }
  }

  lemma NullBeforeInRest(items: seq<Item>)
    requires items != []
    ensures NullBeforePlaceholder(items[1..]) ==> NullBeforePlaceholder(items)
    ensures items[0] == Literal(Null) && Placeholders(items[1..]) > 0 ==> NullBeforePlaceholder(items)
  {
    var rest := items[1..];
    if i, j :| 0 <= i < j < |rest| && rest[i] == Literal(Null) && rest[j].Placeholder? {
      assert items[i + 1] == Literal(Null) && items[j + 1].Placeholder?;
    }
    if items[0] == Literal(Null) && Placeholders(rest) > 0 {
      PlaceholderLeft(rest);
      var j :| 0 <= j < |rest| && rest[j].Placeholder?;
      assert items[j + 1].Placeholder?;
    }
  }

  lemma {:induction false} BindsAsMeant(items: seq<Item>, params: seq<Value>)
    requires |params| == Placeholders(items) && !NullBeforePlaceholder(items)
    ensures Bound(items, params) == Meant(items, params)
    decreases |items|
  {
    if items != [] {
      NullBeforeInRest(items);
      if params == [] {
        NoneLeft(items);
      } else if items[0].Placeholder? {
        BindsAsMeant(items[1..], params[1..]);
      } else {
        BindsAsMeant(items[1..], params);
      }
    }
  }

  function Repeat(v: Value, n: nat): seq<Value> {
    seq(n, i => v)
  }

  lemma {:induction false} BindsWrong(items: seq<Item>, v: Value)
    requires NullBeforePlaceholder(items) && v != Null
    ensures Bound(items, Repeat(v, Placeholders(items))) != Meant(items, Repeat(v, Placeholders(items)))
    decreases |items|
  {
    var n, rest := Placeholders(items), items[1..];
    var params := Repeat(v, n);
    var i, j :| 0 <= i < j < |items| && items[i] == Literal(Null) && items[j].Placeholder?;
    PlaceholderCounts(items, j);
    if items[0] == Literal(Null) {
      assert Bound(items, params)[0] == v && Meant(items, params)[0] == Null;
    } else {
      assert rest[i - 1] == Literal(Null) && rest[j - 1].Placeholder?;
      BindsWrong(rest, v);
      PlaceholderCounts(rest, j - 1);
      assert items[0].Placeholder? ==> params[1..] == Repeat(v, n - 1);
      assert Bound(items, params)[1..] == Bound(rest, Repeat(v, Placeholders(rest)));
      assert Meant(items, params)[1..] == Meant(rest, Repeat(v, Placeholders(rest)));
    }
  }

  lemma {:induction false} PlaceholderCounts(items: seq<Item>, j: nat)
    requires j < |items| && items[j].Placeholder?
    ensures Placeholders(items) > 0
  {
    if j > 0 { PlaceholderCounts(items[1..], j - 1); }
  }

  /** A prepared INSERT binds what it says, whatever the parameters, exactly when it writes out no NULL
      before a placeholder. */
  lemma InsertBindsIff(items: seq<Item>)
    ensures (forall params: seq<Value> | |params| == Placeholders(items) :: Bound(items, params) == Meant(items, params))
      <==> !NullBeforePlaceholder(items)
  {
    if NullBeforePlaceholder(items) {
      BindsWrong(items, Bool(true));
      assert |Repeat(Bool(true), Placeholders(items))| == Placeholders(items);
    } else {
      forall params: seq<Value> | |params| == Placeholders(items) ensures Bound(items, params) == Meant(items, params) {
        BindsAsMeant(items, params);
      }
    }
  }
}
