/** The compiler object, the run loop of the stack machine, and the statement compiler, updated in place
    (novadb/bytecode.py, novadb/prepared.py). */
module BytecodeMachine {
  import opened Tables
  import opened Bytecode
  import opened Prepared

  lemma CompileAllSplit(args: seq<Expr>, i: nat, next: nat)
    requires i < |args|
    ensures CompileAll(args[..i + 1], next) == CompileAll(args[..i], next) + Compile(args[i], next + ParamsAll(args[..i]))
    ensures ParamsAll(args[..i + 1]) == ParamsAll(args[..i]) + Params(args[i])
    decreases i
  {
    hide Compile, Params;
    if i == 0 {
      assert args[..1] == [args[0]] && args[..1][1..] == [];
      var code := Compile(args[0], next);
      assert code + [] == code && [] + code == code;
      assert CompileAll([], next + Params(args[0])) == [];
    } else {
      var rest := args[1..];
      assert args[..i + 1][1..] == rest[..i] && args[..i][1..] == rest[..i - 1];
      assert args[..i + 1][0] == args[0] && args[..i][0] == args[0];
      assert CompileAll(args[..i + 1], next) == Compile(args[0], next) + CompileAll(rest[..i], next + Params(args[0]));
      assert CompileAll(args[..i], next) == Compile(args[0], next) + CompileAll(rest[..i - 1], next + Params(args[0]));
      CompileAllSplit(rest, i - 1, next + Params(args[0]));
      CodeAssoc(Compile(args[0], next), CompileAll(rest[..i - 1], next + Params(args[0])), Compile(args[i], next + ParamsAll(args[..i])));
    }
  }

  lemma CodeAssoc(a: seq<Instr>, b: seq<Instr>, c: seq<Instr>)
    ensures (a + b) + c == a + (b + c)
  {
  }

  lemma CompilePartsSplit(parts: seq<Pred>, i: nat, connective: Instr, next: nat, first: bool)
    requires i < |parts|
    ensures CompileParts(parts[..i + 1], connective, next, first)
      == CompileParts(parts[..i], connective, next, first)
         + (CompilePred(parts[i], next + PredParamsAll(parts[..i])) + if first && i == 0 then [] else [connective])
    ensures PredParamsAll(parts[..i + 1]) == PredParamsAll(parts[..i]) + PredParams(parts[i])
    decreases i
  {
    hide CompilePred, PredParams;
    var joint := if first then [] else [connective];
    if i == 0 {
      assert parts[..1] == [parts[0]] && parts[..1][1..] == [];
      var code := CompilePred(parts[0], next) + joint;
      assert code + [] == code && [] + code == code;
      assert CompileParts([], connective, next + PredParams(parts[0]), false) == [];
    } else {
      var rest := parts[1..];
      assert parts[..i + 1][1..] == rest[..i] && parts[..i][1..] == rest[..i - 1];
      assert parts[..i + 1][0] == parts[0] && parts[..i][0] == parts[0];
      CompilePartsSplit(rest, i - 1, connective, next + PredParams(parts[0]), false);
      CodeAssoc(CompilePred(parts[0], next) + joint, CompileParts(rest[..i - 1], connective, next + PredParams(parts[0]), false),
                CompilePred(parts[i], next + PredParamsAll(parts[..i])) + [connective]);
    }
  }

  /** The compiler: instructions appended one by one, placeholders counted as they come. */
  class Compiler {
    var instructions: seq<Instr>
    var parameterCount: nat

    constructor ()
      ensures instructions == [] && parameterCount == 0
    {
      instructions, parameterCount := [], 0;
    }

    method CompileValue(e: Expr)
      modifies this
      ensures instructions == old(instructions) + Compile(e, old(parameterCount))
      ensures parameterCount == old(parameterCount) + Params(e)
      decreases e
    {
      match e {
        case Param =>
          instructions := instructions + [LoadParam(parameterCount)];
          parameterCount := parameterCount + 1;
        case Column(name) =>
          instructions := instructions + [LoadCol(name)];
        case Const(v) =>
          instructions := instructions + [PushConst(v)];
        case Call(name, args) =>
          assert args[..0] == [] && instructions + [] == instructions;
          for i := 0 to |args|
            invariant instructions == old(instructions) + CompileAll(args[..i], old(parameterCount))
            invariant parameterCount == old(parameterCount) + ParamsAll(args[..i])
          {
            CompileAllSplit(args, i, old(parameterCount));
            CodeAssoc(old(instructions), CompileAll(args[..i], old(parameterCount)), Compile(args[i], parameterCount));
            CompileValue(args[i]);
          }
          assert args[..|args|] == args;
          CodeAssoc(old(instructions), CompileAll(args, old(parameterCount)), [CallFunction(name, |args|)]);
          instructions := instructions + [CallFunction(name, |args|)];
        case Arith(op, left, right) =>
          TwoAssoc(instructions, Compile(left, parameterCount), Compile(right, parameterCount + Params(left)), Arithmetic(op));
          CompileValue(left);
          CompileValue(right);
          instructions := instructions + [Arithmetic(op)];
      }
    }

    lemma TwoAssoc(code: seq<Instr>, a: seq<Instr>, b: seq<Instr>, instr: Instr)
      ensures ((code + a) + b) + [instr] == code + (a + b + [instr])
    {
    }

    method CompilePredicateCode(p: Pred)
      requires Parsed(p)
      modifies this
      ensures instructions == old(instructions) + CompilePred(p, old(parameterCount))
      ensures parameterCount == old(parameterCount) + PredParams(p)
      decreases p, 1
    {
      match p {
        case Or(parts) => CompileConnective(p, parts, OrAny);
        case And(parts) => CompileConnective(p, parts, AndAll);
        case IsNull(e, negated) =>
          CodeAssoc(instructions, Compile(e, parameterCount), [TestNull(negated)]);
          CompileValue(e);
          instructions := instructions + [TestNull(negated)];
        case Compare(op, left, right) =>
          TwoAssoc(instructions, Compile(left, parameterCount), Compile(right, parameterCount + Params(left)), Cmp(op));
          CompileValue(left);
          CompileValue(right);
          instructions := instructions + [Cmp(op)];
        case Test(e) => CompileValue(e);
      }
    }

    method CompileConnective(ghost p: Pred, parts: seq<Pred>, connective: Instr)
      requires Parsed(p) && (p == Or(parts) || p == And(parts))
      modifies this
      ensures instructions == old(instructions) + CompileParts(parts, connective, old(parameterCount), true)
      ensures parameterCount == old(parameterCount) + PredParamsAll(parts)
      decreases p, 0
    {
      assert parts[..0] == [] && instructions + [] == instructions;
      for i := 0 to |parts|
        invariant instructions == old(instructions) + CompileParts(parts[..i], connective, old(parameterCount), true)
        invariant parameterCount == old(parameterCount) + PredParamsAll(parts[..i])
      {
        CompilePartsSplit(parts, i, connective, old(parameterCount), true);
        ghost var so_far := CompileParts(parts[..i], connective, old(parameterCount), true);
        ghost var code := CompilePred(parts[i], parameterCount);
        CodeAssoc(old(instructions), so_far, code + if i == 0 then [] else [connective]);
        CodeAssoc(old(instructions) + so_far, code, [connective]);
        assert code + [] == code;
        assert Parsed(parts[i]);
        CompilePredicateCode(parts[i]);
        if i > 0 {
          instructions := instructions + [connective];
        }
      }
      assert parts[..|parts|] == parts;
    }
  }

  // ---------------------------------------------------------------- the machine's loop

  /** run. */
  method RunProgram(host: Host, program: Program, row: Row, params: seq<Value>) returns (r: Result<Value>)
    ensures r == Run(host, program, row, params)
  {
    if |params| < program.parameterCount {
      return MissingParameter;
    }
    var stack: seq<Value> := [];
    var code := program.code;
    for i := 0 to |code|
      invariant RunCode(host, code, row, params, []) == RunCode(host, code[i..], row, params, stack)
    {
      assert code[i..][0] == code[i] && code[i..][1..] == code[i + 1..];
      var next := Step(host, code[i], row, params, stack);
      match next {
        case Ok(s) => stack := s;
        case Raised => return Raised;
        case StackUnderflow => return StackUnderflow;
        case MissingParameter => return MissingParameter;
      }
    }
    r := Ok(if stack == [] then Null else stack[|stack| - 1]);
  }

  // ---------------------------------------------------------------- statements

  lemma ProjectionsSplit(projections: seq<Expr>, i: nat, offset: nat)
    requires i < |projections|
    ensures CompileProjections(projections[..i + 1], offset)
      == CompileProjections(projections[..i], offset) + [Rebase(CompileExpression(projections[i]), offset + ParamsAll(projections[..i]))]
    ensures ParamsAll(projections[..i + 1]) == ParamsAll(projections[..i]) + Params(projections[i])
    decreases i
  {
    hide CompileExpression, Rebase, Params;
    if i == 0 {
      assert projections[..1] == [projections[0]] && projections[..1][1..] == [];
    } else {
      var rest := projections[1..];
      assert projections[..i + 1][1..] == rest[..i] && projections[..i][1..] == rest[..i - 1];
      ProjectionsSplit(rest, i - 1, offset + Params(projections[0]));
    }
  }

  /** _compile_select: the projections in order, each rebased past the placeholders before it, then the predicate. */
  method CompileStatement(s: Select) returns (c: CompiledSelect)
    requires s.filter.Some? ==> Parsed(s.filter.value)
    ensures c == CompileSelect(s)
  {
    var programs: seq<Program> := [];
    var offset := 0;
    for i := 0 to |s.projections|
      invariant programs == CompileProjections(s.projections[..i], 0) && offset == ParamsAll(s.projections[..i])
    {
      ProjectionsSplit(s.projections, i, 0);
      var compiler := new Compiler();
      compiler.CompileValue(s.projections[i]);
      assert [] + Compile(s.projections[i], 0) == Compile(s.projections[i], 0);
      programs := programs + [Rebase(Program(compiler.instructions, compiler.parameterCount), offset)];
      offset := offset + compiler.parameterCount;
    }
    assert s.projections[..|s.projections|] == s.projections;
    if s.filter.None? {
      return CompiledSelect(programs, None);
    }
    var compiler := new Compiler();
    compiler.CompilePredicateCode(s.filter.value);
    assert [] + CompilePred(s.filter.value, 0) == CompilePred(s.filter.value, 0);
    c := CompiledSelect(programs, Some(Rebase(Program(compiler.instructions, compiler.parameterCount), offset)));
  }

  /** The cursor loop that binds an INSERT template. */
  method BindTemplate(items: seq<Item>, params: seq<Value>) returns (bound: seq<Value>)
    ensures bound == Bound(items, params)
  {
    bound := [];
    var cursor := 0;
    assert params[0..] == params && items[0..] == items && [] + Bound(items, params) == Bound(items, params);
    for i := 0 to |items|
      invariant cursor <= |params| && Bound(items, params) == bound + Bound(items[i..], params[cursor..])
    {
      var value := if items[i].Placeholder? then Null else items[i].value;
      assert items[i..][0] == items[i] && items[i..][1..] == items[i + 1..];
      if value == Null && cursor < |params| {
        assert params[cursor..][1..] == params[cursor + 1..];
        BoundAssoc(bound, params[cursor], Bound(items[i + 1..], params[cursor + 1..]));
        bound := bound + [params[cursor]];
        cursor := cursor + 1;
      } else {
        BoundAssoc(bound, value, Bound(items[i + 1..], params[cursor..]));
        bound := bound + [value];
      }
    }
    assert bound + [] == bound;
  }

  lemma BoundAssoc(a: seq<Value>, v: Value, b: seq<Value>)
    ensures a + ([v] + b) == (a + [v]) + b
  {
  }
}
