/** The expression compiler and stack machine of novadb/bytecode.py, and the parameter numbering of
    prepared statements (novadb/prepared.py). Expressions start out parsed. */
module Bytecode {
  import opened Tables

  // ---------------------------------------------------------------- expressions

  datatype ArithOp = Add | Sub | Mul | Div

  datatype CompareOp = Eq | Ne | Lt | Gt | Le | Ge

  /** Value expressions; a `?` does not know its number. */
  datatype Expr =
    | Param
    | Column(name: string)
    | Const(value: Value)
    | Call(name: string, args: seq<Expr>)
    | Arith(op: ArithOp, left: Expr, right: Expr)

  datatype Pred =
    | Or(parts: seq<Pred>)
    | And(parts: seq<Pred>)
    | IsNull(operand: Expr, negated: bool)
    | Compare(op: CompareOp, left: Expr, right: Expr)
    | Test(operand: Expr)

  /** How a primitive ends: a value, a division by zero, or another exception. */
  datatype Primitive = Gives(value: Value) | ZeroDivision | Fails

  /** Python's own operations on values that are not None. */
  datatype Host = Host(
    arith: (ArithOp, Value, Value) -> Primitive,
    ordered: (Value, Value) -> bool,
    less: (Value, Value) -> bool,
    truth: Value -> bool,
    call: (string, seq<Value>) -> Option<Value>)

  /** How an evaluation ends; the last two are the machine's own failures. */
  datatype Result<T> = Ok(value: T) | Raised | StackUnderflow | MissingParameter

  /** As the parser makes them: a connective joins at least two parts. */
  predicate Parsed(p: Pred)
    decreases p
  {
    (p.Or? || p.And? ==> |p.parts| >= 2 && forall i | 0 <= i < |p.parts| :: Parsed(p.parts[i]))
  }

  ghost predicate HostOk(host: Host) {
    forall b :: host.truth(Bool(b)) == b
  }

  // ---------------------------------------------------------------- meaning

  function ArithValue(host: Host, op: ArithOp, left: Value, right: Value): Result<Value> {
    if left == Null || right == Null then Ok(Null)
    else
      match host.arith(op, left, right)
      case Gives(v) => Ok(v)
      case ZeroDivision => if op == Div then Ok(Null) else Raised
      case Fails => Raised
  }

  /** _compare: NULL equals only NULL; values that do not order compare false. */
  function CompareValue(host: Host, op: CompareOp, left: Value, right: Value): bool {
    if left == Null || right == Null then op == Eq && left == Null && right == Null
    else if !host.ordered(left, right) then false
    else
      match op
      case Eq => left == right
      case Ne => left != right
      case Lt => host.less(left, right)
      case Gt => host.less(right, left)
      case Le => host.less(left, right) || left == right
      case Ge => host.less(right, left) || left == right
  }

  function GetColumn(row: Row, name: string): Value {
    if name in row then row[name] else Null
  }

  /** The number of placeholders. */
  function Params(e: Expr): nat
    decreases e
  {
    match e
    case Param => 1
    case Call(_, args) => ParamsAll(args)
    case Arith(_, left, right) => Params(left) + Params(right)
    case _ => 0
  }

  function ParamsAll(args: seq<Expr>): nat
    decreases args
  {
    if args == [] then 0 else Params(args[0]) + ParamsAll(args[1..])
  }

  function PredParams(p: Pred): nat
    decreases p
  {
    match p
    case Or(parts) => PredParamsAll(parts)
    case And(parts) => PredParamsAll(parts)
    case IsNull(e, _) => Params(e)
    case Compare(_, left, right) => Params(left) + Params(right)
    case Test(e) => Params(e)
  }

  function PredParamsAll(parts: seq<Pred>): nat
    decreases parts
  {
    if parts == [] then 0 else PredParams(parts[0]) + PredParamsAll(parts[1..])
  }

  /** The value of an expression whose placeholders, left to right, stand for `params`. */
  function Eval(host: Host, e: Expr, row: Row, params: seq<Value>): (r: Result<Value>)
    requires |params| == Params(e)
    ensures r.Ok? || r.Raised?
    decreases e
  {
    match e
    case Param => Ok(params[0])
    case Column(name) => Ok(GetColumn(row, name))
    case Const(v) => Ok(v)
    case Call(name, args) =>
      (match EvalAll(host, args, row, params)
       case Ok(vs) => (match host.call(name, vs) case None => Raised case Some(v) => Ok(v))
       case _ => Raised)
    case Arith(op, left, right) =>
      var l, r := Eval(host, left, row, params[..Params(left)]), Eval(host, right, row, params[Params(left)..]);
      if l.Ok? && r.Ok? then ArithValue(host, op, l.value, r.value) else Raised
  }

  function EvalAll(host: Host, args: seq<Expr>, row: Row, params: seq<Value>): (r: Result<seq<Value>>)
    requires |params| == ParamsAll(args)
    ensures r.Ok? || r.Raised?
    ensures r.Ok? ==> |r.value| == |args|
    decreases args
  {
    if args == [] then Ok([])
    else
      var n := Params(args[0]);
      var first, rest := Eval(host, args[0], row, params[..n]), EvalAll(host, args[1..], row, params[n..]);
      if first.Ok? && rest.Ok? then Ok([first.value] + rest.value) else Raised
  }

  /** AND and OR evaluate all their parts: the conjunction, or disjunction, of their truth. */
  function EvalPred(host: Host, p: Pred, row: Row, params: seq<Value>): (r: Result<Value>)
    requires |params| == PredParams(p)
    ensures r.Ok? || r.Raised?
    decreases p
  {
    match p
    case Or(parts) =>
      (match EvalParts(host, parts, row, params)
       case Ok(vs) => Ok(Bool(exists v :: v in vs && host.truth(v)))
       case _ => Raised)
    case And(parts) =>
      (match EvalParts(host, parts, row, params)
       case Ok(vs) => Ok(Bool(forall v | v in vs :: host.truth(v)))
       case _ => Raised)
    case IsNull(e, negated) =>
      var v := Eval(host, e, row, params);
      if v.Ok? then Ok(Bool((v.value == Null) != negated)) else Raised
    case Compare(op, left, right) =>
      var l, r := Eval(host, left, row, params[..Params(left)]), Eval(host, right, row, params[Params(left)..]);
      if l.Ok? && r.Ok? then Ok(Bool(CompareValue(host, op, l.value, r.value))) else Raised
    case Test(e) => Eval(host, e, row, params)
  }

  function EvalParts(host: Host, parts: seq<Pred>, row: Row, params: seq<Value>): (r: Result<seq<Value>>)
    requires |params| == PredParamsAll(parts)
    ensures r.Ok? || r.Raised?
    ensures r.Ok? ==> |r.value| == |parts|
    decreases parts
  {
    if parts == [] then Ok([])
    else
      var n := PredParams(parts[0]);
      var first, rest := EvalPred(host, parts[0], row, params[..n]), EvalParts(host, parts[1..], row, params[n..]);
      if first.Ok? && rest.Ok? then Ok([first.value] + rest.value) else Raised
  }

  // ---------------------------------------------------------------- instructions

  datatype Instr =
    | LoadCol(name: string)
    | PushConst(value: Value)
    | LoadParam(index: nat)
    | CallFunction(name: string, arity: nat)
    | Arithmetic(op: ArithOp)
    | Cmp(test: CompareOp)
    | TestNull(negated: bool)
    | Not
    | AndAll
    | OrAny

  datatype Program = Program(code: seq<Instr>, parameterCount: nat)

  function Pop2(stack: seq<Value>, f: (Value, Value) -> Result<Value>): Result<seq<Value>> {
    if |stack| < 2 then StackUnderflow
    else
      match f(stack[|stack| - 2], stack[|stack| - 1])
      case Ok(v) => Ok(stack[..|stack| - 2] + [v])
      case _ => Raised
  }

  /** One instruction. A call takes what is there when the stack is shorter than its arity. */
  function Step(host: Host, instr: Instr, row: Row, params: seq<Value>, stack: seq<Value>): Result<seq<Value>> {
    match instr
    case LoadCol(name) => Ok(stack + [GetColumn(row, name)])
    case PushConst(v) => Ok(stack + [v])
    case LoadParam(index) => if index < |params| then Ok(stack + [params[index]]) else MissingParameter
    case CallFunction(name, arity) =>
      var base := if arity <= |stack| then |stack| - arity else 0;
      (match host.call(name, stack[base..])
       case None => Raised
       case Some(v) => Ok(stack[..base] + [v]))
    case Arithmetic(op) => Pop2(stack, (l, r) => ArithValue(host, op, l, r))
    case Cmp(op) => Pop2(stack, (l, r) => Ok(Bool(CompareValue(host, op, l, r))))
    case AndAll => Pop2(stack, (l, r) => Ok(Bool(host.truth(l) && host.truth(r))))
    case OrAny => Pop2(stack, (l, r) => Ok(Bool(host.truth(l) || host.truth(r))))
    case TestNull(negated) =>
      if stack == [] then StackUnderflow else Ok(stack[..|stack| - 1] + [Bool((stack[|stack| - 1] == Null) != negated)])
    case Not =>
      if stack == [] then StackUnderflow else Ok(stack[..|stack| - 1] + [Bool(!host.truth(stack[|stack| - 1]))])
  }

  function RunCode(host: Host, code: seq<Instr>, row: Row, params: seq<Value>, stack: seq<Value>): Result<seq<Value>>
    decreases |code|
  {
    if code == [] then Ok(stack)
    else
      match Step(host, code[0], row, params, stack)
      case Ok(next) => RunCode(host, code[1..], row, params, next)
      case Raised => Raised
      case StackUnderflow => StackUnderflow
      case MissingParameter => MissingParameter
  }

  /** run: too few parameters are refused; the result is the top of the stack. */
  function Run(host: Host, program: Program, row: Row, params: seq<Value>): Result<Value> {
    if |params| < program.parameterCount then MissingParameter
    else
      match RunCode(host, program.code, row, params, [])
      case Ok(stack) => Ok(if stack == [] then Null else stack[|stack| - 1])
      case Raised => Raised
      case StackUnderflow => StackUnderflow
      case MissingParameter => MissingParameter
  }

  // ---------------------------------------------------------------- compilation

  /** compile_value, with the number the next placeholder gets. */
  function Compile(e: Expr, next: nat): seq<Instr>
    decreases e
  {
    match e
    case Param => [LoadParam(next)]
    case Column(name) => [LoadCol(name)]
    case Const(v) => [PushConst(v)]
    case Call(name, args) => CompileAll(args, next) + [CallFunction(name, |args|)]
    case Arith(op, left, right) => Compile(left, next) + Compile(right, next + Params(left)) + [Arithmetic(op)]
  }

  function CompileAll(args: seq<Expr>, next: nat): seq<Instr>
    decreases args
  {
    if args == [] then [] else Compile(args[0], next) + CompileAll(args[1..], next + Params(args[0]))
  }

  /** compile_predicate: the first part, then each further part and its connective. */
  function CompilePred(p: Pred, next: nat): seq<Instr>
    decreases p
  {
    match p
    case Or(parts) => CompileParts(parts, OrAny, next, true)
    case And(parts) => CompileParts(parts, AndAll, next, true)
    case IsNull(e, negated) => Compile(e, next) + [TestNull(negated)]
    case Compare(op, left, right) => Compile(left, next) + Compile(right, next + Params(left)) + [Cmp(op)]
    case Test(e) => Compile(e, next)
  }

  function CompileParts(parts: seq<Pred>, connective: Instr, next: nat, first: bool): seq<Instr>
    decreases parts
  {
    if parts == [] then []
    else
      CompilePred(parts[0], next) + (if first then [] else [connective])
      + CompileParts(parts[1..], connective, next + PredParams(parts[0]), false)
  }

  function CompileExpression(e: Expr): Program {
    Program(Compile(e, 0), Params(e))
  }

  function CompilePredicate(p: Pred): Program {
    Program(CompilePred(p, 0), PredParams(p))
  }

  // ---------------------------------------------------------------- correctness

  /** What is left to do once a value is on the stack, or once one was raised. */
  function Then(v: Result<Value>, host: Host, rest: seq<Instr>, row: Row, params: seq<Value>, stack: seq<Value>): Result<seq<Value>> {
    match v
    case Ok(x) => RunCode(host, rest, row, params, stack + [x])
    case _ => Raised
  }

  lemma RunStep(host: Host, instr: Instr, rest: seq<Instr>, row: Row, params: seq<Value>, stack: seq<Value>)
    ensures var next := Step(host, instr, row, params, stack);
      RunCode(host, [instr] + rest, row, params, stack) == if next.Ok? then RunCode(host, rest, row, params, next.value) else next
  {
    assert ([instr] + rest)[1..] == rest;
  }

  /** Compiled code, wherever it stands, pushes the expression's value on whatever is on the stack. */
  lemma {:induction false} CompileRuns(host: Host, e: Expr, next: nat, rest: seq<Instr>, row: Row, params: seq<Value>, stack: seq<Value>)
    requires next + Params(e) <= |params|
    ensures RunCode(host, Compile(e, next) + rest, row, params, stack)
      == Then(Eval(host, e, row, params[next..next + Params(e)]), host, rest, row, params, stack)
    decreases e, 1
  {
    hide RunCode;
    match e
    case Param => RunStep(host, LoadParam(next), rest, row, params, stack);
    case Column(name) => RunStep(host, LoadCol(name), rest, row, params, stack);
    case Const(v) => RunStep(host, PushConst(v), rest, row, params, stack);
    case Call(name, args) =>
      var mine := params[next..next + Params(e)];
      var call := CallFunction(name, |args|);
      assert Compile(e, next) + rest == CompileAll(args, next) + ([call] + rest);
      CompileAllRuns(host, args, next, [call] + rest, row, params, stack);
      var vs := EvalAll(host, args, row, mine);
      if vs.Ok? {
        CallRuns(host, name, vs.value, rest, row, params, stack);
      }
    case Arith(op, left, right) => ArithRuns(host, e, next, rest, row, params, stack);
  }

  lemma {:induction false} ArithRuns(host: Host, e: Expr, next: nat, rest: seq<Instr>, row: Row, params: seq<Value>, stack: seq<Value>)
    requires e.Arith? && next + Params(e) <= |params|
    ensures RunCode(host, Compile(e, next) + rest, row, params, stack)
      == Then(Eval(host, e, row, params[next..next + Params(e)]), host, rest, row, params, stack)
    decreases e, 0
  {
    hide RunCode;
    var left, right, op := e.left, e.right, e.op;
    var n := Params(left);
    SliceTwice(params, next, n, Params(right));
    var mine := params[next..next + Params(e)];
    var l, r := Eval(host, left, row, mine[..n]), Eval(host, right, row, mine[n..]);
    var tail := [Arithmetic(op)] + rest;
    CodeRegrouped(Compile(left, next), Compile(right, next + n), Arithmetic(op), rest);
    CompileRuns(host, left, next, Compile(right, next + n) + tail, row, params, stack);
    if l.Ok? {
      CompileRuns(host, right, next + n, tail, row, params, stack + [l.value]);
      if r.Ok? { BinaryRuns(host, Arithmetic(op), rest, row, params, stack, l.value, r.value); }
    }
  }

  lemma CodeRegrouped(a: seq<Instr>, b: seq<Instr>, instr: Instr, rest: seq<Instr>)
    ensures a + b + [instr] + rest == a + (b + ([instr] + rest))
  {
  }

  lemma CallRuns(host: Host, name: string, vs: seq<Value>, rest: seq<Instr>, row: Row, params: seq<Value>, stack: seq<Value>)
    ensures RunCode(host, [CallFunction(name, |vs|)] + rest, row, params, stack + vs)
      == if host.call(name, vs).Some? then RunCode(host, rest, row, params, stack + [host.call(name, vs).value]) else Raised
  {
    RunStep(host, CallFunction(name, |vs|), rest, row, params, stack + vs);
    assert (stack + vs)[|stack|..] == vs && (stack + vs)[..|stack|] == stack;
  }

  /** An instruction that pops two operands, on two operands. */
  lemma BinaryRuns(host: Host, instr: Instr, rest: seq<Instr>, row: Row, params: seq<Value>, stack: seq<Value>, l: Value, r: Value)
    requires instr.Arithmetic? || instr.Cmp? || instr.AndAll? || instr.OrAny?
    ensures RunCode(host, [instr] + rest, row, params, stack + [l] + [r]) == Then(Binary(host, instr, l, r), host, rest, row, params, stack)
  {
    RunStep(host, instr, rest, row, params, stack + [l] + [r]);
    var s := stack + [l] + [r];
    assert s[|s| - 2] == l && s[|s| - 1] == r && s[..|s| - 2] == stack;
  }

  function Binary(host: Host, instr: Instr, l: Value, r: Value): Result<Value>
    requires instr.Arithmetic? || instr.Cmp? || instr.AndAll? || instr.OrAny?
  {
    match instr
    case Arithmetic(op) => ArithValue(host, op, l, r)
    case Cmp(op) => Ok(Bool(CompareValue(host, op, l, r)))
    case AndAll => Ok(Bool(host.truth(l) && host.truth(r)))
    case OrAny => Ok(Bool(host.truth(l) || host.truth(r)))
  }

  lemma {:induction false} CompileAllRuns(host: Host, args: seq<Expr>, next: nat, rest: seq<Instr>, row: Row, params: seq<Value>, stack: seq<Value>)
    requires next + ParamsAll(args) <= |params|
    ensures var vs := EvalAll(host, args, row, params[next..next + ParamsAll(args)]);
      RunCode(host, CompileAll(args, next) + rest, row, params, stack)
      == if vs.Ok? then RunCode(host, rest, row, params, stack + vs.value) else Raised
    decreases args
  {
    hide RunCode, Compile, Eval;
    if args == [] {
      assert [] + rest == rest && stack + [] == stack;
    } else {
      var n := Params(args[0]);
      var mine := params[next..next + ParamsAll(args)];
      var more := CompileAll(args[1..], next + n);
      assert CompileAll(args, next) + rest == Compile(args[0], next) + (more + rest);
      SliceTwice(params, next, n, ParamsAll(args[1..]));
      CompileRuns(host, args[0], next, more + rest, row, params, stack);
      var first := Eval(host, args[0], row, mine[..n]);
      if first.Ok? {
        CompileAllRuns(host, args[1..], next + n, rest, row, params, stack + [first.value]);
        var others := EvalAll(host, args[1..], row, mine[n..]);
        if others.Ok? { assert stack + [first.value] + others.value == stack + ([first.value] + others.value); }
      }
    }
  }

  /** The parameters of the first operand, and those of the rest. */
  lemma SliceTwice(params: seq<Value>, next: nat, n: nat, m: nat)
    requires next + n + m <= |params|
    ensures params[next..next + n + m][..n] == params[next..next + n]
    ensures params[next..next + n + m][n..] == params[next + n..next + n + m]
  {
  }

  // ---------------------------------------------------------------- predicates

  /** A further part of a connective, on the value so far. */
  function Fold(host: Host, connective: Instr, so_far: Value, vs: seq<Value>): Value
    requires connective.AndAll? || connective.OrAny?
    decreases |vs|
  {
    if vs == [] then so_far else Fold(host, connective, Binary(host, connective, so_far, vs[0]).value, vs[1..])
  }

  /** Folding part by part is the conjunction, or disjunction, of all parts at once. */
  lemma {:induction false} FoldIsAll(host: Host, connective: Instr, v: Value, vs: seq<Value>)
    requires connective.AndAll? || connective.OrAny?
    requires HostOk(host)
    ensures vs != [] ==>
      Fold(host, connective, v, vs)
      == (if connective.AndAll? then Bool(forall w | w in [v] + vs :: host.truth(w)) else Bool(exists w :: w in [v] + vs && host.truth(w)))
    decreases |vs|
  {
    if vs != [] {
      var next := Binary(host, connective, v, vs[0]).value;
      FoldIsAll(host, connective, next, vs[1..]);
      assert forall w :: w in [v] + vs <==> w == v || w == vs[0] || w in vs[1..];
      assert forall w :: w in [next] + vs[1..] <==> w == next || w in vs[1..];
      if vs[1..] == [] {
        assert Fold(host, connective, next, vs[1..]) == next;
      }
    }
  }

  lemma NullRuns(host: Host, negated: bool, rest: seq<Instr>, row: Row, params: seq<Value>, stack: seq<Value>, v: Value)
    ensures RunCode(host, [TestNull(negated)] + rest, row, params, stack + [v])
      == RunCode(host, rest, row, params, stack + [Bool((v == Null) != negated)])
  {
    RunStep(host, TestNull(negated), rest, row, params, stack + [v]);
    assert (stack + [v])[..|stack|] == stack;
  }

  /** The same for predicates. */
  lemma {:induction false} PredRuns(host: Host, p: Pred, next: nat, rest: seq<Instr>, row: Row, params: seq<Value>, stack: seq<Value>)
    requires HostOk(host) && Parsed(p) && next + PredParams(p) <= |params|
    ensures RunCode(host, CompilePred(p, next) + rest, row, params, stack)
      == Then(EvalPred(host, p, row, params[next..next + PredParams(p)]), host, rest, row, params, stack)
    decreases p, 1
  {
    hide RunCode;
    match p
    case Or(parts) => ConnectiveRuns(host, p, parts, OrAny, next, rest, row, params, stack);
    case And(parts) => ConnectiveRuns(host, p, parts, AndAll, next, rest, row, params, stack);
    case IsNull(e, negated) => NullTestRuns(host, e, negated, next, rest, row, params, stack);
    case Compare(op, left, right) => CompareRuns(host, op, left, right, next, rest, row, params, stack);
    case Test(e) => CompileRuns(host, e, next, rest, row, params, stack);
  }

  lemma NullTestRuns(host: Host, e: Expr, negated: bool, next: nat, rest: seq<Instr>, row: Row, params: seq<Value>, stack: seq<Value>)
    requires next + Params(e) <= |params|
    ensures RunCode(host, CompilePred(IsNull(e, negated), next) + rest, row, params, stack)
      == Then(EvalPred(host, IsNull(e, negated), row, params[next..next + Params(e)]), host, rest, row, params, stack)
  {
    hide RunCode, Compile, Eval;
    assert CompilePred(IsNull(e, negated), next) + rest == Compile(e, next) + ([TestNull(negated)] + rest);
    CompileRuns(host, e, next, [TestNull(negated)] + rest, row, params, stack);
    var v := Eval(host, e, row, params[next..next + Params(e)]);
    if v.Ok? { NullRuns(host, negated, rest, row, params, stack, v.value); }
  }

  lemma CompareRuns(host: Host, op: CompareOp, left: Expr, right: Expr, next: nat, rest: seq<Instr>, row: Row, params: seq<Value>, stack: seq<Value>)
    requires next + Params(left) + Params(right) <= |params|
    ensures RunCode(host, CompilePred(Compare(op, left, right), next) + rest, row, params, stack)
      == Then(EvalPred(host, Compare(op, left, right), row, params[next..next + Params(left) + Params(right)]), host, rest, row, params, stack)
  {
    hide RunCode, Compile, Eval, Params;
    var n := Params(left);
    var mine := params[next..next + n + Params(right)];
    SliceTwice(params, next, n, Params(right));
    var l, r := Eval(host, left, row, mine[..n]), Eval(host, right, row, mine[n..]);
    var tail := [Cmp(op)] + rest;
    CodeRegrouped(Compile(left, next), Compile(right, next + n), Cmp(op), rest);
    CompileRuns(host, left, next, Compile(right, next + n) + tail, row, params, stack);
    if l.Ok? {
      CompileRuns(host, right, next + n, tail, row, params, stack + [l.value]);
      if r.Ok? { BinaryRuns(host, Cmp(op), rest, row, params, stack, l.value, r.value); }
    }
  }

  lemma {:induction false} ConnectiveRuns(host: Host, p: Pred, parts: seq<Pred>, connective: Instr, next: nat, rest: seq<Instr>, row: Row, params: seq<Value>, stack: seq<Value>)
    requires HostOk(host) && Parsed(p) && ((p == Or(parts) && connective == OrAny) || (p == And(parts) && connective == AndAll))
    requires next + PredParamsAll(parts) <= |params|
    ensures RunCode(host, CompileParts(parts, connective, next, true) + rest, row, params, stack)
      == Then(EvalPred(host, p, row, params[next..next + PredParamsAll(parts)]), host, rest, row, params, stack)
    decreases p, 0
  {
    hide RunCode, CompilePred, EvalPred;
    var n := PredParams(parts[0]);
    var mine := params[next..next + PredParamsAll(parts)];
    SliceTwice(params, next, n, PredParamsAll(parts[1..]));
    var more := CompileParts(parts[1..], connective, next + n, false);
    assert CompilePred(parts[0], next) + [] + more + rest == CompilePred(parts[0], next) + (more + rest);
    assert Parsed(parts[0]);
    PredRuns(host, parts[0], next, more + rest, row, params, stack);
    var first := EvalPred(host, parts[0], row, mine[..n]);
    PartsValue(host, p, parts, connective, row, mine);
    if first.Ok? {
      PartsRun(host, parts[1..], connective, next + n, rest, row, params, stack, first.value);
    }
  }

  /** The value of a connective, from its first part and a fold over the others. */
  lemma PartsValue(host: Host, p: Pred, parts: seq<Pred>, connective: Instr, row: Row, params: seq<Value>)
    requires HostOk(host) && Parsed(p) && ((p == Or(parts) && connective == OrAny) || (p == And(parts) && connective == AndAll))
    requires |params| == PredParamsAll(parts)
    ensures var n := PredParams(parts[0]);
      var first, vs := EvalPred(host, parts[0], row, params[..n]), EvalParts(host, parts[1..], row, params[n..]);
      EvalPred(host, p, row, params)
      == if first.Ok? && vs.Ok? then Ok(Fold(host, connective, first.value, vs.value)) else Raised
  {
    var n := PredParams(parts[0]);
    var first, vs := EvalPred(host, parts[0], row, params[..n]), EvalParts(host, parts[1..], row, params[n..]);
    if first.Ok? && vs.Ok? {
      FoldIsAll(host, connective, first.value, vs.value);
    }
  }

  /** The further parts, each followed by its connective, on the value so far. */
  lemma {:induction false} PartsRun(host: Host, parts: seq<Pred>, connective: Instr, next: nat, rest: seq<Instr>, row: Row, params: seq<Value>, stack: seq<Value>, v: Value)
    requires HostOk(host) && (connective.AndAll? || connective.OrAny?)
    requires (forall i | 0 <= i < |parts| :: Parsed(parts[i])) && next + PredParamsAll(parts) <= |params|
    ensures var vs := EvalParts(host, parts, row, params[next..next + PredParamsAll(parts)]);
      RunCode(host, CompileParts(parts, connective, next, false) + rest, row, params, stack + [v])
      == if vs.Ok? then RunCode(host, rest, row, params, stack + [Fold(host, connective, v, vs.value)]) else Raised
    decreases parts, 0
  {
    hide RunCode, EvalPred, CompilePred;
    if parts == [] {
      assert [] + rest == rest;
    } else {
      var n := PredParams(parts[0]);
      var mine := params[next..next + PredParamsAll(parts)];
      SliceTwice(params, next, n, PredParamsAll(parts[1..]));
      var more := CompileParts(parts[1..], connective, next + n, false);
      var tail := [connective] + (more + rest);
      assert CompilePred(parts[0], next) + [connective] + more + rest == CompilePred(parts[0], next) + tail;
      PredRuns(host, parts[0], next, tail, row, params, stack + [v]);
      var first := EvalPred(host, parts[0], row, mine[..n]);
      if first.Ok? {
        BinaryRuns(host, connective, more + rest, row, params, stack, v, first.value);
        PartsRun(host, parts[1..], connective, next + n, rest, row, params, stack, Binary(host, connective, v, first.value).value);
      }
    }
  }

  // ---------------------------------------------------------------- main results

  /** A compiled expression runs to its value, never popping an empty stack nor missing a parameter, and
      leaves exactly that value. */
  lemma ExpressionRuns(host: Host, e: Expr, row: Row, params: seq<Value>)
    requires |params| >= Params(e)
    ensures Run(host, CompileExpression(e), row, params) == Eval(host, e, row, params[..Params(e)])
    ensures RunCode(host, Compile(e, 0), row, params, []) ==
      if Eval(host, e, row, params[..Params(e)]).Ok? then Ok([Eval(host, e, row, params[..Params(e)]).value]) else Raised
  {
    CompileRuns(host, e, 0, [], row, params, []);
    assert Compile(e, 0) + [] == Compile(e, 0) && params[0..Params(e)] == params[..Params(e)];
    assert forall v: Value :: [] + [v] == [v];
  }

  lemma PredicateRuns(host: Host, p: Pred, row: Row, params: seq<Value>)
    requires HostOk(host) && Parsed(p) && |params| >= PredParams(p)
    ensures Run(host, CompilePredicate(p), row, params) == EvalPred(host, p, row, params[..PredParams(p)])
    ensures RunCode(host, CompilePred(p, 0), row, params, []) ==
      if EvalPred(host, p, row, params[..PredParams(p)]).Ok? then Ok([EvalPred(host, p, row, params[..PredParams(p)]).value]) else Raised
  {
    PredRuns(host, p, 0, [], row, params, []);
    assert CompilePred(p, 0) + [] == CompilePred(p, 0) && params[0..PredParams(p)] == params[..PredParams(p)];
    assert forall v: Value :: [] + [v] == [v];
  }
}
