/** The evaluator. `Interpreter` in the repository handles only numbers and
    binary operators and sends every other node class to `default_visit`;
    the tests beside it describe what the other classes are meant to do: a
    symbol table that assignments write and variable reads consult, and
    programs that run their instructions in order. `EvalAsWritten` is the
    evaluator as the repository has it, `Run` the one its tests describe,
    and the `Interpreter` class runs `Run` over a mutable symbol table. */
module Interpreter {
  import opened Results
  import opened Text
  import opened Tokens
  import opened Ast
  import Parser
  import Lexer
  import ParserProperties

  /** Python values the evaluator produces: `int`, `float` (as an exact
      real), a variable name (`str`) and `None`. */
  datatype Value = Int(i: int) | Float(r: real) | Name(name: string) | NoneValue
  {
    predicate IsNumeric() { Int? || Float? }

    /** The number a numeric value denotes. */
    function AsReal(): real
      requires IsNumeric()
    {
      if Int? then i as real else r
    }
  }

  datatype EvalError =
    | NoVisitor(message: string)        // `default_visit`
    | InvalidNumber(text: string)       // both `int(...)` and `float(...)` fail
    | DivisionByZero                    // Python's ZeroDivisionError
    | TypeMismatch                      // an operator applied to a non-number
    | UndeclaredVariable(name: string)  // UndeclaredVariableError
    | ParseFailed(error: Parser.ParseError)

  type Store = map<string, Value>

  /** A result together with the symbol table after it. */
  datatype Outcome = Outcome(result: Result<Value, EvalError>, store: Store)

  // ----- Number literals -----

  function Pow10(n: nat): (p: nat)
    ensures p > 0
  {
    if n == 0 then 1 else 10 * Pow10(n - 1)
  }

  /** The index of the first '.' of `t` at or after `i`, or `|t|`. */
  function FindDot(t: string, i: nat): (k: nat)
    requires i <= |t|
    ensures i <= k <= |t|
    ensures k < |t| ==> t[k] == '.'
    ensures forall j :: i <= j < k ==> t[j] != '.'
    decreases |t| - i
  {
    if i == |t| || t[i] == '.' then i else FindDot(t, i + 1)
  }

  /** `int(text)`, and when that fails `float(text)`, over the literals of
      the NUMBER pattern: digits, or digits '.' digits. */
  function NumberValue(text: string): (r: Result<Value, EvalError>)
    ensures r.Ok? ==> r.value.IsNumeric()
    ensures r.Err? ==> r.error == InvalidNumber(text)
  {
    if |text| > 0 && AllDigits(text) then Ok(Int(DigitsValue(text)))
    else
      var k := FindDot(text, 0);
      if 0 < k < |text| - 1 && AllDigits(text[..k]) && AllDigits(text[k + 1..]) then
        var fraction := text[k + 1..];
        Ok(Float(DigitsValue(text[..k]) as real + DigitsValue(fraction) as real / Pow10(|fraction|) as real))
      else Err(InvalidNumber(text))
  }

  /** Every literal the NUMBER pattern accepts evaluates. */
  lemma NumberLiteralEvaluates(text: string)
    requires IsNumberLiteral(text)
    ensures NumberValue(text).Ok?
    ensures NumberValue(text).value.Int? <==> '.' !in text
  {
    var k := FindDot(text, 0);
    if k < |text| {
      assert text[k] == '.';
      assert !AllDigits(text);
      assert 0 < k < |text| - 1;
      assert forall j :: k < j < |text| ==> text[j] != '.';
      assert AllDigits(text[..k]) by {
        forall j | 0 <= j < k ensures IsDigit(text[..k][j]) {
          assert text[j] != '.';
        }
      }
      assert AllDigits(text[k + 1..]) by {
        var fraction := text[k + 1..];
        forall j | 0 <= j < |fraction| ensures IsDigit(fraction[j]) {
          assert fraction[j] == text[k + 1 + j];
        }
      }
    } else {
      assert AllDigits(text) by {
        forall j | 0 <= j < |text| ensures IsDigit(text[j]) {
          assert text[j] != '.';
        }
      }
    }
  }

  /** Reading back `str(n)` gives the integer `n`. */
  lemma NumberValueOfRendering(n: nat)
    ensures NumberValue(NatToString(n)) == Ok(Int(n))
  {
    NatToStringRoundTrip(n);
  }

  // ----- Arithmetic -----

  predicate IsArithOperator(k: TokenType) { k == PLUS || k == MINUS || k == MULT || k == DIV }

  /** The exact result of `op` on two numbers. */
  function RealOp(op: TokenType, a: real, b: real): real
    requires IsArithOperator(op) && (op == DIV ==> b != 0.0)
  {
    if op == PLUS then a + b
    else if op == MINUS then a - b
    else if op == MULT then a * b
    else a / b
  }

  /** Python's `+ - * /` on two values: integers stay integers except under
      `/`, which always gives a float; a zero divisor fails. */
  function Arith(op: TokenType, a: Value, b: Value): (r: Result<Value, EvalError>)
    requires IsArithOperator(op)
  {
    if !a.IsNumeric() || !b.IsNumeric() then Err(TypeMismatch)
    else if op == DIV then
      if b.AsReal() == 0.0 then Err(DivisionByZero) else Ok(Float(a.AsReal() / b.AsReal()))
    else if a.Int? && b.Int? then
      Ok(Int(if op == PLUS then a.i + b.i else if op == MINUS then a.i - b.i else a.i * b.i))
    else Ok(Float(RealOp(op, a.AsReal(), b.AsReal())))
  }

  /** Whether a result is an `int` or a `float` never changes the number it
      denotes: `Arith` is exact arithmetic on the operands' values. */
  lemma ArithIsExact(op: TokenType, a: Value, b: Value)
    requires IsArithOperator(op)
    ensures Arith(op, a, b).Ok? <==> a.IsNumeric() && b.IsNumeric() && (op == DIV ==> b.AsReal() != 0.0)
    ensures Arith(op, a, b).Ok? ==>
      Arith(op, a, b).value.IsNumeric() && Arith(op, a, b).value.AsReal() == RealOp(op, a.AsReal(), b.AsReal())
    ensures Arith(op, a, b).Ok? ==> (Arith(op, a, b).value.Int? <==> a.Int? && b.Int? && op != DIV)
  {
  }

  // ----- The evaluator the tests describe -----

  /** `visit(node)` with the symbol table `store`. */
  function Run(node: Node, store: Store): (o: Outcome)
    decreases node, 1, 0
  {
    match node
    case Number(t) => Outcome(NumberValue(t.value), store)
    case BinaryOperator(op, l, r) =>
      if !IsArithOperator(op.typename) then Outcome(Ok(NoneValue), store)
      else
        var left := Run(l, store);
        if left.result.Err? then left
        else
          var right := Run(r, left.store);
          if right.result.Err? then right
          else Outcome(Arith(op.typename, left.result.value, right.result.value), right.store)
    case Var(t) =>
      if t.value in store then Outcome(Ok(Name(t.value)), store)
      else Outcome(Err(UndeclaredVariable(t.value)), store)
    case VarInit(t) => Outcome(Ok(Name(t.value)), store)
    case VarEval(t) =>
      if t.value in store then Outcome(Ok(store[t.value]), store)
      else Outcome(Err(UndeclaredVariable(t.value)), store)
    case Assignation(target, e) =>
      var left := Run(target, store);
      if left.result.Err? then left
      else if !left.result.value.Name? then Outcome(Err(TypeMismatch), left.store)
      else
        var right := Run(e, left.store);
        if right.result.Err? then right
        else Outcome(Ok(NoneValue), right.store[left.result.value.name := right.result.value])
    case Program(instructions) => RunFrom(instructions, 0, store)
  }

  /** The instructions of a program from index `i` on, stopping at the
      first error; the table keeps every write made before it. */
  function RunFrom(instructions: seq<Node>, i: nat, store: Store): (o: Outcome)
    requires i <= |instructions|
    decreases Program(instructions), 0, |instructions| - i
  {
    if i == |instructions| then Outcome(Ok(NoneValue), store)
    else
      var o := Run(instructions[i], store);
      if o.result.Err? then o else RunFrom(instructions, i + 1, o.store)
  }

  /** Whether `n` holds an assignment, the only node that writes. */
  predicate Writes(n: Node)
  {
    match n
    case Assignation(_, _) => true
    case Program(instructions) => exists k :: 0 <= k < |instructions| && Writes(instructions[k])
    case BinaryOperator(_, l, r) => Writes(l) || Writes(r)
    case _ => false
  }

  /** Every assignment targets a `Var` or a `VarInit`, as `left_op` builds. */
  predicate SimpleTargets(n: Node)
  {
    match n
    case Assignation(target, e) => (target.Var? || target.VarInit?) && SimpleTargets(e)
    case Program(instructions) => forall k :: 0 <= k < |instructions| ==> SimpleTargets(instructions[k])
    case BinaryOperator(_, l, r) => SimpleTargets(l) && SimpleTargets(r)
    case _ => true
  }

  /** The names `n` assigns. */
  function Targets(n: Node): set<string>
    requires SimpleTargets(n)
  {
    match n
    case Assignation(target, e) => {target.token.value} + Targets(e)
    case Program(instructions) => TargetsFrom(instructions, 0)
    case BinaryOperator(_, l, r) => Targets(l) + Targets(r)
    case _ => {}
  }

  function TargetsFrom(instructions: seq<Node>, i: nat): set<string>
    requires i <= |instructions|
    requires forall k :: 0 <= k < |instructions| ==> SimpleTargets(instructions[k])
    decreases Program(instructions), |instructions| - i
  {
    if i == |instructions| then {} else Targets(instructions[i]) + TargetsFrom(instructions, i + 1)
  }

  /** A node without assignments leaves the symbol table as it was. */
  lemma {:induction false} ReadOnly(n: Node, store: Store)
    requires !Writes(n)
    ensures Run(n, store).store == store
    decreases n, 1, 0
  {
    match n
    case BinaryOperator(op, l, r) =>
      if IsArithOperator(op.typename) {
        ReadOnly(l, store);
        ReadOnly(r, store);
      }
    case Program(instructions) =>
      ReadOnlyFrom(instructions, 0, store);
    case _ =>
  }

  lemma {:induction false} ReadOnlyFrom(instructions: seq<Node>, i: nat, store: Store)
    requires i <= |instructions|
    requires forall k :: 0 <= k < |instructions| ==> !Writes(instructions[k])
    ensures RunFrom(instructions, i, store).store == store
    decreases Program(instructions), 0, |instructions| - i
  {
    if i < |instructions| {
      ReadOnly(instructions[i], store);
      ReadOnlyFrom(instructions, i + 1, store);
    }
  }

  /** The symbol table only grows, and only by names the node assigns. */
  lemma {:induction false} StoreGrowth(n: Node, store: Store)
    requires SimpleTargets(n)
    ensures store.Keys <= Run(n, store).store.Keys <= store.Keys + Targets(n)
    decreases n, 1, 0
  {
    match n
    case BinaryOperator(op, l, r) =>
      if IsArithOperator(op.typename) {
        StoreGrowth(l, store);
        var left := Run(l, store);
        if left.result.Ok? {
          StoreGrowth(r, left.store);
        }
      }
    case Assignation(target, e) =>
      StoreGrowth(target, store);
      var left := Run(target, store);
      if left.result.Ok? && left.result.value.Name? {
        StoreGrowth(e, left.store);
      }
    case Program(instructions) =>
      StoreGrowthFrom(instructions, 0, store);
    case _ =>
  }

  lemma {:induction false} StoreGrowthFrom(instructions: seq<Node>, i: nat, store: Store)
    requires i <= |instructions|
    requires forall k :: 0 <= k < |instructions| ==> SimpleTargets(instructions[k])
    ensures store.Keys <= RunFrom(instructions, i, store).store.Keys <= store.Keys + TargetsFrom(instructions, i)
    decreases Program(instructions), 0, |instructions| - i
  {
    if i < |instructions| {
      StoreGrowth(instructions[i], store);
      var o := Run(instructions[i], store);
      if o.result.Ok? {
        StoreGrowthFrom(instructions, i + 1, o.store);
      }
    }
  }

  /** `var x = e;` with `e` evaluating to `v` binds `x` to `v` and changes
      nothing else; so does `x = e;` once `x` is declared. */
  lemma AssignmentBinds(target: Node, e: Node, store: Store)
    requires target.VarInit? || (target.Var? && target.token.value in store)
    requires Run(e, store).result.Ok?
    ensures var o := Run(Assignation(target, e), store);
      o.result == Ok(NoneValue) && o.store == Run(e, store).store[target.token.value := Run(e, store).result.value]
  {
  }

  /** A variable read after `var x = e;` gives the value `e` had. */
  lemma AssignThenRead(t: Token, e: Node, store: Store)
    requires Run(e, store).result.Ok?
    ensures var after := Run(Assignation(VarInit(t), e), store).store;
      Run(VarEval(t), after) == Outcome(Ok(Run(e, store).result.value), after)
  {
  }

  /** Assigning to a name never declared fails before the right side runs. */
  lemma UndeclaredAssignment(t: Token, e: Node, store: Store)
    requires t.value !in store
    ensures Run(Assignation(Var(t), e), store) == Outcome(Err(UndeclaredVariable(t.value)), store)
  {
  }

  /** Running `xs + ys` is running `xs`, then `ys` on the table it left,
      unless `xs` failed. */
  lemma {:induction false} RunFromAppend(xs: seq<Node>, ys: seq<Node>, i: nat, store: Store)
    requires i <= |xs|
    ensures var o := RunFrom(xs, i, store);
      RunFrom(xs + ys, i, store) == if o.result.Err? then o else RunFrom(xs + ys, |xs|, o.store)
    decreases |xs| - i
  {
    if i < |xs| {
      assert (xs + ys)[i] == xs[i];
      var o := Run(xs[i], store);
      if o.result.Ok? {
        RunFromAppend(xs, ys, i + 1, o.store);
      }
    }
  }

  /** ... and running from `|xs|` in `xs + ys` is running `ys`. */
  lemma {:induction false} RunFromSuffix(xs: seq<Node>, ys: seq<Node>, j: nat, store: Store)
    requires j <= |ys|
    ensures RunFrom(xs + ys, |xs| + j, store) == RunFrom(ys, j, store)
    decreases |ys| - j
  {
    if j < |ys| {
      assert (xs + ys)[|xs| + j] == ys[j];
      var o := Run(ys[j], store);
      if o.result.Ok? {
        RunFromSuffix(xs, ys, j + 1, o.store);
      }
    }
  }

  /** A program split in two runs as its halves in sequence. */
  lemma ProgramsCompose(xs: seq<Node>, ys: seq<Node>, store: Store)
    ensures var o := Run(Program(xs), store);
      Run(Program(xs + ys), store) == if o.result.Err? then o else Run(Program(ys), o.store)
  {
    RunFromAppend(xs, ys, 0, store);
    var o := RunFrom(xs, 0, store);
    if o.result.Ok? {
      RunFromSuffix(xs, ys, 0, o.store);
    }
  }

  // ----- The evaluator as the repository has it -----

  /** `Interpreter.visit` with only `visit_Number` and
      `visit_BinaryOperator`: every other class reaches `default_visit`. */
  function EvalAsWritten(node: Node): Result<Value, EvalError>
  {
    match node
    case Number(t) => NumberValue(t.value)
    case BinaryOperator(op, l, r) =>
      if !IsArithOperator(op.typename) then Ok(NoneValue)
      else
        var a :- EvalAsWritten(l);
        var b :- EvalAsWritten(r);
        Arith(op.typename, a, b)
    case _ => Err(NoVisitor(NoVisitorMessage(ClassName(node))))
  }

  /** `EvalAsWritten` runs a handler exactly where `ASTNodeVisitor.visit`
      finds one among the interpreter's methods, and elsewhere fails with
      the message of `default_visit`. */
  lemma AsWrittenDispatch(node: Node)
    ensures Visit(InterpreterHandlers, node).CallHandler? <==> node.Number? || node.BinaryOperator?
    ensures Visit(InterpreterHandlers, node).DefaultVisit? ==>
      EvalAsWritten(node) == Err(NoVisitor(Visit(InterpreterHandlers, node).message))
  {
    InterpreterDispatch(node);
  }

  /** Trees of numbers and operators: both evaluators agree and the table is
      untouched. */
  predicate IsCalculation(n: Node)
  {
    match n
    case Number(_) => true
    case BinaryOperator(_, l, r) => IsCalculation(l) && IsCalculation(r)
    case _ => false
  }

  lemma {:induction false} AsWrittenAgrees(n: Node, store: Store)
    requires IsCalculation(n)
    ensures Run(n, store) == Outcome(EvalAsWritten(n), store)
  {
    if n.BinaryOperator? && IsArithOperator(n.operator.typename) {
      AsWrittenAgrees(n.left, store);
      AsWrittenAgrees(n.right, store);
    }
  }

  /** What the repository's `visit` does with a program: `default_visit`
      raises, where the tests expect the instructions to run. */
  lemma AsWrittenRejectsPrograms(instructions: seq<Node>)
    ensures EvalAsWritten(Program(instructions)) == Err(NoVisitor("No existing visitor method for Program"))
  {
    assert NoVisitorMessage("Program") == "No existing visitor method for Program";
  }

  /** The test program `var var_name = 0; var_name = var_name + 1;`, which
      the repository's `visit` rejects, leaves `{var_name: 1}` under `Run`. */
  lemma TestProgramRuns(x: Token, zero: Token, one: Token, plus: Token)
    requires x == Token(IDENTIFIER, "var_name") && zero == Token(NUMBER, "0")
    requires one == Token(NUMBER, "1") && plus == Token(PLUS, "+")
    ensures var p := Program([Assignation(VarInit(x), Number(zero)),
                               Assignation(Var(x), BinaryOperator(plus, VarEval(x), Number(one)))]);
      Run(p, map[]) == Outcome(Ok(NoneValue), map["var_name" := Int(1)])
      && EvalAsWritten(p).Err?
  {
    NumberValueOfRendering(0);
    NumberValueOfRendering(1);
    assert NatToString(0) == "0" && NatToString(1) == "1";
    var first := Assignation(VarInit(x), Number(zero));
    var second := Assignation(Var(x), BinaryOperator(plus, VarEval(x), Number(one)));
    var s1: Store := map["var_name" := Int(0)];
    assert Run(first, map[]) == Outcome(Ok(NoneValue), s1);
    assert Run(BinaryOperator(plus, VarEval(x), Number(one)), s1) == Outcome(Ok(Int(1)), s1);
    assert Run(second, s1) == Outcome(Ok(NoneValue), map["var_name" := Int(1)]);
    assert RunFrom([first, second], 2, map["var_name" := Int(1)]) == Outcome(Ok(NoneValue), map["var_name" := Int(1)]);
    assert RunFrom([first, second], 1, s1) == Outcome(Ok(NoneValue), map["var_name" := Int(1)]);
  }

  /** The literal `100` evaluates to the integer 100 and touches no variable. */
  lemma TestNumber(t: Token, store: Store)
    requires t == Token(NUMBER, "100")
    ensures Run(Number(t), store) == Outcome(Ok(Int(100)), store)
    ensures EvalAsWritten(Number(t)) == Ok(Int(100))
  {
    NumberValueOfRendering(100);
    assert NatToString(100) == "100";
  }

  /** A declared `var_name` evaluates to its name as a target and to its
      value, 0, as a read; `var var_name` needs no entry at all. */
  lemma TestVariables(t: Token)
    requires t == Token(IDENTIFIER, "var_name")
    ensures var store: Store := map["var_name" := Int(0)];
      && Run(Var(t), store) == Outcome(Ok(Name("var_name")), store)
      && Run(VarInit(t), map[]) == Outcome(Ok(Name("var_name")), map[])
      && Run(VarEval(t), store) == Outcome(Ok(Int(0)), store)
      && Run(VarEval(t), map[]).result == Err(UndeclaredVariable("var_name"))
  {
  }

  /** `var var_name = 0` on an empty table gives `{var_name: 0}`. */
  lemma TestAssignation(t: Token, zero: Token)
    requires t == Token(IDENTIFIER, "var_name") && zero == Token(NUMBER, "0")
    ensures Run(Assignation(VarInit(t), Number(zero)), map[]) == Outcome(Ok(NoneValue), map["var_name" := Int(0)])
  {
    NumberValueOfRendering(0);
    assert NatToString(0) == "0";
  }

  /** `45 + 3 * 3` evaluates to the integer 54 under both evaluators. */
  lemma TestBinaryOperator(a: Token, b: Token, plus: Token, times: Token)
    requires a == Token(NUMBER, "45") && b == Token(NUMBER, "3")
    requires plus == Token(PLUS, "+") && times == Token(MULT, "*")
    ensures var n := BinaryOperator(plus, Number(a), BinaryOperator(times, Number(b), Number(b)));
      EvalAsWritten(n) == Ok(Int(54)) && Run(n, map[]) == Outcome(Ok(Int(54)), map[])
  {
    NumberValueOfRendering(45);
    NumberValueOfRendering(3);
    assert NatToString(45) == "45" && NatToString(3) == "3";
    var n := BinaryOperator(plus, Number(a), BinaryOperator(times, Number(b), Number(b)));
    AsWrittenAgrees(n, map[]);
  }

  // ----- interpret -----

  /** `interpret`: parse the token stream, then visit the tree. */
  function InterpretTokens(tokens: seq<Token>, pos: nat, store: Store): Outcome
    requires pos <= |tokens|
  {
    var tree := Parser.ParseTokens(tokens, pos);
    if tree.Err? then Outcome(Err(ParseFailed(tree.error)), store) else Run(tree.value, store)
  }

  /** `interpret` as the repository has it. */
  function InterpretAsWritten(tokens: seq<Token>, pos: nat): Result<Value, EvalError>
    requires pos <= |tokens|
  {
    var tree := Parser.ParseTokens(tokens, pos);
    if tree.Err? then Err(ParseFailed(tree.error)) else EvalAsWritten(tree.value)
  }

  lemma {:induction false} ProgramLoopBuildsProgram(s: seq<Token>, p: nat, acc: seq<Node>)
    requires p <= |s|
    ensures Parser.ProgramLoop(s, p, acc).Ok? ==> Parser.ProgramLoop(s, p, acc).value.node.Program?
    decreases |s| - p
  {
    if Parser.Peek(s, p).typename != EOF && Parser.ParseInstruction(s, p).Ok? {
      var i := Parser.ParseInstruction(s, p).value;
      ProgramLoopBuildsProgram(s, i.next, acc + [i.node]);
    }
  }

  /** `parse` only ever returns a `Program`, which the repository's
      interpreter has no handler for: as written, `interpret` never
      returns a value. */
  lemma InterpretAsWrittenFails(tokens: seq<Token>, pos: nat)
    requires pos <= |tokens|
    ensures InterpretAsWritten(tokens, pos).Err?
    ensures Parser.ParseTokens(tokens, pos).Ok? ==>
      InterpretAsWritten(tokens, pos) == Err(NoVisitor("No existing visitor method for Program"))
  {
    ProgramLoopBuildsProgram(tokens, pos, []);
    var tree := Parser.ParseTokens(tokens, pos);
    if tree.Ok? {
      AsWrittenRejectsPrograms(tree.value.instructions);
    }
  }

  /** Every tree `parse` returns has a `Program` at its root, a class the
      repository's `ast` module does not define: there `program` raises an
      AttributeError where it builds that node, so `parse` never returns. */
  lemma ParsedRootUndefined(tokens: seq<Token>, pos: nat)
    requires pos <= |tokens|
    ensures Parser.ParseTokens(tokens, pos).Ok? ==>
      ClassName(Parser.ParseTokens(tokens, pos).value) !in DefinedClasses
  {
    ProgramLoopBuildsProgram(tokens, pos, []);
    var tree := Parser.ParseTokens(tokens, pos);
    if tree.Ok? {
      DefinedNodes(tree.value);
    }
  }

  /** Text that `tokenize` accepts holds no `;`, so interpreting it runs
      the empty program: nothing is computed and the table is unchanged. */
  lemma InterpretLexedText(text: string, store: Store)
    requires Lexer.Tokenize(text).Tokenized?
    ensures var o := InterpretTokens(Lexer.Tokenize(text).tokens, 0, store);
      o.store == store && (o.result.Ok? ==> o.result.value == NoneValue)
  {
    ParserProperties.LexedProgramIsEmpty(text);
  }

  class Interpreter {
    const parser: Parser.Parser
    var symbolTable: Store

    constructor (parser: Parser.Parser)
      ensures this.parser == parser && symbolTable == map[]
    {
      this.parser := parser;
      symbolTable := map[];
    }

    /** `visit(node)`, updating the symbol table in place. */
    method Visit(node: Node) returns (r: Result<Value, EvalError>)
      modifies this
      ensures Outcome(r, symbolTable) == Run(node, old(symbolTable))
      decreases node, 1, 0
    {
      match node {
        case Number(t) =>
          r := NumberValue(t.value);
        case BinaryOperator(op, l, rt) =>
          if !IsArithOperator(op.typename) {
            return Ok(NoneValue);
          }
          var left := Visit(l);
          if left.Err? {
            return left;
          }
          var right := Visit(rt);
          if right.Err? {
            return right;
          }
          r := Arith(op.typename, left.value, right.value);
        case Var(t) =>
          if t.value !in symbolTable {
            return Err(UndeclaredVariable(t.value));
          }
          r := Ok(Name(t.value));
        case VarInit(t) =>
          r := Ok(Name(t.value));
        case VarEval(t) =>
          if t.value !in symbolTable {
            return Err(UndeclaredVariable(t.value));
          }
          r := Ok(symbolTable[t.value]);
        case Assignation(target, e) =>
          var name := Visit(target);
          if name.Err? {
            return name;
          }
          if !name.value.Name? {
            return Err(TypeMismatch);
          }
          var value := Visit(e);
          if value.Err? {
            return value;
          }
          symbolTable := symbolTable[name.value.name := value.value];
          r := Ok(NoneValue);
        case Program(instructions) =>
          r := VisitAll(instructions);
      }
    }

    /** The loop over a program's instructions. */
    method VisitAll(instructions: seq<Node>) returns (r: Result<Value, EvalError>)
      modifies this
      ensures Outcome(r, symbolTable) == RunFrom(instructions, 0, old(symbolTable))
      decreases Program(instructions), 0, |instructions| + 1
    {
      var i := 0;
      while i < |instructions|
        invariant i <= |instructions|
        invariant RunFrom(instructions, i, symbolTable) == RunFrom(instructions, 0, old(symbolTable))
      {
        var o := Visit(instructions[i]);
        if o.Err? {
          return o;
        }
        i := i + 1;
      }
      return Ok(NoneValue);
    }

    /** `interpret`: `visit(parser.parse())`. */
    method Interpret() returns (r: Result<Value, EvalError>)
      requires parser.Valid()
      modifies this, parser
      ensures parser.Valid()
      ensures Outcome(r, symbolTable) == InterpretTokens(parser.tokens, old(parser.pos), old(symbolTable))
      ensures Parser.ParseTokens(parser.tokens, old(parser.pos)).Ok? ==>
        && parser.Current().typename == EOF
        && parser.pos == Parser.ParseProgram(parser.tokens, old(parser.pos)).value.next
    {
      var tree := parser.Parse();
      if tree.Err? {
        return Err(ParseFailed(tree.error));
      }
      r := Visit(tree.value);
    }
  }
}
