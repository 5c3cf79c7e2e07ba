/** The syntax tree the parser builds and the evaluator walks, and the
    reflective dispatch of `ASTNodeVisitor`, which looks up a handler named
    after the node's class and falls back to `default_visit`. */
module Ast {
  import opened Tokens

  /** The seven node classes. `BinaryOperator` keeps its operator token as
      `operator` (the source also stores the same token as `token`, which
      nothing reads); `Number` exposes its token's text as `value`. */
  datatype Node =
    | Number(token: Token)
    | BinaryOperator(operator: Token, left: Node, right: Node)
    | Var(token: Token)
    | VarInit(token: Token)
    | VarEval(token: Token)
    | Assignation(target: Node, expr: Node)
    | Program(instructions: seq<Node>)
  {
    /** `Number.value`: the text of the number token. */
    function Value(): string
      requires Number?
    {
      token.value
    }
  }

  /** `type(node).__name__`. */
  function ClassName(n: Node): string
  {
    match n
    case Number(_) => "Number"
    case BinaryOperator(_, _, _) => "BinaryOperator"
    case Var(_) => "Var"
    case VarInit(_) => "VarInit"
    case VarEval(_) => "VarEval"
    case Assignation(_, _) => "Assignation"
    case Program(_) => "Program"
  }

  /** Which method a visitor runs: the handler found by name, or
      `default_visit`, which raises with the given message. */
  datatype Dispatch = CallHandler(name: string) | DefaultVisit(message: string)

  /** The message `default_visit` raises for a class with no handler. */
  function NoVisitorMessage(className: string): string
  {
    "No existing visitor method for " + className
  }

  /** `ASTNodeVisitor.visit`: `getattr(self, 'visit_' + class name,
      self.default_visit)` over a visitor that defines `handlers`. */
  function Visit(handlers: set<string>, n: Node): (d: Dispatch)
    ensures d.CallHandler? <==> "visit_" + ClassName(n) in handlers
    ensures d.CallHandler? ==> d.name == "visit_" + ClassName(n)
    ensures d.DefaultVisit? ==> d.message == NoVisitorMessage(ClassName(n))
  {
    var name := "visit_" + ClassName(n);
    if name in handlers then CallHandler(name) else DefaultVisit(NoVisitorMessage(ClassName(n)))
  }

  /** The handlers `Interpreter` defines. */
  const InterpreterHandlers: set<string> := {"visit_BinaryOperator", "visit_Number"}

  /** Only numbers and binary operators reach a handler of `Interpreter`;
      every other class goes to `default_visit`. */
  lemma InterpreterDispatch(n: Node)
    ensures Visit(InterpreterHandlers, n).CallHandler? <==> n.Number? || n.BinaryOperator?
  {
    var name := "visit_" + ClassName(n);
    assert |name| == 12 <==> n.Number?;
    assert |name| == 20 <==> n.BinaryOperator?;
    if n.Number? {
      assert name == "visit_Number";
    } else if n.BinaryOperator? {
      assert name == "visit_BinaryOperator";
    }
  }

  /** The classes `apl/parser/ast.py` defines. The parser also builds `Var`,
      `VarInit`, `VarEval`, `Assignation` and `Program`, which that module
      lacks, so building one raises an AttributeError there. */
  const DefinedClasses: set<string> := {"AST", "BinaryOperator", "Number"}

  /** Of the seven node classes, only numbers and binary operators exist in
      the repository's `ast` module. */
  lemma DefinedNodes(n: Node)
    ensures ClassName(n) in DefinedClasses <==> n.Number? || n.BinaryOperator?
  {
    var name := ClassName(n);
    assert |name| == 6 <==> n.Number?;
    assert |name| == 14 <==> n.BinaryOperator?;
    if n.Number? {
      assert name == "Number";
    } else if n.BinaryOperator? {
      assert name == "BinaryOperator";
    }
  }
}
