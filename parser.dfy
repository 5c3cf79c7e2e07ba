/** The recursive-descent parser. The token stream the lexer would hand out
    is a sequence of tokens; reading past its end gives EOF, as the lexer
    does once its text is used up. Each grammar rule is a function from a
    position to the node it builds and the position after it; the `Parser`
    class runs the same rules imperatively over its current position. */
module Parser {
  import opened Results
  import opened Tokens
  import opened Ast

  /** A `ParsingError`: the type the rule expected, if it names one, and the
      token it found. `consume` names no type (it formats the `token_type`
      module instead), `factor` names NUMBER and `parse` names EOF. */
  datatype ParseError = ParseError(expected: Option<TokenType>, found: Token)

  /** A node and the position after it. */
  datatype Parsed = Parsed(node: Node, next: nat)

  /** The current token at position `p`. */
  function Peek(s: seq<Token>, p: nat): Token
  {
    if p < |s| then s[p] else Token(EOF, "\0")
  }

  /** `consume(k)`: move past the current token exactly when it has type
      `k`. Past the end the stream stays at EOF. */
  function ConsumeAt(s: seq<Token>, p: nat, k: TokenType): (r: Result<nat, ParseError>)
    requires p <= |s|
    ensures r.Ok? <==> Peek(s, p).typename == k
    ensures r.Ok? && k != EOF ==> r.value == p + 1 <= |s|
    ensures r.Ok? ==> r.value <= |s|
    ensures r.Err? ==> r.error == ParseError(None, Peek(s, p))
  {
    if Peek(s, p).typename != k then Err(ParseError(None, Peek(s, p)))
    else if p < |s| then Ok(p + 1)
    else Ok(p)
  }

  predicate IsTermOperator(k: TokenType) { k == MULT || k == DIV }

  predicate IsExprOperator(k: TokenType) { k == PLUS || k == MINUS }

  /** factor := NUMBER | OPEN_PAR expr CLOSING_PAR | IDENTIFIER */
  function ParseFactor(s: seq<Token>, p: nat): (r: Result<Parsed, ParseError>)
    requires p <= |s|
    ensures r.Ok? ==> p < r.value.next <= |s|
    decreases |s| - p, 0
  {
    var t := Peek(s, p);
    if t.typename == NUMBER then Ok(Parsed(Number(t), p + 1))
    else if t.typename == OPEN_PAR then
      var e :- ParseExpr(s, p + 1);
      var q :- ConsumeAt(s, e.next, CLOSING_PAR);
      Ok(Parsed(e.node, q))
    else if t.typename == IDENTIFIER then Ok(Parsed(VarEval(t), p + 1))
    else Err(ParseError(Some(NUMBER), t))
  }

  /** term := factor ((MULT | DIV) factor)* */
  function ParseTerm(s: seq<Token>, p: nat): (r: Result<Parsed, ParseError>)
    requires p <= |s|
    ensures r.Ok? ==> p < r.value.next <= |s|
    decreases |s| - p, 1
  {
    var f :- ParseFactor(s, p);
    TermTail(s, f.node, f.next)
  }

  /** The `while` loop of `term` with `node` built so far. */
  function TermTail(s: seq<Token>, node: Node, p: nat): (r: Result<Parsed, ParseError>)
    requires p <= |s|
    ensures r.Ok? ==> p <= r.value.next <= |s|
    decreases |s| - p, 0
  {
    var t := Peek(s, p);
    if IsTermOperator(t.typename) then
      var f :- ParseFactor(s, p + 1);
      TermTail(s, BinaryOperator(t, node, f.node), f.next)
    else Ok(Parsed(node, p))
  }

  /** expr := term ((PLUS | MINUS) term)* */
  function ParseExpr(s: seq<Token>, p: nat): (r: Result<Parsed, ParseError>)
    requires p <= |s|
    ensures r.Ok? ==> p < r.value.next <= |s|
    decreases |s| - p, 2
  {
    var t :- ParseTerm(s, p);
    ExprTail(s, t.node, t.next)
  }

  /** The `while` loop of `expr` with `node` built so far. */
  function ExprTail(s: seq<Token>, node: Node, p: nat): (r: Result<Parsed, ParseError>)
    requires p <= |s|
    ensures r.Ok? ==> p <= r.value.next <= |s|
    decreases |s| - p, 0
  {
    var t := Peek(s, p);
    if IsExprOperator(t.typename) then
      var u :- ParseTerm(s, p + 1);
      ExprTail(s, BinaryOperator(t, node, u.node), u.next)
    else Ok(Parsed(node, p))
  }

  /** left_op := (VAR)? IDENTIFIER */
  function ParseLeftOp(s: seq<Token>, p: nat): (r: Result<Parsed, ParseError>)
    requires p <= |s|
    ensures r.Ok? ==> p < r.value.next <= |s|
  {
    if Peek(s, p).typename == WORD_VAR then
      var name := Peek(s, p + 1);
      var q :- ConsumeAt(s, p + 1, IDENTIFIER);
      Ok(Parsed(VarInit(name), q))
    else
      var name := Peek(s, p);
      var q :- ConsumeAt(s, p, IDENTIFIER);
      Ok(Parsed(Var(name), q))
  }

  /** assign := left_op EQUAL right_op, where right_op is an expr */
  function ParseAssign(s: seq<Token>, p: nat): (r: Result<Parsed, ParseError>)
    requires p <= |s|
    ensures r.Ok? ==> p < r.value.next <= |s|
  {
    var l :- ParseLeftOp(s, p);
    var q :- ConsumeAt(s, l.next, EQUAL);
    var e :- ParseExpr(s, q);
    Ok(Parsed(Assignation(l.node, e.node), e.next))
  }

  /** instruction := assign TERMINATOR */
  function ParseInstruction(s: seq<Token>, p: nat): (r: Result<Parsed, ParseError>)
    requires p <= |s|
    ensures r.Ok? ==> p < r.value.next <= |s|
  {
    var a :- ParseAssign(s, p);
    var q :- ConsumeAt(s, a.next, TERMINATOR);
    Ok(Parsed(a.node, q))
  }

  /** The `while` loop of `program`, with the instructions collected so far. */
  function ProgramLoop(s: seq<Token>, p: nat, acc: seq<Node>): (r: Result<Parsed, ParseError>)
    requires p <= |s|
    ensures r.Ok? ==> p <= r.value.next <= |s|
    decreases |s| - p
  {
    if Peek(s, p).typename == EOF then Ok(Parsed(Program(acc), p))
    else
      var i :- ParseInstruction(s, p);
      ProgramLoop(s, i.next, acc + [i.node])
  }

  /** program := instruction* */
  function ParseProgram(s: seq<Token>, p: nat): (r: Result<Parsed, ParseError>)
    requires p <= |s|
  {
    ProgramLoop(s, p, [])
  }

  /** `parse` from position `p`: a program, then a check that the current
      token is EOF. */
  function ParseTokens(s: seq<Token>, p: nat): Result<Node, ParseError>
    requires p <= |s|
  {
    var prog :- ParseProgram(s, p);
    if Peek(s, prog.next).typename != EOF then Err(ParseError(Some(EOF), Peek(s, prog.next)))
    else Ok(prog.node)
  }

  /** A method's node or error together with the parser's position after it. */
  function Outcome(r: Result<Node, ParseError>, pos: nat): Result<Parsed, ParseError>
  {
    if r.Ok? then Ok(Parsed(r.value, pos)) else Err(r.error)
  }

  class Parser {
    const tokens: seq<Token>
    var pos: nat

    ghost predicate Valid()
      reads this
    {
      pos <= |tokens|
    }

    /** The constructor reads the first token. */
    constructor (tokens: seq<Token>)
      ensures Valid() && this.tokens == tokens && pos == 0
    {
      this.tokens := tokens;
      pos := 0;
    }

    /** `current_token`. */
    function Current(): Token
      reads this
    {
      Peek(tokens, pos)
    }

    method Consume(k: TokenType) returns (r: Result<(), ParseError>)
      requires Valid()
      modifies this
      ensures Valid()
      ensures r.Ok? <==> ConsumeAt(tokens, old(pos), k).Ok?
      ensures r.Ok? ==> pos == ConsumeAt(tokens, old(pos), k).value
      ensures r.Err? ==> pos == old(pos) && r.error == ConsumeAt(tokens, old(pos), k).error
    {
      if Current().typename == k {
        if pos < |tokens| {
          pos := pos + 1;
        }
        return Ok(());
      }
      return Err(ParseError(None, Current()));
    }

    method Factor() returns (r: Result<Node, ParseError>)
      requires Valid()
      modifies this
      ensures Valid() && Outcome(r, pos) == ParseFactor(tokens, old(pos))
      decreases |tokens| - pos, 0
    {
      var token := Current();
      if token.typename == NUMBER {
        var _ := Consume(NUMBER);
        return Ok(Number(token));
      } else if token.typename == OPEN_PAR {
        var _ := Consume(OPEN_PAR);
        var e := Expr();
        if e.Err? {
          return e;
        }
        var c := Consume(CLOSING_PAR);
        if c.Err? {
          return Err(c.error);
        }
        return e;
      } else if token.typename == IDENTIFIER {
        var _ := Consume(IDENTIFIER);
        return Ok(VarEval(token));
      }
      return Err(ParseError(Some(NUMBER), token));
    }

    method Term() returns (r: Result<Node, ParseError>)
      requires Valid()
      modifies this
      ensures Valid() && Outcome(r, pos) == ParseTerm(tokens, old(pos))
      decreases |tokens| - pos, 1
    {
      var f := Factor();
      if f.Err? {
        return f;
      }
      var node := f.value;
      while IsTermOperator(Current().typename)
        invariant Valid() && old(pos) < pos
        invariant TermTail(tokens, node, pos) == ParseTerm(tokens, old(pos))
        decreases |tokens| - pos
      {
        var operator := Current();
        if operator.typename == MULT {
          var _ := Consume(MULT);
        } else {
          var _ := Consume(DIV);
        }
        var right := Factor();
        if right.Err? {
          return right;
        }
        node := BinaryOperator(operator, node, right.value);
      }
      return Ok(node);
    }

    method Expr() returns (r: Result<Node, ParseError>)
      requires Valid()
      modifies this
      ensures Valid() && Outcome(r, pos) == ParseExpr(tokens, old(pos))
      decreases |tokens| - pos, 2
    {
      var t := Term();
      if t.Err? {
        return t;
      }
      var node := t.value;
      while IsExprOperator(Current().typename)
        invariant Valid() && old(pos) < pos
        invariant ExprTail(tokens, node, pos) == ParseExpr(tokens, old(pos))
        decreases |tokens| - pos
      {
        var operator := Current();
        if operator.typename == PLUS {
          var _ := Consume(PLUS);
        } else {
          var _ := Consume(MINUS);
        }
        var right := Term();
        if right.Err? {
          return right;
        }
        node := BinaryOperator(operator, node, right.value);
      }
      return Ok(node);
    }

    method LeftOp() returns (r: Result<Node, ParseError>)
      requires Valid()
      modifies this
      ensures Valid() && Outcome(r, pos) == ParseLeftOp(tokens, old(pos))
    {
      if Current().typename == WORD_VAR {
        var _ := Consume(WORD_VAR);
        var name := Current();
        var c := Consume(IDENTIFIER);
        if c.Err? {
          return Err(c.error);
        }
        return Ok(VarInit(name));
      } else {
        var name := Current();
        var c := Consume(IDENTIFIER);
        if c.Err? {
          return Err(c.error);
        }
        return Ok(Var(name));
      }
    }

    method Assign() returns (r: Result<Node, ParseError>)
      requires Valid()
      modifies this
      ensures Valid() && Outcome(r, pos) == ParseAssign(tokens, old(pos))
    {
      var left := LeftOp();
      if left.Err? {
        return left;
      }
      var c := Consume(EQUAL);
      if c.Err? {
        return Err(c.error);
      }
      var right := Expr();
      if right.Err? {
        return right;
      }
      return Ok(Assignation(left.value, right.value));
    }

    method Instruction() returns (r: Result<Node, ParseError>)
      requires Valid()
      modifies this
      ensures Valid() && Outcome(r, pos) == ParseInstruction(tokens, old(pos))
    {
      var instruction := Assign();
      if instruction.Err? {
        return instruction;
      }
      var c := Consume(TERMINATOR);
      if c.Err? {
        return Err(c.error);
      }
      return instruction;
    }

    method Program() returns (r: Result<Node, ParseError>)
      requires Valid()
      modifies this
      ensures Valid() && Outcome(r, pos) == ParseProgram(tokens, old(pos))
    {
      var instructions: seq<Node> := [];
      while Current().typename != EOF
        invariant Valid() && old(pos) <= pos
        invariant ProgramLoop(tokens, pos, instructions) == ParseProgram(tokens, old(pos))
        decreases |tokens| - pos
      {
        var instruction := Instruction();
        if instruction.Err? {
          return instruction;
        }
        instructions := instructions + [instruction.value];
      }
      return Ok(Ast.Program(instructions));
    }

    /** `parse` returns only with the current token at EOF, just after the
        program it read. */
    method Parse() returns (r: Result<Node, ParseError>)
      requires Valid()
      modifies this
      ensures Valid() && r == ParseTokens(tokens, old(pos))
      ensures r.Ok? ==> Current().typename == EOF && pos == ParseProgram(tokens, old(pos)).value.next
    {
      var tree := Program();
      if tree.Err? {
        return tree;
      }
      if Current().typename != EOF {
        return Err(ParseError(Some(EOF), Current()));
      }
      return tree;
    }
  }
}
