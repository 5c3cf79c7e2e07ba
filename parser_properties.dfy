/** What the grammar guarantees: printing an arithmetic tree with the
    fewest parentheses and parsing it back gives the same tree (so `term`
    and `expr` fold to the left and `*` `/` bind tighter than `+` `-`), the
    same holds for whole programs, `program` stops only at EOF, and every
    instruction needs the `;` the lexer cannot produce. */
module ParserProperties {
  import opened Results
  import opened Tokens
  import opened Ast
  import opened Parser
  import Lexer

  // ----- Printing trees back to tokens -----

  /** A tree `expr` can build: numbers, variable reads and the four
      operators. */
  predicate IsArith(n: Node)
  {
    match n
    case Number(t) => t.typename == NUMBER
    case VarEval(t) => t.typename == IDENTIFIER
    case BinaryOperator(op, l, r) =>
      (IsTermOperator(op.typename) || IsExprOperator(op.typename)) && IsArith(l) && IsArith(r)
    case _ => false
  }

  predicate IsSum(n: Node) { n.BinaryOperator? && IsExprOperator(n.operator.typename) }

  predicate IsProduct(n: Node) { n.BinaryOperator? && IsTermOperator(n.operator.typename) }

  const OpenPar := Token(OPEN_PAR, "(")
  const ClosePar := Token(CLOSING_PAR, ")")

  /** The tokens of `n` at the level of `expr`: a left operand of `+` or `-`
      needs no parentheses, a right operand is printed as a term. */
  function PrintExpr(n: Node): seq<Token>
    requires IsArith(n)
    decreases n, if IsProduct(n) then 1 else if IsSum(n) then 0 else 2
  {
    if IsSum(n) then PrintExpr(n.left) + [n.operator] + PrintTerm(n.right) else PrintTerm(n)
  }

  /** The tokens of `n` at the level of `term`. */
  function PrintTerm(n: Node): seq<Token>
    requires IsArith(n)
    decreases n, if IsProduct(n) then 0 else if IsSum(n) then 2 else 1
  {
    if IsProduct(n) then PrintTerm(n.left) + [n.operator] + PrintFactor(n.right) else PrintFactor(n)
  }

  /** The tokens of `n` at the level of `factor`: an operator in parentheses. */
  function PrintFactor(n: Node): seq<Token>
    requires IsArith(n)
    decreases n, if IsProduct(n) then 2 else if IsSum(n) then 1 else 0
  {
    if n.BinaryOperator? then [OpenPar] + PrintExpr(n) + [ClosePar] else [n.token]
  }

  /** `w` occurs in `s` at position `p`. */
  predicate At(s: seq<Token>, p: nat, w: seq<Token>)
  {
    p + |w| <= |s| && s[p..p + |w|] == w
  }

  lemma AtSplit(s: seq<Token>, p: nat, a: seq<Token>, b: seq<Token>)
    requires At(s, p, a + b)
    ensures At(s, p, a) && At(s, p + |a|, b)
  {
    assert s[p..p + |a|] == (a + b)[..|a|];
    assert s[p + |a|..p + |a| + |b|] == (a + b)[|a|..];
  }

  lemma AtSplit3(s: seq<Token>, p: nat, a: seq<Token>, t: Token, b: seq<Token>)
    requires At(s, p, a + [t] + b)
    ensures At(s, p, a) && At(s, p + |a| + 1, b)
    ensures p + |a| < |s| && s[p + |a|] == t
    ensures p + |a| + 1 + |b| <= |s|
  {
    AtSplit(s, p, a + [t], b);
    AtSplit(s, p, a, [t]);
    assert s[p + |a|] == s[p + |a|..p + |a| + 1][0];
  }

  lemma AtPeek(s: seq<Token>, p: nat, w: seq<Token>)
    requires At(s, p, w) && w != []
    ensures Peek(s, p) == w[0]
  {
    assert s[p] == s[p..p + |w|][0];
  }

  // ----- Expressions -----

  /** A parenthesised expression closed by `)` is a factor. */
  lemma FactorOfParens(s: seq<Token>, p: nat, n: Node, e: nat)
    requires p < e < |s| && s[p].typename == OPEN_PAR && s[e].typename == CLOSING_PAR
    requires ParseExpr(s, p + 1) == ExprTail(s, n, e)
    ensures ParseFactor(s, p) == Ok(Parsed(n, e + 1))
  {
    assert ExprTail(s, n, e) == Ok(Parsed(n, e));
  }

  /** A factor is the first operand of its term. */
  lemma TermOfFactor(s: seq<Token>, p: nat, n: Node, e: nat)
    requires p <= |s|
    requires ParseFactor(s, p) == Ok(Parsed(n, e))
    ensures ParseTerm(s, p) == TermTail(s, n, e)
  {
  }

  /** A term followed by neither `*` nor `/` is the first operand of its
      expression. */
  lemma ExprOfTerm(s: seq<Token>, p: nat, n: Node, e: nat)
    requires p <= e <= |s|
    requires ParseTerm(s, p) == TermTail(s, n, e)
    requires !IsTermOperator(Peek(s, e).typename)
    ensures ParseExpr(s, p) == ExprTail(s, n, e)
  {
    assert TermTail(s, n, e) == Ok(Parsed(n, e));
  }

  /** Where the parts of a printed product lie. */
  lemma ProductSplit(n: Node, s: seq<Token>, p: nat)
    requires IsArith(n) && IsProduct(n) && At(s, p, PrintTerm(n))
    ensures var q := p + |PrintTerm(n.left)|;
      && At(s, p, PrintTerm(n.left)) && q < |s| && s[q] == n.operator
      && At(s, q + 1, PrintFactor(n.right)) && q + 1 + |PrintFactor(n.right)| == p + |PrintTerm(n)|
  {
    AtSplit3(s, p, PrintTerm(n.left), n.operator, PrintFactor(n.right));
  }

  /** Where the parts of a printed sum lie. */
  lemma SumSplit(n: Node, s: seq<Token>, p: nat)
    requires IsArith(n) && IsSum(n) && At(s, p, PrintExpr(n))
    ensures var q := p + |PrintExpr(n.left)|;
      && At(s, p, PrintExpr(n.left)) && q < |s| && s[q] == n.operator
      && At(s, q + 1, PrintTerm(n.right)) && q + 1 + |PrintTerm(n.right)| == p + |PrintExpr(n)|
  {
    AtSplit3(s, p, PrintExpr(n.left), n.operator, PrintTerm(n.right));
  }

  /** Where the parts of a parenthesised operator lie. */
  lemma ParensSplit(n: Node, s: seq<Token>, p: nat)
    requires IsArith(n) && n.BinaryOperator? && At(s, p, PrintFactor(n))
    ensures var e := p + 1 + |PrintExpr(n)|;
      && s[p].typename == OPEN_PAR && At(s, p + 1, PrintExpr(n))
      && e < |s| && s[e].typename == CLOSING_PAR && e + 1 == p + |PrintFactor(n)|
  {
    AtSplit3(s, p, [OpenPar] + PrintExpr(n), ClosePar, []);
    AtSplit(s, p, [OpenPar], PrintExpr(n));
    AtPeek(s, p, [OpenPar]);
  }

  lemma {:induction false} FactorRoundTrip(n: Node, s: seq<Token>, p: nat)
    requires IsArith(n) && At(s, p, PrintFactor(n))
    ensures ParseFactor(s, p) == Ok(Parsed(n, p + |PrintFactor(n)|))
    decreases n, if IsProduct(n) then 6 else if IsSum(n) then 5 else 0
  {
    if n.BinaryOperator? {
      ParensSplit(n, s, p);
      ParensRoundTrip(n, s, p);
    } else {
      AtPeek(s, p, PrintFactor(n));
    }
  }

  /** `( e )` once the parts are in place. */
  lemma {:induction false} ParensRoundTrip(n: Node, s: seq<Token>, p: nat)
    requires IsArith(n) && n.BinaryOperator?
    requires p < |s| && s[p].typename == OPEN_PAR && At(s, p + 1, PrintExpr(n))
    requires p + 1 + |PrintExpr(n)| < |s| && s[p + 1 + |PrintExpr(n)|].typename == CLOSING_PAR
    ensures ParseFactor(s, p) == Ok(Parsed(n, p + 2 + |PrintExpr(n)|))
    decreases n, if IsProduct(n) then 5 else 4
  {
    var e := p + 1 + |PrintExpr(n)|;
    assert ParseExpr(s, p + 1) == ExprTail(s, n, e) by {
      ExprRoundTrip(n, s, p + 1);
    }
    FactorOfParens(s, p, n, e);
  }

  /** `* f` or `/ f` after the left operand of the product `n`. */
  lemma {:induction false} TermTailRoundTrip(n: Node, s: seq<Token>, q: nat)
    requires IsArith(n) && IsProduct(n)
    requires q < |s| && s[q] == n.operator && At(s, q + 1, PrintFactor(n.right))
    ensures TermTail(s, n.left, q) == TermTail(s, n, q + 1 + |PrintFactor(n.right)|)
    decreases n, 0
  {
    FactorRoundTrip(n.right, s, q + 1);
  }

  /** A product once its operator and right operand are located. */
  lemma {:induction false} ProductRoundTrip(n: Node, s: seq<Token>, p: nat, q: nat)
    requires IsArith(n) && IsProduct(n) && At(s, p, PrintTerm(n.left)) && q == p + |PrintTerm(n.left)|
    requires q < |s| && s[q] == n.operator && At(s, q + 1, PrintFactor(n.right))
    ensures ParseTerm(s, p) == TermTail(s, n, q + 1 + |PrintFactor(n.right)|)
    decreases n, 1
  {
    TermTailRoundTrip(n, s, q);
    assert ParseTerm(s, p) == TermTail(s, n.left, q) by {
      TermRoundTrip(n.left, s, p);
    }
  }

  lemma {:induction false} TermRoundTrip(n: Node, s: seq<Token>, p: nat)
    requires IsArith(n) && At(s, p, PrintTerm(n))
    ensures ParseTerm(s, p) == TermTail(s, n, p + |PrintTerm(n)|)
    decreases n, if IsProduct(n) then 3 else if IsSum(n) then 6 else 1
  {
    if IsProduct(n) {
      ProductSplit(n, s, p);
      ProductRoundTrip(n, s, p, p + |PrintTerm(n.left)|);
    } else {
      FactorRoundTrip(n, s, p);
      TermOfFactor(s, p, n, p + |PrintTerm(n)|);
    }
  }

  /** `+ t` or `- t` after the left operand of the sum `n`. */
  lemma {:induction false} ExprTailRoundTrip(n: Node, s: seq<Token>, q: nat)
    requires IsArith(n) && IsSum(n)
    requires q < |s| && s[q] == n.operator && At(s, q + 1, PrintTerm(n.right))
    requires !IsTermOperator(Peek(s, q + 1 + |PrintTerm(n.right)|).typename)
    ensures ExprTail(s, n.left, q) == ExprTail(s, n, q + 1 + |PrintTerm(n.right)|)
    decreases n, 0
  {
    var e := q + 1 + |PrintTerm(n.right)|;
    TermRoundTrip(n.right, s, q + 1);
    assert TermTail(s, n.right, e) == Ok(Parsed(n.right, e));
  }

  /** A sum once its operator and right operand are located. */
  lemma {:induction false} SumRoundTrip(n: Node, s: seq<Token>, p: nat, q: nat)
    requires IsArith(n) && IsSum(n) && At(s, p, PrintExpr(n.left)) && q == p + |PrintExpr(n.left)|
    requires q < |s| && s[q] == n.operator && At(s, q + 1, PrintTerm(n.right))
    requires !IsTermOperator(Peek(s, q + 1 + |PrintTerm(n.right)|).typename)
    ensures ParseExpr(s, p) == ExprTail(s, n, q + 1 + |PrintTerm(n.right)|)
    decreases n, 1
  {
    ExprTailRoundTrip(n, s, q);
    assert ParseExpr(s, p) == ExprTail(s, n.left, q) by {
      ExprRoundTrip(n.left, s, p);
    }
  }

  lemma {:induction false} ExprRoundTrip(n: Node, s: seq<Token>, p: nat)
    requires IsArith(n) && At(s, p, PrintExpr(n))
    requires !IsTermOperator(Peek(s, p + |PrintExpr(n)|).typename)
    ensures ParseExpr(s, p) == ExprTail(s, n, p + |PrintExpr(n)|)
    decreases n, if IsProduct(n) then 4 else if IsSum(n) then 3 else 2
  {
    if IsSum(n) {
      SumSplit(n, s, p);
      SumRoundTrip(n, s, p, p + |PrintExpr(n.left)|);
    } else {
      TermRoundTrip(n, s, p);
      ExprOfTerm(s, p, n, p + |PrintExpr(n)|);
    }
  }

  /** Parsing the printed tokens of an arithmetic tree gives the tree back
      and consumes all of them. */
  lemma ParsePrintedExpr(n: Node)
    requires IsArith(n)
    ensures ParseExpr(PrintExpr(n), 0) == Ok(Parsed(n, |PrintExpr(n)|))
  {
    var s := PrintExpr(n);
    assert s[0..|s|] == s;
    ExprRoundTrip(n, s, 0);
  }

  /** A number prints as its token at every level. */
  lemma PrintNumber(t: Token)
    requires t.typename == NUMBER
    ensures IsArith(Number(t))
    ensures PrintFactor(Number(t)) == PrintTerm(Number(t)) == PrintExpr(Number(t)) == [t]
  {
  }

  /** `a - b - c` groups as `(a - b) - c`. */
  lemma LeftAssociative(a: Token, b: Token, c: Token, m1: Token, m2: Token)
    requires a.typename == NUMBER && b.typename == NUMBER && c.typename == NUMBER
    requires m1.typename == MINUS && m2.typename == MINUS
    ensures ParseExpr([a, m1, b, m2, c], 0)
         == Ok(Parsed(BinaryOperator(m2, BinaryOperator(m1, Number(a), Number(b)), Number(c)), 5))
  {
    var n := BinaryOperator(m2, BinaryOperator(m1, Number(a), Number(b)), Number(c));
    PrintNumber(a);
    PrintNumber(b);
    PrintNumber(c);
    assert IsArith(n.left) && IsArith(n);
    assert PrintExpr(n.left) == [a, m1, b];
    assert PrintExpr(n) == PrintExpr(n.left) + [m2] + PrintTerm(n.right) == [a, m1, b, m2, c];
    ParsePrintedExpr(n);
  }

  /** In `a + b * c` the product is the right operand of the sum. */
  lemma ProductBindsTighter(a: Token, b: Token, c: Token, plus: Token, times: Token)
    requires a.typename == NUMBER && b.typename == NUMBER && c.typename == NUMBER
    requires plus.typename == PLUS && times.typename == MULT
    ensures ParseExpr([a, plus, b, times, c], 0)
         == Ok(Parsed(BinaryOperator(plus, Number(a), BinaryOperator(times, Number(b), Number(c))), 5))
  {
    var n := BinaryOperator(plus, Number(a), BinaryOperator(times, Number(b), Number(c)));
    PrintNumber(a);
    PrintNumber(b);
    PrintNumber(c);
    assert IsArith(n.right) && IsArith(n);
    assert PrintTerm(n.right) == [b, times, c];
    assert PrintExpr(n) == PrintExpr(n.left) + [plus] + PrintTerm(n.right) == [a, plus, b, times, c];
    ParsePrintedExpr(n);
  }

  /** Parentheses leave no node of their own: `( a + b ) * c` is the product
      of the sum. */
  lemma ParenthesesGroup(a: Token, b: Token, c: Token, plus: Token, times: Token)
    requires a.typename == NUMBER && b.typename == NUMBER && c.typename == NUMBER
    requires plus.typename == PLUS && times.typename == MULT
    ensures ParseExpr([OpenPar, a, plus, b, ClosePar, times, c], 0)
         == Ok(Parsed(BinaryOperator(times, BinaryOperator(plus, Number(a), Number(b)), Number(c)), 7))
  {
    var n := BinaryOperator(times, BinaryOperator(plus, Number(a), Number(b)), Number(c));
    PrintNumber(a);
    PrintNumber(b);
    PrintNumber(c);
    assert IsArith(n.left) && IsArith(n);
    assert PrintExpr(n.left) == [a, plus, b];
    assert PrintTerm(n.left) == PrintFactor(n.left) == [OpenPar, a, plus, b, ClosePar];
    assert PrintTerm(n) == PrintTerm(n.left) + [times] + PrintFactor(n.right);
    assert PrintExpr(n) == [OpenPar, a, plus, b, ClosePar, times, c];
    ParsePrintedExpr(n);
  }

  // ----- Programs -----

  /** An instruction `parse` can build: an assignment to a declared or
      declaring name, of an arithmetic expression. */
  predicate IsInstruction(n: Node)
  {
    && n.Assignation?
    && (n.target.Var? || n.target.VarInit?)
    && n.target.token.typename == IDENTIFIER
    && IsArith(n.expr)
  }

  const VarKeyword := Token(WORD_VAR, "var")
  const Equal := Token(EQUAL, "=")
  const Semicolon := Token(TERMINATOR, ";")

  predicate AllInstructions(instructions: seq<Node>)
  {
    instructions == [] || (IsInstruction(instructions[0]) && AllInstructions(instructions[1..]))
  }

  /** The tokens of the left operand: `var name` or `name`. */
  function PrintTarget(target: Node): seq<Token>
    requires target.Var? || target.VarInit?
  {
    (if target.VarInit? then [VarKeyword] else []) + [target.token]
  }

  function PrintInstruction(n: Node): seq<Token>
    requires IsInstruction(n)
  {
    PrintTarget(n.target) + [Equal] + (PrintExpr(n.expr) + [Semicolon])
  }

  function PrintProgram(instructions: seq<Node>): seq<Token>
    requires AllInstructions(instructions)
  {
    if instructions == [] then []
    else PrintInstruction(instructions[0]) + PrintProgram(instructions[1..])
  }

  lemma TargetRoundTrip(target: Node, s: seq<Token>, p: nat)
    requires (target.Var? || target.VarInit?) && target.token.typename == IDENTIFIER
    requires At(s, p, PrintTarget(target))
    ensures ParseLeftOp(s, p) == Ok(Parsed(target, p + |PrintTarget(target)|))
  {
    var w := PrintTarget(target);
    AtPeek(s, p, w);
    if target.VarInit? {
      assert w == [VarKeyword] + [target.token];
      AtSplit(s, p, [VarKeyword], [target.token]);
      AtPeek(s, p + 1, [target.token]);
    }
  }

  /** `left_op = expr` once its parts are known. */
  lemma AssignOfParts(s: seq<Token>, p: nat, target: Node, q: nat, e: Node, f: nat)
    requires p < q < f <= |s| && s[q].typename == EQUAL
    requires ParseLeftOp(s, p) == Ok(Parsed(target, q))
    requires ParseExpr(s, q + 1) == Ok(Parsed(e, f))
    ensures ParseAssign(s, p) == Ok(Parsed(Assignation(target, e), f))
  {
  }

  /** `left_op = expr ;` once its parts are known. */
  lemma InstructionOfParts(s: seq<Token>, p: nat, target: Node, q: nat, e: Node, f: nat)
    requires p < q < f < |s| && s[q].typename == EQUAL && s[f].typename == TERMINATOR
    requires ParseLeftOp(s, p) == Ok(Parsed(target, q))
    requires ParseExpr(s, q + 1) == ExprTail(s, e, f)
    ensures ParseInstruction(s, p) == Ok(Parsed(Assignation(target, e), f + 1))
  {
    assert ExprTail(s, e, f) == Ok(Parsed(e, f));
    AssignOfParts(s, p, target, q, e, f);
  }

  /** The left operand and `=` of a printed instruction. */
  lemma InstructionTarget(n: Node, e: seq<Token>, s: seq<Token>, p: nat)
    requires IsInstruction(n) && At(s, p, PrintTarget(n.target) + [Equal] + e)
    ensures var q := p + |PrintTarget(n.target)|;
      q < |s| && s[q] == Equal && At(s, q + 1, e) && ParseLeftOp(s, p) == Ok(Parsed(n.target, q))
  {
    AtSplit3(s, p, PrintTarget(n.target), Equal, e);
    TargetRoundTrip(n.target, s, p);
  }

  /** The expression and `;` of a printed instruction. */
  lemma InstructionExpr(n: Node, s: seq<Token>, q: nat)
    requires IsArith(n) && At(s, q, PrintExpr(n) + [Semicolon])
    ensures var f := q + |PrintExpr(n)|;
      f < |s| && s[f] == Semicolon && ParseExpr(s, q) == ExprTail(s, n, f)
  {
    var f := q + |PrintExpr(n)|;
    AtSplit(s, q, PrintExpr(n), [Semicolon]);
    AtPeek(s, f, [Semicolon]);
    ExprRoundTrip(n, s, q);
  }

  /** Where the parts of a printed instruction sit: `=` at `q`, `;` at
      `f`, the left operand before `q` and the expression between. */
  lemma InstructionParts(n: Node, s: seq<Token>, p: nat) returns (q: nat, f: nat)
    requires IsInstruction(n) && At(s, p, PrintInstruction(n))
    ensures p < q < f < |s| && s[q].typename == EQUAL && s[f].typename == TERMINATOR
    ensures f + 1 == p + |PrintInstruction(n)|
    ensures ParseLeftOp(s, p) == Ok(Parsed(n.target, q))
    ensures ParseExpr(s, q + 1) == ExprTail(s, n.expr, f)
  {
    var t, e := PrintTarget(n.target), PrintExpr(n.expr);
    q := p + |t|;
    f := q + 1 + |e|;
    assert |PrintInstruction(n)| == |t| + 1 + (|e| + 1);
    InstructionTarget(n, e + [Semicolon], s, p);
    InstructionExpr(n.expr, s, q + 1);
  }

  lemma InstructionRoundTrip(n: Node, s: seq<Token>, p: nat)
    requires IsInstruction(n) && At(s, p, PrintInstruction(n))
    ensures ParseInstruction(s, p) == Ok(Parsed(n, p + |PrintInstruction(n)|))
  {
    var q, f := InstructionParts(n, s, p);
    InstructionOfParts(s, p, n.target, q, n.expr, f);
  }

  /** One turn of the loop of `program`. */
  lemma ProgramLoopStep(s: seq<Token>, p: nat, acc: seq<Node>, n: Node, q: nat)
    requires p < q <= |s| && Peek(s, p).typename != EOF
    requires ParseInstruction(s, p) == Ok(Parsed(n, q))
    ensures ProgramLoop(s, p, acc) == ProgramLoop(s, q, acc + [n])
  {
  }

  /** A printed instruction starts with `var` or a name, never EOF. */
  lemma PrintedInstructionStart(head: Node, rest: seq<Token>, s: seq<Token>, p: nat)
    requires IsInstruction(head) && At(s, p, PrintInstruction(head) + rest)
    ensures At(s, p, PrintInstruction(head)) && At(s, p + |PrintInstruction(head)|, rest)
    ensures Peek(s, p).typename != EOF
  {
    var w := PrintInstruction(head);
    AtSplit(s, p, w, rest);
    AtPeek(s, p, w);
    assert w[0] == PrintTarget(head.target)[0];
  }

  /** At EOF the loop of `program` stops with what it has. */
  lemma ProgramLoopAtEof(s: seq<Token>, p: nat, acc: seq<Node>)
    requires p <= |s| && Peek(s, p).typename == EOF
    ensures ProgramLoop(s, p, acc) == Ok(Parsed(Program(acc), p))
  {
  }

  /** A printed program of at least one instruction: the loop takes the
      first one, `head`, and the rest, `tail`, is printed after it from `q`. */
  lemma ProgramLoopSplit(instructions: seq<Node>, s: seq<Token>, p: nat, acc: seq<Node>)
      returns (head: Node, tail: seq<Node>, q: nat)
    requires AllInstructions(instructions) && instructions != []
    requires At(s, p, PrintProgram(instructions))
    ensures instructions == [head] + tail
    ensures AllInstructions(tail) && At(s, q, PrintProgram(tail))
    ensures q + |PrintProgram(tail)| == p + |PrintProgram(instructions)|
    ensures acc + [head] + tail == acc + instructions
    ensures ProgramLoop(s, p, acc) == ProgramLoop(s, q, acc + [head])
  {
    head, tail := instructions[0], instructions[1..];
    q := p + |PrintInstruction(head)|;
    assert instructions == [head] + tail;
    assert acc + [head] + tail == acc + instructions;
    assert PrintProgram(instructions) == PrintInstruction(head) + PrintProgram(tail);
    PrintedInstructionStart(head, PrintProgram(tail), s, p);
    InstructionRoundTrip(head, s, p);
    ProgramLoopStep(s, p, acc, head, q);
  }

  /** The printed program from `p` on, followed by EOF at `e`, is parsed
      by the loop of `program` in order. */
  lemma {:induction false} ProgramLoopRoundTrip(instructions: seq<Node>, s: seq<Token>, p: nat, e: nat, acc: seq<Node>)
    requires AllInstructions(instructions)
    requires At(s, p, PrintProgram(instructions)) && e == p + |PrintProgram(instructions)|
    requires Peek(s, e).typename == EOF
    ensures ProgramLoop(s, p, acc) == Ok(Parsed(Program(acc + instructions), e))
    decreases |instructions|
  {
    if instructions == [] {
      assert acc + instructions == acc;
      ProgramLoopAtEof(s, p, acc);
    } else {
      var head, tail, q := ProgramLoopSplit(instructions, s, p, acc);
      ProgramLoopRoundTrip(tail, s, q, e, acc + [head]);
    }
  }

  /** A stream made of exactly the printed program parses to it. */
  lemma ParseExactlyPrinted(instructions: seq<Node>, s: seq<Token>)
    requires AllInstructions(instructions)
    requires At(s, 0, PrintProgram(instructions)) && |s| == |PrintProgram(instructions)|
    ensures ParseTokens(s, 0) == Ok(Program(instructions))
  {
    assert [] + instructions == instructions;
    assert ParseProgram(s, 0) == Ok(Parsed(Program(instructions), |s|)) by {
      ProgramLoopRoundTrip(instructions, s, 0, |s|, []);
    }
  }

  /** Parsing the printed tokens of a program gives the program back. */
  lemma ParsePrintedProgram(instructions: seq<Node>)
    requires AllInstructions(instructions)
    ensures ParseTokens(PrintProgram(instructions), 0) == Ok(Program(instructions))
  {
    var s := PrintProgram(instructions);
    assert At(s, 0, s) by {
      assert s[0..|s|] == s;
    }
    ParseExactlyPrinted(instructions, s);
  }

  /** `program` only stops at EOF. */
  lemma {:induction false} ProgramLoopEndsAtEof(s: seq<Token>, p: nat, acc: seq<Node>)
    requires p <= |s|
    ensures ProgramLoop(s, p, acc).Ok? ==> Peek(s, ProgramLoop(s, p, acc).value.next).typename == EOF
    decreases |s| - p
  {
    if Peek(s, p).typename != EOF && ParseInstruction(s, p).Ok? {
      var i := ParseInstruction(s, p).value;
      ProgramLoopEndsAtEof(s, i.next, acc + [i.node]);
    }
  }

  /** So the EOF check of `parse` never fails: `parse` gives exactly what
      `program` gives. */
  lemma ParseIsProgram(s: seq<Token>, p: nat)
    requires p <= |s|
    ensures ParseTokens(s, p).Ok? <==> ParseProgram(s, p).Ok?
    ensures ParseTokens(s, p).Ok? ==> ParseTokens(s, p).value == ParseProgram(s, p).value.node
    ensures ParseTokens(s, p).Err? ==> ParseTokens(s, p).error == ParseProgram(s, p).error
  {
    ProgramLoopEndsAtEof(s, p, []);
  }

  /** A stream that starts at EOF is the empty program. */
  lemma EmptyProgram(s: seq<Token>)
    requires Peek(s, 0).typename == EOF
    ensures ParseTokens(s, 0) == Ok(Program([]))
  {
  }

  /** Every instruction ends with the `;` it consumed. */
  lemma InstructionNeedsTerminator(s: seq<Token>, p: nat)
    requires p <= |s|
    ensures var r := ParseInstruction(s, p);
      r.Ok? ==> p < r.value.next && s[r.value.next - 1].typename == TERMINATOR
  {
    var r := ParseInstruction(s, p);
    if r.Ok? {
      var a := ParseAssign(s, p).value;
      assert Peek(s, a.next).typename == TERMINATOR;
    }
  }

  /** Without `;` tokens, the only program is the empty one. */
  lemma {:induction false} NoTerminatorNoInstruction(s: seq<Token>, p: nat, acc: seq<Node>)
    requires p <= |s|
    requires forall k :: 0 <= k < |s| ==> s[k].typename != TERMINATOR
    ensures ProgramLoop(s, p, acc).Ok? ==> ProgramLoop(s, p, acc).value.node == Program(acc)
  {
    if Peek(s, p).typename != EOF {
      InstructionNeedsTerminator(s, p);
    }
  }

  /** The token list `tokenize` returns never holds a `;`, so it parses to
      the empty program or not at all. */
  lemma LexedProgramIsEmpty(text: string)
    requires Lexer.Tokenize(text).Tokenized?
    ensures var s := Lexer.Tokenize(text).tokens;
      ParseProgram(s, 0).Ok? ==> ParseProgram(s, 0).value.node == Program([])
  {
    var s := Lexer.Tokenize(text).tokens;
    Lexer.TokenizeOutcome(text);
    NoTerminatorNoInstruction(s, 0, []);
  }

  /** The same for a parser that pulls its tokens from `get_next_token`:
      the stream it reads holds no `;`, so it parses to the empty program,
      or fails. */
  lemma PulledProgramIsEmpty(text: string)
    ensures var s := Lexer.Pulled(text, 0);
      ParseProgram(s, 0).Ok? ==> ParseProgram(s, 0).value.node == Program([])
  {
    var s := Lexer.Pulled(text, 0);
    Lexer.PulledNeverTerminator(text, 0);
    NoTerminatorNoInstruction(s, 0, []);
  }
}
