/** `NodeVisitor`: the handler name is derived from the class name by
    splitting it into words before every capital followed by lower-case
    letters (never at the very start), joining the words with `_` and
    lower-casing the result. */
module Visitors {
  import opened Text
  import opened Ast

  /** A class name: ASCII letters, digits and underscores, so that the only
      whitespace `split()` sees is the spaces the substitution inserts. */
  predicate IsClassName(name: string)
  {
    forall i :: 0 <= i < |name| ==> IsAlnum(name[i]) || name[i] == '_'
  }

  /** The substitution `(?!^)([A-Z][a-z]+)` -> ` \1` inserts a space before
      index `i`: a capital not at the start, followed by a lower-case letter. */
  predicate WordStart(name: string, i: int)
  {
    0 < i && i + 1 < |name| && IsUpper(name[i]) && IsLower(name[i + 1])
  }

  /** No word start at any index from `i` up to `j`. */
  predicate NoWordStartIn(name: string, i: nat, j: nat)
    decreases j - i
  {
    i >= j || (!WordStart(name, i) && NoWordStartIn(name, i + 1, j))
  }

  /** The first word start at or after `i`, or the end of the name. */
  function NextStart(name: string, i: nat): (j: nat)
    requires i <= |name|
    ensures i <= j <= |name|
    ensures j < |name| ==> WordStart(name, j)
    ensures NoWordStartIn(name, i, j)
    decreases |name| - i
  {
    if i == |name| || WordStart(name, i) then i else NextStart(name, i + 1)
  }

  /** `split()` of the substituted name, from index `start` on. */
  function Words(name: string, start: nat): (ws: seq<string>)
    requires start <= |name|
    ensures forall k :: 0 <= k < |ws| ==> ws[k] != []
    decreases |name| - start
  {
    if start == |name| then []
    else
      var j := NextStart(name, start + 1);
      [name[start..j]] + Words(name, j)
  }

  /** `'_'.join(words)`. */
  function Join(ws: seq<string>): string
  {
    if ws == [] then []
    else if |ws| == 1 then ws[0]
    else ws[0] + "_" + Join(ws[1..])
  }

  function LowerChar(c: char): (d: char)
    ensures !IsUpper(d)
  {
    if IsUpper(c) then (c as int - 'A' as int + 'a' as int) as char else c
  }

  /** `str.lower()` on ASCII text. */
  function Lower(s: string): (r: string)
    ensures |r| == |s|
  {
    seq(|s|, i requires 0 <= i < |s| => LowerChar(s[i]))
  }

  /** The handler name `NodeVisitor.visit` looks up. */
  function HandlerName(name: string): string
    requires IsClassName(name)
  {
    "visit_" + Lower(Join(Words(name, 0)))
  }

  /** `NodeVisitor.visit` over a visitor that defines `handlers`. */
  function VisitClass(handlers: set<string>, name: string): (d: Dispatch)
    requires IsClassName(name)
    ensures d.CallHandler? <==> HandlerName(name) in handlers
    ensures d.CallHandler? ==> d.name == HandlerName(name)
    ensures d.DefaultVisit? ==> d.message == NoVisitorMessage(name)
  {
    if HandlerName(name) in handlers then CallHandler(HandlerName(name))
    else DefaultVisit(NoVisitorMessage(name))
  }

  // ----- The same name, one character at a time -----

  /** The name from index `i` on with `_` written before every word start. */
  function Underscored(name: string, i: nat): (r: string)
    requires i <= |name|
    decreases |name| - i
  {
    if i == |name| then []
    else (if WordStart(name, i) then "_" else "") + [name[i]] + Underscored(name, i + 1)
  }

  /** Between word starts the characters are copied unchanged. */
  lemma {:induction false} UnderscoredRun(name: string, i: nat, j: nat)
    requires i <= j <= |name|
    requires NoWordStartIn(name, i, j)
    ensures Underscored(name, i) == name[i..j] + Underscored(name, j)
    decreases j - i
  {
    if i < j {
      assert Underscored(name, i) == [name[i]] + Underscored(name, i + 1);
      UnderscoredRun(name, i + 1, j);
      assert name[i..j] == [name[i]] + name[i + 1..j];
    }
  }

  /** Splitting into words and joining them with `_` is the same as writing
      `_` before every word start: the split drops and duplicates nothing,
      and the first character of a word never gets a separator of its own. */
  lemma {:induction false} JoinWords(name: string, s: nat)
    requires s < |name|
    ensures Join(Words(name, s)) == [name[s]] + Underscored(name, s + 1)
    decreases |name| - s
  {
    var j := NextStart(name, s + 1);
    UnderscoredRun(name, s + 1, j);
    assert name[s..j] == [name[s]] + name[s + 1..j];
    if j < |name| {
      JoinWords(name, j);
      assert Words(name, s) == [name[s..j]] + Words(name, j);
      assert Words(name, j) != [];
    }
  }

  /** The handler name, character by character. */
  lemma {:induction false} HandlerNameUnderscored(name: string)
    requires IsClassName(name) && name != []
    ensures HandlerName(name) == "visit_" + Lower([name[0]] + Underscored(name, 1))
  {
    calc {
      HandlerName(name);
      "visit_" + Lower(Join(Words(name, 0)));
      { JoinWords(name, 0); }
      "visit_" + Lower([name[0]] + Underscored(name, 1));
    }
  }

  /** The handler name starts with `visit_`, contains no capital, and its
      first letter after the prefix is the class name's first letter in lower
      case: position 0 is never a split point. */
  lemma {:induction false} HandlerNameShape(name: string)
    requires IsClassName(name)
    ensures |HandlerName(name)| >= 6 && HandlerName(name)[..6] == "visit_"
    ensures forall i :: 0 <= i < |HandlerName(name)| ==> !IsUpper(HandlerName(name)[i])
    ensures name != [] ==> |HandlerName(name)| > 6 && HandlerName(name)[6] == LowerChar(name[0])
  {
    var h := HandlerName(name);
    var l := Lower(Join(Words(name, 0)));
    assert h == "visit_" + l;
    forall i | 0 <= i < |h| ensures !IsUpper(h[i]) {
      if i >= 6 {
        assert h[i] == l[i - 6];
      }
    }
    if name != [] {
      HandlerNameUnderscored(name);
    }
  }

  /** A name with no capital followed by a lower-case letter, such as a run
      of capitals, is one word and is only lower-cased. */
  lemma {:induction false} SingleWord(name: string)
    requires IsClassName(name)
    requires NoWordStartIn(name, 0, |name|)
    ensures HandlerName(name) == "visit_" + Lower(name)
  {
    if name != [] {
      assert HandlerName(name) == "visit_" + Lower([name[0]] + Underscored(name, 1)) by {
        HandlerNameUnderscored(name);
      }
      assert Underscored(name, 1) == name[1..] by {
        UnderscoredRun(name, 1, |name|);
      }
      assert [name[0]] + name[1..] == name;
    }
  }

  /** Lower-casing distributes over concatenation. */
  lemma {:induction false} LowerAppend(a: string, b: string)
    ensures Lower(a + b) == Lower(a) + Lower(b)
  {
    assert |Lower(a + b)| == |Lower(a) + Lower(b)|;
    forall i | 0 <= i < |a + b| ensures Lower(a + b)[i] == (Lower(a) + Lower(b))[i] {
      if i < |a| {
        assert (a + b)[i] == a[i];
      } else {
        assert (a + b)[i] == b[i - |a|];
      }
    }
  }

  /** A name with exactly one word start `j` gives two words. */
  lemma {:induction false} TwoWords(name: string, j: nat)
    requires IsClassName(name) && WordStart(name, j)
    requires NoWordStartIn(name, 1, j) && NoWordStartIn(name, j + 1, |name|)
    ensures HandlerName(name) == "visit_" + Lower(name[..j]) + "_" + Lower(name[j..])
  {
    var u1, uj, rest := Underscored(name, 1), Underscored(name, j), Underscored(name, j + 1);
    assert u1 == name[1..j] + uj by {
      UnderscoredRun(name, 1, j);
    }
    assert uj == "_" + [name[j]] + rest;
    assert rest == name[j + 1..] by {
      UnderscoredRun(name, j + 1, |name|);
      assert name[j + 1..|name|] == name[j + 1..];
    }
    SplitOnce(name, j, u1, uj, rest);
    TwoWordsLower(name, j);
  }

  /** The characters of a name split once at `j`, with `_` before `j`. */
  lemma {:induction false} SplitOnce(name: string, j: nat, u1: string, uj: string, rest: string)
    requires 0 < j < |name|
    requires u1 == name[1..j] + uj && uj == "_" + [name[j]] + rest && rest == name[j + 1..]
    ensures [name[0]] + u1 == name[..j] + ("_" + name[j..])
  {
    assert name[j..] == [name[j]] + name[j + 1..];
    assert name[..j] == [name[0]] + name[1..j];
  }

  lemma {:induction false} TwoWordsLower(name: string, j: nat)
    requires IsClassName(name) && 0 < j < |name|
    requires [name[0]] + Underscored(name, 1) == name[..j] + ("_" + name[j..])
    ensures HandlerName(name) == "visit_" + Lower(name[..j]) + "_" + Lower(name[j..])
  {
    var a, b := name[..j], name[j..];
    calc {
      HandlerName(name);
      { HandlerNameUnderscored(name); }
      "visit_" + Lower(a + ("_" + b));
      { LowerAppend(a, "_" + b); LowerAppend("_", b); }
      "visit_" + (Lower(a) + (Lower("_") + Lower(b)));
    }
  }

  /** Without capitals there is no word start. */
  lemma {:induction false} NoCapitalNoStart(name: string, i: nat, j: nat)
    requires j <= |name|
    requires forall k :: i <= k < j ==> !IsUpper(name[k])
    ensures NoWordStartIn(name, i, j)
    decreases j - i
  {
    if i < j {
      NoCapitalNoStart(name, i + 1, j);
    }
  }

  /** Without lower-case letters there is no word start either. */
  lemma {:induction false} NoLowerNoStart(name: string, i: nat, j: nat)
    requires j <= |name|
    requires forall k :: i < k <= j && k < |name| ==> !IsLower(name[k])
    ensures NoWordStartIn(name, i, j)
    decreases j - i
  {
    if i < j {
      NoLowerNoStart(name, i + 1, j);
    }
  }

  lemma LowerBinaryOperator()
    ensures "visit_" + Lower("Binary") + "_" + Lower("Operator") == "visit_binary_operator"
  {
    assert Lower("Binary") == "binary";
    assert Lower("Operator") == "operator";
  }

  /** `BinaryOperator` splits into `Binary` and `Operator`. */
  lemma BinaryOperatorHandler(name: string)
    requires name == "BinaryOperator"
    ensures HandlerName(name) == "visit_binary_operator"
  {
    NoCapitalNoStart(name, 1, 6);
    NoCapitalNoStart(name, 7, |name|);
    TwoWords(name, 6);
    assert name[..6] == "Binary" && name[6..] == "Operator";
    LowerBinaryOperator();
  }

  lemma LowerAstNode()
    ensures "visit_" + Lower("AST") + "_" + Lower("Node") == "visit_ast_node"
  {
    assert Lower("AST") == "ast";
    assert Lower("Node") == "node";
  }

  /** `ASTNode` splits before `Node` only: the capitals `AST` stay together. */
  lemma AstNodeHandler(name: string)
    requires name == "ASTNode"
    ensures HandlerName(name) == "visit_ast_node"
  {
    NoLowerNoStart(name, 1, 3);
    NoCapitalNoStart(name, 4, |name|);
    TwoWords(name, 3);
    assert name[..3] == "AST" && name[3..] == "Node";
    LowerAstNode();
  }

  /** A run of capitals alone is one word. */
  lemma AstHandler(name: string)
    requires name == "AST"
    ensures HandlerName(name) == "visit_ast"
  {
    NoLowerNoStart(name, 0, 3);
    SingleWord(name);
    assert Lower("AST") == "ast";
  }
}
