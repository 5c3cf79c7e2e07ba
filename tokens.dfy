/** The token model: token types, the `Token` record with its rendering, and
    the ordered rule table with its three hand-coded patterns. */
module Tokens {
  import opened Results
  import opened Text

  /** The constants of the token-type module, one per kind of token. */
  datatype TokenType =
    | SPACE | TAB
    | OPEN_PAR | CLOSING_PAR | PLUS | MINUS | MULT | DIV | EQUAL
    | NUMBER | IDENTIFIER | STRING
    | EOF | TERMINATOR | WORD_VAR

  /** A lexical unit: its type and the exact text it was built from. */
  datatype Token = Token(typename: TokenType, value: string)

  /** The name a token type prints under. */
  function TypeName(k: TokenType): string
  {
    match k
    case SPACE => "SPACE"
    case TAB => "TAB"
    case OPEN_PAR => "OPEN_PAR"
    case CLOSING_PAR => "CLOSING_PAR"
    case PLUS => "PLUS"
    case MINUS => "MINUS"
    case MULT => "MULT"
    case DIV => "DIV"
    case EQUAL => "EQUAL"
    case NUMBER => "NUMBER"
    case IDENTIFIER => "IDENTIFIER"
    case STRING => "STRING"
    case EOF => "EOF"
    case TERMINATOR => "TERMINATOR"
    case WORD_VAR => "WORD_VAR"
  }

  /** Reads a printed type name back. */
  function TypeOfName(name: string): Option<TokenType>
  {
    if name == "SPACE" then Some(SPACE)
    else if name == "TAB" then Some(TAB)
    else if name == "OPEN_PAR" then Some(OPEN_PAR)
    else if name == "CLOSING_PAR" then Some(CLOSING_PAR)
    else if name == "PLUS" then Some(PLUS)
    else if name == "MINUS" then Some(MINUS)
    else if name == "MULT" then Some(MULT)
    else if name == "DIV" then Some(DIV)
    else if name == "EQUAL" then Some(EQUAL)
    else if name == "NUMBER" then Some(NUMBER)
    else if name == "IDENTIFIER" then Some(IDENTIFIER)
    else if name == "STRING" then Some(STRING)
    else if name == "EOF" then Some(EOF)
    else if name == "TERMINATOR" then Some(TERMINATOR)
    else if name == "WORD_VAR" then Some(WORD_VAR)
    else None
  }

  /** Every type name reads back as its type and holds no comma. */
  lemma TypeNameRoundTrip(k: TokenType)
    ensures TypeOfName(TypeName(k)) == Some(k)
    ensures forall i :: 0 <= i < |TypeName(k)| ==> TypeName(k)[i] != ','
  {
  }

  /** `str(token)`: `Token(TYPE, 'value')`. */
  function Render(t: Token): string
  {
    "Token(" + TypeName(t.typename) + ", '" + t.value + "')"
  }

  /** The rendered form starts with `Token(`, then the type name, then `, '`,
      then the value verbatim, and ends with `')`. */
  lemma RenderLayout(t: Token)
    ensures var n := TypeName(t.typename); var r := Render(t);
      && |r| == |n| + |t.value| + 11
      && r[..6] == "Token("
      && r[6..6 + |n|] == n
      && r[6 + |n|..9 + |n|] == ", '"
      && r[9 + |n|..|r| - 2] == t.value
      && r[|r| - 2..] == "')"
  {
  }

  /** Two tokens print alike only if they are the same token: the debug string
      determines the type and the value. */
  lemma RenderInjective(t1: Token, t2: Token)
    requires Render(t1) == Render(t2)
    ensures t1 == t2
  {
    RenderNameLength(t1, t2);
    RenderNameLength(t2, t1);
    RenderLayout(t1);
    RenderLayout(t2);
    TypeNameRoundTrip(t1.typename);
    TypeNameRoundTrip(t2.typename);
  }

  /** The type name of a rendering ends at its first comma. */
  lemma RenderNameLength(t1: Token, t2: Token)
    requires Render(t1) == Render(t2)
    ensures |TypeName(t1.typename)| <= |TypeName(t2.typename)|
  {
    var n1, n2 := TypeName(t1.typename), TypeName(t2.typename);
    TypeNameRoundTrip(t1.typename);
    if |n1| > |n2| {
      RenderCharAfterName(t2);
      RenderCharInName(t1, |n2|);
      assert false;
    }
  }

  lemma RenderCharAfterName(t: Token)
    ensures Render(t)[6 + |TypeName(t.typename)|] == ','
  {
    RenderLayout(t);
    var n := TypeName(t.typename);
    assert Render(t)[6 + |n|] == Render(t)[6 + |n|..9 + |n|][0];
  }

  lemma RenderCharInName(t: Token, i: int)
    ensures 0 <= i < |TypeName(t.typename)| ==> Render(t)[6 + i] == TypeName(t.typename)[i]
  {
    RenderLayout(t);
    var n := TypeName(t.typename);
    if 0 <= i < |n| {
      assert Render(t)[6 + i] == Render(t)[6..6 + |n|][i];
    }
  }

  // ----- The rule table -----

  /** The three regular expressions of the table, hand-coded below. */
  datatype Pattern =
    | NumberPattern      // [0-9]+(\.[0-9]+)?
    | IdentifierPattern  // _*[a-zA-Z0-9]*
    | StringPattern      // ".*"

  /** A rule: skip one literal character, emit a one-character token, or emit
      the text a pattern matches. */
  datatype Rule =
    | Skip(kind: TokenType, c: char)
    | SingleChar(kind: TokenType, c: char)
    | PatternRule(kind: TokenType, pattern: Pattern)

  /** The two skip rules: a space, then a tab. */
  const SkipRules: seq<Rule> := [Skip(SPACE, ' '), Skip(TAB, '\t')]

  /** The one-character tokens, in table order. */
  const SingleCharRules: seq<Rule> := [
    SingleChar(OPEN_PAR, '('),
    SingleChar(CLOSING_PAR, ')'),
    SingleChar(PLUS, '+'),
    SingleChar(MINUS, '-'),
    SingleChar(MULT, '*'),
    SingleChar(DIV, '/'),
    SingleChar(EQUAL, '=')
  ]

  /** The pattern rules: NUMBER before IDENTIFIER before STRING. */
  const PatternRules: seq<Rule> := [
    PatternRule(NUMBER, NumberPattern),
    PatternRule(IDENTIFIER, IdentifierPattern),
    PatternRule(STRING, StringPattern)
  ]

  /** The rule table, in the order the lexers try it. */
  const TokenRules: seq<Rule> := SkipRules + SingleCharRules + PatternRules

  /** No rule of the table yields a terminator or the `var` keyword. */
  lemma NoTerminatorOrVarRule()
    ensures forall k :: 0 <= k < |TokenRules| ==>
      TokenRules[k].kind != TERMINATOR && TokenRules[k].kind != WORD_VAR
  {
  }

  // ----- NUMBER: [0-9]+(\.[0-9]+)? -----

  /** Text the NUMBER pattern matches in full: a digit first and last, only
      digits and dots in between, and at most one dot. */
  predicate IsNumberLiteral(t: string)
  {
    && |t| > 0 && IsDigit(t[0]) && IsDigit(t[|t| - 1])
    && (forall i :: 0 <= i < |t| ==> IsDigit(t[i]) || t[i] == '.')
    && (forall i, j :: 0 <= i < j < |t| && t[i] == '.' ==> t[j] != '.')
  }

  /** Length of the run of digits of `s` starting at `i`. */
  function DigitRun(s: string, i: nat): (n: nat)
    requires i <= |s|
    ensures i + n <= |s|
    ensures forall k :: i <= k < i + n ==> IsDigit(s[k])
    ensures i + n == |s| || !IsDigit(s[i + n])
    decreases |s| - i
  {
    if i < |s| && IsDigit(s[i]) then 1 + DigitRun(s, i + 1) else 0
  }

  /** The length of the NUMBER match at the start of `s`, if there is one. */
  function NumberMatch(s: string): Option<nat>
  {
    var n := DigitRun(s, 0);
    if n == 0 then None
    else if n + 1 < |s| && s[n] == '.' && IsDigit(s[n + 1]) then Some(n + 1 + DigitRun(s, n + 1))
    else Some(n)
  }

  /** NUMBER matches exactly when `s` starts with a digit, and then it takes
      the longest prefix that is a number literal; a dot not followed by a
      digit is left out. */
  lemma NumberMatchLongest(s: string)
    ensures NumberMatch(s).Some? <==> |s| > 0 && IsDigit(s[0])
    ensures NumberMatch(s).Some? ==>
      var r := NumberMatch(s).value;
      && r <= |s| && IsNumberLiteral(s[..r])
      && forall k :: r < k <= |s| ==> !IsNumberLiteral(s[..k])
  {
    var n := DigitRun(s, 0);
    if n > 0 {
      var r := NumberMatch(s).value;
      if n + 1 < |s| && s[n] == '.' && IsDigit(s[n + 1]) {
        var m := DigitRun(s, n + 1);
        assert r == n + 1 + m;
        var t := s[..r];
        assert forall i :: 0 <= i < |t| && t[i] == '.' ==> i == n;
        forall k | r < k <= |s| ensures !IsNumberLiteral(s[..k]) {
          var u := s[..k];
          assert u[n] == '.';
          assert !IsDigit(u[r]);
        }
      } else {
        assert r == n;
        forall k | r < k <= |s| ensures !IsNumberLiteral(s[..k]) {
          var u := s[..k];
          assert !IsDigit(u[n]);
          if u[n] == '.' && k > n + 1 {
            assert !IsDigit(u[n + 1]);
          }
        }
      }
    }
  }

  // ----- IDENTIFIER: _*[a-zA-Z0-9]* -----

  /** Text the IDENTIFIER pattern matches in full: underscores, then ASCII
      letters and digits; the empty text included. */
  predicate IsIdentifierLiteral(t: string)
  {
    && (forall i :: 0 <= i < |t| ==> t[i] == '_' || IsAlnum(t[i]))
    && (forall i, j :: 0 <= i < j < |t| && t[j] == '_' ==> t[i] == '_')
  }

  function UnderscoreRun(s: string, i: nat): (n: nat)
    requires i <= |s|
    ensures i + n <= |s|
    ensures forall k :: i <= k < i + n ==> s[k] == '_'
    ensures i + n == |s| || s[i + n] != '_'
    decreases |s| - i
  {
    if i < |s| && s[i] == '_' then 1 + UnderscoreRun(s, i + 1) else 0
  }

  function AlnumRun(s: string, i: nat): (n: nat)
    requires i <= |s|
    ensures i + n <= |s|
    ensures forall k :: i <= k < i + n ==> IsAlnum(s[k])
    ensures i + n == |s| || !IsAlnum(s[i + n])
    decreases |s| - i
  {
    if i < |s| && IsAlnum(s[i]) then 1 + AlnumRun(s, i + 1) else 0
  }

  /** The length of the IDENTIFIER match at the start of `s`; it always
      matches, possibly the empty prefix. */
  function IdentifierMatch(s: string): Option<nat>
  {
    var u := UnderscoreRun(s, 0);
    Some(u + AlnumRun(s, u))
  }

  /** IDENTIFIER takes the longest identifier-shaped prefix, which is empty
      exactly when `s` starts with neither an underscore nor an ASCII letter
      or digit. */
  lemma IdentifierMatchLongest(s: string)
    ensures IdentifierMatch(s).Some?
    ensures var r := IdentifierMatch(s).value;
      && r <= |s| && IsIdentifierLiteral(s[..r])
      && (forall k :: r < k <= |s| ==> !IsIdentifierLiteral(s[..k]))
      && (r == 0 <==> (|s| == 0 || (s[0] != '_' && !IsAlnum(s[0]))))
  {
    var u := UnderscoreRun(s, 0);
    var a := AlnumRun(s, u);
    var r := u + a;
    forall k | r < k <= |s| ensures !IsIdentifierLiteral(s[..k]) {
      var t := s[..k];
      if a == 0 {
        assert t[r] != '_' && !IsAlnum(t[r]);
      } else if t[r] == '_' {
        assert IsAlnum(t[r - 1]) && t[r - 1] != '_';
      }
    }
  }

  // ----- STRING: ".*" (greedy; `.` stops at a newline) -----

  /** Text the STRING pattern matches in full: quote, any characters but a
      newline, quote. */
  predicate IsStringLiteral(t: string)
  {
    && |t| >= 2 && t[0] == '"' && t[|t| - 1] == '"'
    && forall i :: 0 <= i < |t| ==> t[i] != '\n'
  }

  /** The first newline of `s` at or after `i`, or `|s|`. */
  function LineEnd(s: string, i: nat): (e: nat)
    requires i <= |s|
    ensures i <= e <= |s|
    ensures forall k :: i <= k < e ==> s[k] != '\n'
    ensures e == |s| || s[e] == '\n'
    decreases |s| - i
  {
    if i == |s| || s[i] == '\n' then i else LineEnd(s, i + 1)
  }

  /** The last quote of `s` in `[lo, hi)`, if any. */
  function LastQuote(s: string, lo: nat, hi: nat): (r: Option<nat>)
    requires lo <= hi <= |s|
    ensures r.Some? ==>
      && lo <= r.value < hi && s[r.value] == '"'
      && forall k :: r.value < k < hi ==> s[k] != '"'
    ensures r.None? ==> forall k :: lo <= k < hi ==> s[k] != '"'
    decreases hi
  {
    if lo == hi then None
    else if s[hi - 1] == '"' then Some(hi - 1)
    else LastQuote(s, lo, hi - 1)
  }

  /** The length of the STRING match at the start of `s`, if there is one. */
  function StringMatch(s: string): Option<nat>
  {
    if |s| == 0 || s[0] != '"' then None
    else match LastQuote(s, 1, LineEnd(s, 1))
      case None => None
      case Some(k) => Some(k + 1)
  }

  /** STRING matches exactly when some prefix of `s` is a string literal, and
      then it takes the longest one: up to the last quote of the line. */
  lemma StringMatchLongest(s: string)
    ensures StringMatch(s).None? ==> forall k :: 0 <= k <= |s| ==> !IsStringLiteral(s[..k])
    ensures StringMatch(s).Some? ==>
      var r := StringMatch(s).value;
      && r <= |s| && IsStringLiteral(s[..r])
      && forall k :: r < k <= |s| ==> !IsStringLiteral(s[..k])
  {
    if |s| > 0 && s[0] == '"' {
      var e := LineEnd(s, 1);
      match LastQuote(s, 1, e)
      case None =>
        forall k | 0 <= k <= |s| ensures !IsStringLiteral(s[..k]) {
          if k >= 2 && k - 1 >= e {
            assert s[..k][e] == '\n';
          }
        }
      case Some(q) =>
        forall k | q + 1 < k <= |s| ensures !IsStringLiteral(s[..k]) {
          if k - 1 >= e {
            assert s[..k][e] == '\n';
          }
        }
    }
  }

  /** The match of a pattern at the start of `s`: `None` when the pattern
      does not match, else the length of the match (possibly zero). */
  function PatternMatch(p: Pattern, s: string): (r: Option<nat>)
    ensures r.Some? ==> r.value <= |s|
  {
    match p
    case NumberPattern => NumberMatch(s)
    case IdentifierPattern => IdentifierMatch(s)
    case StringPattern => StringMatch(s)
  }
}
