/** The lexer: the three matching functions, the stateful `Lexer` whose
    `GetNextToken` walks the rule table once per call, and the batch
    `Tokenize`, which restarts from the first rule after every match. */
module Lexer {
  import opened Results
  import opened Text
  import opened Tokens

  /** `TokenMatchingError` names the index where no rule consumed input;
      `IndexOutOfRange` is the `IndexError` Python raises when a skip or
      single-character rule reads `text[index]` at the end of the text. */
  datatype LexError = TokenMatchingError(index: nat) | IndexOutOfRange(index: nat)

  /** What one matching function returns: the characters to consume and the
      token to emit, if any. */
  datatype Applied = Applied(consumed: nat, token: Option<Token>)

  /** The token types a rule may emit: never a blank, EOF, `;` or `var`. */
  predicate IsEmittable(k: TokenType)
  {
    k != SPACE && k != TAB && k != EOF && k != TERMINATOR && k != WORD_VAR
  }

  predicate IsBlank(c: char) { c == ' ' || c == '\t' }

  /** Applies one rule of the table at index `i` of `text`: reading the
      character at `i` fails at the end of the text, a pattern is matched
      against the rest of the text. */
  function ApplyRule(rule: Rule, text: string, i: nat): (r: Result<Applied, LexError>)
    requires i <= |text|
    ensures r.Err? <==> i == |text| && !rule.PatternRule?
    ensures r.Ok? ==> i + r.value.consumed <= |text|
  {
    match rule
    case Skip(_, c) =>
      if i == |text| then Err(IndexOutOfRange(i))
      else if text[i] == c then Ok(Applied(1, None))
      else Ok(Applied(0, None))
    case SingleChar(k, c) =>
      if i == |text| then Err(IndexOutOfRange(i))
      else if text[i] == c then Ok(Applied(1, Some(Token(k, [c]))))
      else Ok(Applied(0, None))
    case PatternRule(k, p) =>
      match PatternMatch(p, text[i..])
      case None => Ok(Applied(0, None))
      case Some(n) => Ok(Applied(n, Some(Token(k, text[i..i + n]))))
  }

  /** What each kind of rule does: a skip rule consumes one character exactly
      when it is the rule's character and emits nothing; a single-character
      rule consumes and emits that character exactly when it is there; a
      pattern rule consumes its match and emits exactly the matched prefix of
      the rest of the text. Reading past the end is an IndexError. */
  lemma ApplyRuleSemantics(rule: Rule, text: string, i: nat)
    requires i <= |text|
    ensures var r := ApplyRule(rule, text, i);
      && (r.Err? ==> r.error == IndexOutOfRange(i))
      && (r.Ok? && rule.Skip? ==>
            r.value == if text[i] == rule.c then Applied(1, None) else Applied(0, None))
      && (r.Ok? && rule.SingleChar? ==>
            r.value == if text[i] == rule.c then Applied(1, Some(Token(rule.kind, text[i..i + 1])))
                       else Applied(0, None))
      && (r.Ok? && rule.PatternRule? ==>
            match PatternMatch(rule.pattern, text[i..])
            case None => r.value == Applied(0, None)
            case Some(n) => r.value == Applied(n, Some(Token(rule.kind, text[i..i + n]))))
  {
    if rule.SingleChar? && i < |text| {
      assert [text[i]] == text[i..i + 1];
    }
  }

  // ----- get_next_token -----

  /** The outcome of one `get_next_token` call: the token or the error, and
      the lexer's index afterwards. */
  datatype Step = Step(result: Result<Token, LexError>, index: nat)

  /** The rule loop of `get_next_token`: a rule that consumes and emits ends
      the call; a rule that consumes without emitting (a skip) moves the index
      and the loop goes on with the NEXT rule, not the first. */
  function TryRules(rules: seq<Rule>, text: string, i: nat): (s: Step)
    requires i <= |text|
    ensures i <= s.index <= |text|
    decreases |rules|
  {
    if rules == [] then Step(Err(TokenMatchingError(i)), i)
    else match ApplyRule(rules[0], text, i)
      case Err(e) => Step(Err(e), i)
      case Ok(Applied(c, t)) =>
        if c > 0 then
          if t.Some? then Step(Ok(t.value), i + c) else TryRules(rules[1..], text, i + c)
        else TryRules(rules[1..], text, i)
  }

  /** `get_next_token` from index `i`. */
  function NextToken(text: string, i: nat): Step
    requires i <= |text|
  {
    if i == |text| then Step(Ok(Token(EOF, "\0")), i) else TryRules(TokenRules, text, i)
  }

  class Lexer {
    const text: string
    var index: nat

    ghost predicate Valid()
      reads this
    {
      index <= |text|
    }

    constructor (text: string)
      ensures Valid() && this.text == text && index == 0
    {
      this.text := text;
      index := 0;
    }

    method GetNextToken() returns (r: Result<Token, LexError>)
      requires Valid()
      modifies this`index
      ensures Valid()
      ensures Step(r, index) == NextToken(text, old(index))
    {
      if index == |text| {
        return Ok(Token(EOF, "\0"));
      }
      var rules := TokenRules;
      while rules != []
        invariant Valid()
        invariant TryRules(rules, text, index) == NextToken(text, old(index))
      {
        var applied := ApplyRule(rules[0], text, index);
        if applied.Err? {
          return Err(applied.error);
        }
        if applied.value.consumed > 0 {
          index := index + applied.value.consumed;
          if applied.value.token.Some? {
            return Ok(applied.value.token.value);
          }
        }
        rules := rules[1..];
      }
      return Err(TokenMatchingError(index));
    }
  }

  // ----- Properties of get_next_token -----

  /** Rules that skip only blanks and emit only emittable types. */
  predicate WellFormedRules(rules: seq<Rule>)
  {
    forall k :: 0 <= k < |rules| ==>
      (rules[k].Skip? ==> IsBlank(rules[k].c)) && (!rules[k].Skip? ==> IsEmittable(rules[k].kind))
  }

  predicate AllBlank(text: string, lo: nat, hi: nat)
    requires lo <= hi <= |text|
  {
    forall k :: lo <= k < hi ==> IsBlank(text[k])
  }

  /** The facts `NextTokenProgress` states, for any well-formed rule list. */
  ghost predicate Progressed(text: string, i: nat, s: Step)
    requires i <= s.index <= |text|
  {
    && (s.result.Ok? ==>
          var v := s.result.value.value;
          && IsEmittable(s.result.value.typename)
          && 0 < |v| && i + |v| <= s.index
          && AllBlank(text, i, s.index - |v|)
          && text[s.index - |v|..s.index] == v)
    && (s.result.Err? ==>
          && AllBlank(text, i, s.index)
          && (s.result.error == TokenMatchingError(s.index)
              || (s.result.error == IndexOutOfRange(s.index) && s.index == |text|)))
  }

  /** A blank in front of a progressed call keeps it progressed. */
  lemma ProgressedAfterBlank(text: string, i: nat, s: Step)
    requires i < |text| && IsBlank(text[i]) && i + 1 <= s.index <= |text|
    requires Progressed(text, i + 1, s)
    ensures Progressed(text, i, s)
  {
  }

  /** A call that stops at the first rule, at index `i`. */
  lemma ProgressedAtFirstRule(rule: Rule, text: string, i: nat, s: Step)
    requires i <= |text| && WellFormedRules([rule])
    requires ApplyRule(rule, text, i).Err? ==> s == Step(Err(ApplyRule(rule, text, i).error), i)
    requires ApplyRule(rule, text, i).Ok? ==>
      var a := ApplyRule(rule, text, i).value;
      a.consumed > 0 && a.token.Some? && s == Step(Ok(a.token.value), i + a.consumed)
    ensures i <= s.index <= |text| && Progressed(text, i, s)
  {
    assert rule == [rule][0];
    ApplyRuleSemantics(rule, text, i);
    if ApplyRule(rule, text, i).Ok? {
      var a := ApplyRule(rule, text, i).value;
      if rule.PatternRule? {
        var n := PatternMatch(rule.pattern, text[i..]).value;
        assert a.consumed == n;
      }
      assert text[s.index - |s.result.value.value|..s.index] == s.result.value.value;
    }
  }

  lemma {:induction false} TryRulesProgress(rules: seq<Rule>, text: string, i: nat)
    requires i <= |text| && WellFormedRules(rules)
    ensures Progressed(text, i, TryRules(rules, text, i))
    decreases |rules|
  {
    if rules != [] {
      assert WellFormedRules(rules[1..]) by {
        forall k | 0 <= k < |rules[1..]| ensures rules[1..][k] == rules[k + 1] { }
      }
      assert WellFormedRules([rules[0]]) by { assert [rules[0]][0] == rules[0]; }
      var s := TryRules(rules, text, i);
      var r := ApplyRule(rules[0], text, i);
      if r.Ok? && r.value.consumed == 0 {
        TryRulesProgress(rules[1..], text, i);
      } else if r.Ok? && r.value.token.None? {
        ApplyRuleSemantics(rules[0], text, i);
        TryRulesProgress(rules[1..], text, i + 1);
        ProgressedAfterBlank(text, i, s);
      } else {
        ProgressedAtFirstRule(rules[0], text, i, s);
      }
    }
  }

  /** A token-producing call moves the index past optional blanks and then
      exactly past the token's text: the value is the slice of the text that
      ends at the new index, never empty, never a blank, EOF, `;` or `var`.
      A failing call names the index it reached, after any blanks. */
  lemma NextTokenProgress(text: string, i: nat)
    requires i < |text|
    ensures Progressed(text, i, NextToken(text, i))
  {
    TryRulesProgress(TokenRules, text, i);
  }

  /** At the end of the text every call returns EOF, value `'\0'`, and leaves
      the index where it is. */
  lemma EofForever(text: string)
    ensures NextToken(text, |text|) == Step(Ok(Token(EOF, "\0")), |text|)
  {
  }

  /** The tokens a consumer pulls from `get_next_token`, one call after
      another from index `i`: up to the end of the text, where EOF follows,
      or up to the first error, which the call raises. */
  function Pulled(text: string, i: nat): seq<Token>
    requires i <= |text|
    decreases |text| - i
  {
    if i == |text| then []
    else
      var s := NextToken(text, i);
      NextTokenProgress(text, i);
      if s.result.Err? then [] else [s.result.value] + Pulled(text, s.index)
  }

  /** No pulled token is a `;` or a `var`, so a parser fed by
      `get_next_token` never sees one. */
  lemma {:induction false} PulledNeverTerminator(text: string, i: nat)
    requires i <= |text|
    ensures forall k :: 0 <= k < |Pulled(text, i)| ==>
      Pulled(text, i)[k].typename != TERMINATOR && Pulled(text, i)[k].typename != WORD_VAR
    decreases |text| - i
  {
    if i < |text| {
      var s := NextToken(text, i);
      NextTokenProgress(text, i);
      if s.result.Ok? {
        PulledNeverTerminator(text, s.index);
      }
    }
  }

  /** Rules that all consume nothing at index `j`. */
  predicate ConsumeNothing(rules: seq<Rule>, text: string, j: nat)
    requires j <= |text|
  {
    forall k :: 0 <= k < |rules| ==>
      ApplyRule(rules[k], text, j).Ok? && ApplyRule(rules[k], text, j).value.consumed == 0
  }

  /** Rules that consume nothing are passed over by `get_next_token`. */
  lemma {:induction false} TryRulesPassIdle(a: seq<Rule>, b: seq<Rule>, text: string, j: nat)
    requires j <= |text| && ConsumeNothing(a, text, j)
    ensures TryRules(a + b, text, j) == TryRules(b, text, j)
    decreases |a|
  {
    if a == [] {
      assert a + b == b;
    } else {
      assert (a + b)[0] == a[0];
      assert (a + b)[1..] == a[1..] + b;
      var r := ApplyRule(a[0], text, j);
      assert r.Ok? && r.value.consumed == 0;
      assert TryRules(a + b, text, j) == TryRules(a[1..] + b, text, j);
      assert ConsumeNothing(a[1..], text, j) by {
        forall k | 0 <= k < |a[1..]| ensures a[1..][k] == a[k + 1] { }
      }
      TryRulesPassIdle(a[1..], b, text, j);
    }
  }

  /** A character none of the single-character rules is for. */
  predicate NotOperator(c: char) { c !in "()+-*/=" }

  /** A character no pattern rule can start a non-empty match with. */
  predicate NoPatternStart(c: char) { !IsAlnum(c) && c != '_' && c != '"' }

  lemma SkipRulesIdle(text: string, j: nat)
    requires j < |text| && !IsBlank(text[j])
    ensures ConsumeNothing(SkipRules, text, j)
  {
    ApplyRuleSemantics(SkipRules[0], text, j);
    ApplyRuleSemantics(SkipRules[1], text, j);
  }

  lemma SingleCharRulesIdle(text: string, j: nat)
    requires j < |text| && NotOperator(text[j])
    ensures ConsumeNothing(SingleCharRules, text, j)
  {
    forall k | 0 <= k < |SingleCharRules|
      ensures ApplyRule(SingleCharRules[k], text, j) == Ok(Applied(0, None))
    {
      ApplyRuleSemantics(SingleCharRules[k], text, j);
    }
  }

  lemma PatternRulesIdle(text: string, j: nat)
    requires j < |text| && NoPatternStart(text[j])
    ensures ConsumeNothing(PatternRules, text, j)
  {
    var s := text[j..];
    assert s[0] == text[j];
    NumberMatchLongest(s);
    IdentifierMatchLongest(s);
    ApplyRuleSemantics(PatternRules[0], text, j);
    ApplyRuleSemantics(PatternRules[1], text, j);
    ApplyRuleSemantics(PatternRules[2], text, j);
  }

  /** Once every remaining rule is passed over, the call fails where it stands. */
  lemma RemainingRulesFail(rules: seq<Rule>, text: string, j: nat)
    requires j <= |text| && ConsumeNothing(rules, text, j)
    ensures TryRules(rules, text, j) == Step(Err(TokenMatchingError(j)), j)
  {
    assert rules + [] == rules;
    TryRulesPassIdle(rules, [], text, j);
  }

  lemma ConsumeNothingAppend(a: seq<Rule>, b: seq<Rule>, text: string, j: nat)
    requires j <= |text| && ConsumeNothing(a, text, j) && ConsumeNothing(b, text, j)
    ensures ConsumeNothing(a + b, text, j)
  {
    forall k | 0 <= k < |a + b| ensures (a + b)[k] == if k < |a| then a[k] else b[k - |a|] { }
  }

  /** A character that no rule starts with (`;` among them) fails the call
      with a TokenMatchingError at its own index. */
  lemma UncoveredCharFails(text: string, i: nat)
    requires i < |text| && !IsBlank(text[i]) && NotOperator(text[i]) && NoPatternStart(text[i])
    ensures NextToken(text, i) == Step(Err(TokenMatchingError(i)), i)
  {
    SkipRulesIdle(text, i);
    SingleCharRulesIdle(text, i);
    PatternRulesIdle(text, i);
    ConsumeNothingAppend(SkipRules, SingleCharRules, text, i);
    ConsumeNothingAppend(SkipRules + SingleCharRules, PatternRules, text, i);
    RemainingRulesFail(TokenRules, text, i);
  }

  /** `;` cannot be lexed: there is no TERMINATOR rule. */
  lemma SemicolonFails(text: string, i: nat)
    requires i < |text| && text[i] == ';'
    ensures NextToken(text, i) == Step(Err(TokenMatchingError(i)), i)
  {
    UncoveredCharFails(text, i);
  }

  /** After a skip the call does not restart the table: a blank followed by a
      space fails at the space, since the space rule has already been passed. */
  lemma BlankThenSpaceFails(text: string, i: nat)
    requires i + 1 < |text| && IsBlank(text[i]) && text[i + 1] == ' '
    ensures NextToken(text, i) == Step(Err(TokenMatchingError(i + 1)), i + 1)
  {
    var rest := SingleCharRules + PatternRules;
    assert TokenRules == [SkipRules[0]] + ([SkipRules[1]] + rest);
    SingleCharRulesIdle(text, i + 1);
    PatternRulesIdle(text, i + 1);
    ConsumeNothingAppend(SingleCharRules, PatternRules, text, i + 1);
    ApplyRuleSemantics(SkipRules[0], text, i);
    ApplyRuleSemantics(SkipRules[1], text, i);
    ApplyRuleSemantics(SkipRules[1], text, i + 1);
    assert ConsumeNothing([SkipRules[1]], text, i + 1);
    ConsumeNothingAppend([SkipRules[1]], rest, text, i + 1);
    RemainingRulesFail(rest, text, i + 1);
    RemainingRulesFail([SkipRules[1]] + rest, text, i + 1);
    if text[i] == ' ' {
      assert TryRules(TokenRules, text, i) == TryRules([SkipRules[1]] + rest, text, i + 1);
    } else {
      assert TryRules(TokenRules, text, i) == TryRules([SkipRules[1]] + rest, text, i);
      assert TryRules([SkipRules[1]] + rest, text, i) == TryRules(rest, text, i + 1);
    }
  }

  /** The tab rule is the last skip rule, so after it consumes a tab no rule
      is left for a second tab: two tabs in a row fail at the second. */
  lemma TwoTabsFail(text: string, i: nat)
    requires i + 1 < |text| && text[i] == '\t' && text[i + 1] == '\t'
    ensures NextToken(text, i) == Step(Err(TokenMatchingError(i + 1)), i + 1)
  {
    var rest := SingleCharRules + PatternRules;
    assert TokenRules == [SkipRules[0]] + ([SkipRules[1]] + rest);
    SingleCharRulesIdle(text, i + 1);
    PatternRulesIdle(text, i + 1);
    ConsumeNothingAppend(SingleCharRules, PatternRules, text, i + 1);
    RemainingRulesFail(rest, text, i + 1);
    ApplyRuleSemantics(SkipRules[0], text, i);
    ApplyRuleSemantics(SkipRules[1], text, i);
    assert TryRules(TokenRules, text, i) == TryRules([SkipRules[1]] + rest, text, i);
    assert TryRules([SkipRules[1]] + rest, text, i) == TryRules(rest, text, i + 1);
  }

  /** A blank at the very end makes the next rule read past the end. */
  lemma TrailingBlankOverruns(text: string)
    requires |text| > 0 && IsBlank(text[|text| - 1])
    ensures NextToken(text, |text| - 1) == Step(Err(IndexOutOfRange(|text|)), |text|)
  {
    var i := |text| - 1;
    var rest := SingleCharRules + PatternRules;
    assert TokenRules == [SkipRules[0]] + ([SkipRules[1]] + rest);
    assert rest[0] == SingleCharRules[0];
    ApplyRuleSemantics(SkipRules[0], text, i);
    ApplyRuleSemantics(SkipRules[1], text, i);
    if text[i] == ' ' {
      assert TryRules(TokenRules, text, i) == TryRules([SkipRules[1]] + rest, text, i + 1);
    } else {
      assert TryRules(TokenRules, text, i) == TryRules([SkipRules[1]] + rest, text, i);
      assert TryRules([SkipRules[1]] + rest, text, i) == TryRules(rest, text, i + 1);
    }
  }

  /** Input beginning with a digit lexes as NUMBER, since NUMBER is tried
      before IDENTIFIER. */
  lemma DigitStartsNumber(text: string, i: nat)
    requires i < |text| && IsDigit(text[i])
    ensures NumberMatch(text[i..]).Some?
    ensures var n := NumberMatch(text[i..]).value;
      0 < n && NextToken(text, i) == Step(Ok(Token(NUMBER, text[i..i + n])), i + n)
  {
    assert text[i..][0] == text[i];
    NumberMatchLongest(text[i..]);
    SkipRulesIdle(text, i);
    SingleCharRulesIdle(text, i);
    ConsumeNothingAppend(SkipRules, SingleCharRules, text, i);
    TryRulesPassIdle(SkipRules + SingleCharRules, PatternRules, text, i);
    ApplyRuleSemantics(PatternRules[0], text, i);
  }

  /** Input beginning with a letter or an underscore lexes as IDENTIFIER. */
  lemma WordStartsIdentifier(text: string, i: nat)
    requires i < |text| && (IsAlnum(text[i]) || text[i] == '_') && !IsDigit(text[i])
    ensures var n := IdentifierMatch(text[i..]).value;
      0 < n && NextToken(text, i) == Step(Ok(Token(IDENTIFIER, text[i..i + n])), i + n)
  {
    assert text[i..][0] == text[i];
    NumberMatchLongest(text[i..]);
    IdentifierMatchLongest(text[i..]);
    SkipRulesIdle(text, i);
    SingleCharRulesIdle(text, i);
    ConsumeNothingAppend(SkipRules, SingleCharRules, text, i);
    ApplyRuleSemantics(PatternRules[0], text, i);
    ApplyRuleSemantics(PatternRules[1], text, i);
    assert ConsumeNothing([PatternRules[0]], text, i);
    ConsumeNothingAppend(SkipRules + SingleCharRules, [PatternRules[0]], text, i);
    assert TokenRules == (SkipRules + SingleCharRules + [PatternRules[0]]) + PatternRules[1..];
    TryRulesPassIdle(SkipRules + SingleCharRules + [PatternRules[0]], PatternRules[1..], text, i);
  }

  /** `var` lexes as an IDENTIFIER: there is no WORD_VAR rule. */
  lemma VarIsIdentifier()
    ensures NextToken("var", 0) == Step(Ok(Token(IDENTIFIER, "var")), 3)
  {
    var s := "var";
    WordStartsIdentifier(s, 0);
    assert s[0..] == s && s[..3] == s;
    IdentifierMatchLongest(s);
    assert IsIdentifierLiteral(s);
  }

  /** `12ab` gives NUMBER `12`, then IDENTIFIER `ab`, then EOF. */
  lemma NumberBeforeIdentifier()
    ensures NextToken("12ab", 0) == Step(Ok(Token(NUMBER, "12")), 2)
    ensures NextToken("12ab", 2) == Step(Ok(Token(IDENTIFIER, "ab")), 4)
    ensures NextToken("12ab", 4) == Step(Ok(Token(EOF, "\0")), 4)
  {
    var s := "12ab";
    DigitStartsNumber(s, 0);
    assert s[0..] == s;
    NumberMatchLongest(s);
    assert IsNumberLiteral(s[..2]);
    var n := NumberMatch(s).value;
    assert n <= 2;
    assert s[0..2] == "12";
    var t := s[2..];
    assert t == "ab" && t[..2] == t;
    WordStartsIdentifier(s, 2);
    IdentifierMatchLongest(t);
    assert IsIdentifierLiteral(t);
    assert s[2..4] == "ab";
  }

  // ----- tokenize -----

  /** The rule loop of `tokenize`: the first rule, tried from the top at
      index `i`, that consumes something. */
  function FirstMatch(rules: seq<Rule>, text: string, i: nat): (r: Result<Option<Applied>, LexError>)
    requires i <= |text|
    ensures r.Err? ==> i == |text|
    ensures r.Ok? && r.value.Some? ==> 0 < r.value.value.consumed && i + r.value.value.consumed <= |text|
    decreases |rules|
  {
    if rules == [] then Ok(None)
    else match ApplyRule(rules[0], text, i)
      case Err(e) => Err(e)
      case Ok(a) => if a.consumed > 0 then Ok(Some(a)) else FirstMatch(rules[1..], text, i)
  }

  lemma {:induction false} FirstMatchEmits(rules: seq<Rule>, text: string, i: nat)
    requires i <= |text| && WellFormedRules(rules)
    ensures var r := FirstMatch(rules, text, i);
      r.Ok? && r.value.Some? && r.value.value.token.Some? ==>
        IsEmittable(r.value.value.token.value.typename) && r.value.value.token.value.value != []
    decreases |rules|
  {
    if rules != [] {
      assert WellFormedRules(rules[1..]) by {
        forall k | 0 <= k < |rules[1..]| ensures rules[1..][k] == rules[k + 1] { }
      }
      ApplyRuleSemantics(rules[0], text, i);
      FirstMatchEmits(rules[1..], text, i);
    }
  }

  /** The `get_next_token` outcome a `tokenize` step stands for. */
  function AsStep(m: Result<Option<Applied>, LexError>, i: nat): Step
  {
    match m
    case Err(e) => Step(Err(e), i)
    case Ok(None) => Step(Err(TokenMatchingError(i)), i)
    case Ok(Some(a)) =>
      match a.token
      case Some(t) => Step(Ok(t), i + a.consumed)
      case None => Step(Err(TokenMatchingError(i)), i + a.consumed)
  }

  lemma {:induction false} FirstMatchAgrees(rules: seq<Rule>, text: string, i: nat)
    requires i < |text|
    requires forall k :: 0 <= k < |rules| && rules[k].Skip? ==> rules[k].c != text[i]
    ensures TryRules(rules, text, i) == AsStep(FirstMatch(rules, text, i), i)
    decreases |rules|
  {
    if rules != [] {
      ApplyRuleSemantics(rules[0], text, i);
      assert forall k :: 0 <= k < |rules[1..]| ==> rules[1..][k] == rules[k + 1];
      FirstMatchAgrees(rules[1..], text, i);
    }
  }

  /** Away from blanks the two lexers agree: where the character at `i` is not
      a blank, one `get_next_token` call and one step of `tokenize` consume
      the same text and produce the same token or the same failure. */
  lemma NextTokenAgreesWithTokenizeStep(text: string, i: nat)
    requires i < |text| && !IsBlank(text[i])
    ensures NextToken(text, i) == AsStep(FirstMatch(TokenRules, text, i), i)
  {
    FirstMatchAgrees(TokenRules, text, i);
  }

  /** What `tokenize` returns, or the error it lets escape. */
  datatype Tokenized = Raised(error: LexError) | Tokenized(tokens: seq<Token>, messages: seq<string>)

  /** The three diagnostic lines for a failure at index `n`. */
  function ErrorMessages(text: string, n: nat): seq<string>
  {
    ["No matching token @ index:" + NatToString(n), "\t" + text, "\t" + Spaces(n) + "^"]
  }

  predicate AllEmitted(tokens: seq<Token>)
  {
    forall k :: 0 <= k < |tokens| ==> IsEmittable(tokens[k].typename) && tokens[k].value != []
  }

  /** The `while` loop of `tokenize`, from index `i` with tokens `acc`
      collected so far. The loop test comes after the body, so the body runs
      once even on empty text. */
  function TokenizeLoop(text: string, i: nat, acc: seq<Token>): (r: Tokenized)
    requires i <= |text| && AllEmitted(acc)
    ensures r.Raised? ==> i == |text|
    ensures r.Tokenized? ==> acc <= r.tokens && AllEmitted(r.tokens)
    decreases |text| - i
  {
    FirstMatchEmits(TokenRules, text, i);
    match FirstMatch(TokenRules, text, i)
    case Err(e) => Raised(e)
    case Ok(None) =>
      assert TokenRules[0] == SkipRules[0];
      Tokenized(acc, ErrorMessages(text, i))
    case Ok(Some(a)) =>
      var acc' := if a.token.Some? then acc + [a.token.value] else acc;
      if i + a.consumed == |text| then Tokenized(acc', [])
      else TokenizeLoop(text, i + a.consumed, acc')
  }

  /** One pass of the loop body, in terms of the first consuming rule. */
  lemma TokenizeLoopStep(text: string, i: nat, acc: seq<Token>)
    requires i <= |text| && AllEmitted(acc)
    ensures var m := FirstMatch(TokenRules, text, i);
      && (m.Err? ==> TokenizeLoop(text, i, acc) == Raised(m.error))
      && (m.Ok? && m.value.None? ==>
            i < |text| && TokenizeLoop(text, i, acc) == Tokenized(acc, ErrorMessages(text, i)))
      && (m.Ok? && m.value.Some? ==>
            var a := m.value.value;
            var acc' := if a.token.Some? then acc + [a.token.value] else acc;
            && AllEmitted(acc')
            && TokenizeLoop(text, i, acc) ==
                 if i + a.consumed == |text| then Tokenized(acc', [])
                 else TokenizeLoop(text, i + a.consumed, acc'))
  {
    FirstMatchEmits(TokenRules, text, i);
    var m := FirstMatch(TokenRules, text, i);
    if m.Ok? && m.value.None? {
      assert TokenRules[0] == SkipRules[0];
    }
  }

  /** A pass of the loop body that matched `a`. */
  lemma TokenizeLoopMatched(text: string, i: nat, acc: seq<Token>, a: Applied)
    requires i <= |text| && AllEmitted(acc)
    requires FirstMatch(TokenRules, text, i) == Ok(Some(a))
    ensures var acc' := if a.token.Some? then acc + [a.token.value] else acc;
      && i + a.consumed <= |text| && AllEmitted(acc')
      && (i + a.consumed == |text| ==> TokenizeLoop(text, i, acc) == Tokenized(acc', []))
      && (i + a.consumed < |text| ==> TokenizeLoop(text, i, acc) == TokenizeLoop(text, i + a.consumed, acc'))
  {
    TokenizeLoopStep(text, i, acc);
  }

  /** A pass of the loop body whose rules raised: the error escapes. */
  lemma TokenizeLoopRaises(text: string, i: nat, acc: seq<Token>)
    requires i <= |text| && AllEmitted(acc) && FirstMatch(TokenRules, text, i).Err?
    ensures TokenizeLoop(text, i, acc) == Raised(FirstMatch(TokenRules, text, i).error)
  {
    TokenizeLoopStep(text, i, acc);
  }

  /** A pass of the loop body that matched nothing. */
  lemma TokenizeLoopUnmatched(text: string, i: nat, acc: seq<Token>)
    requires i <= |text| && AllEmitted(acc)
    requires FirstMatch(TokenRules, text, i) == Ok(None)
    ensures i < |text| && TokenizeLoop(text, i, acc) == Tokenized(acc, ErrorMessages(text, i))
  {
    TokenizeLoopStep(text, i, acc);
  }

  /** At the end of the text the space rule reads past it. */
  lemma FirstMatchAtEnd(text: string)
    ensures FirstMatch(TokenRules, text, |text|) == Err(IndexOutOfRange(|text|))
  {
    assert TokenRules[0] == SkipRules[0];
  }

  /** What one match of `tokenize` consumes: a skip consumes one blank and
      emits nothing; a token is exactly the text it consumes. */
  lemma {:induction false} FirstMatchSlices(rules: seq<Rule>, text: string, i: nat)
    requires i < |text| && WellFormedRules(rules)
    ensures var r := FirstMatch(rules, text, i);
      r.Ok? && r.value.Some? ==>
        var a := r.value.value;
        && (a.token.None? ==> a.consumed == 1 && IsBlank(text[i]))
        && (a.token.Some? ==> a.token.value.value == text[i..i + a.consumed])
    decreases |rules|
  {
    if rules != [] {
      assert WellFormedRules(rules[1..]) by {
        forall k | 0 <= k < |rules[1..]| ensures rules[1..][k] == rules[k + 1] { }
      }
      ApplyRuleSemantics(rules[0], text, i);
      FirstMatchSlices(rules[1..], text, i);
    }
  }

  /** The skip rules come first, so `tokenize` consumes a blank on its own. */
  lemma BlankIsSkipped(text: string, i: nat)
    requires i < |text| && IsBlank(text[i])
    ensures FirstMatch(TokenRules, text, i) == Ok(Some(Applied(1, None)))
  {
    assert TokenRules[0] == SkipRules[0] && TokenRules[1] == SkipRules[1];
    assert TokenRules[1..][0] == SkipRules[1];
  }

  /** One match of `tokenize` at `i`, ending at `j`: a single blank, or a
      token whose value is `text[i..j]` and does not start with a blank. */
  lemma FirstMatchPiece(text: string, i: nat)
    requires i < |text|
    ensures var r := FirstMatch(TokenRules, text, i);
      r.Ok? && r.value.Some? ==>
        var a := r.value.value;
        && (a.token.None? ==> a.consumed == 1 && IsBlank(text[i]))
        && (a.token.Some? ==> !IsBlank(text[i]) && a.token.value.value == text[i..i + a.consumed])
  {
    FirstMatchSlices(TokenRules, text, i);
    if IsBlank(text[i]) {
      BlankIsSkipped(text, i);
    }
  }

  /** From `j` to `n` the text is made, in order, of single blanks and the
      values of `tokens`, and each token is the first match of the table at
      its own place: its type and its extent, not only its text. */
  predicate Lexes(text: string, j: nat, n: nat, tokens: seq<Token>)
    requires j <= n <= |text|
    decreases n - j
  {
    if j == n then tokens == []
    else if IsBlank(text[j]) then Lexes(text, j + 1, n, tokens)
    else
      && tokens != []
      && 0 < |tokens[0].value| <= n - j
      && text[j..j + |tokens[0].value|] == tokens[0].value
      && FirstMatch(TokenRules, text, j) == Ok(Some(Applied(|tokens[0].value|, Some(tokens[0]))))
      && Lexes(text, j + |tokens[0].value|, n, tokens[1..])
  }

  /** The blank or the token matched at `i` in front of a lexed text. */
  lemma LexesPrepend(text: string, i: nat, n: nat, a: Applied, rest: seq<Token>)
    requires i < i + a.consumed <= n <= |text|
    requires FirstMatch(TokenRules, text, i) == Ok(Some(a))
    requires a.token.None? ==> a.consumed == 1 && IsBlank(text[i])
    requires a.token.Some? ==> !IsBlank(text[i]) && a.token.value.value == text[i..i + a.consumed]
    requires Lexes(text, i + a.consumed, n, rest)
    ensures Lexes(text, i, n, (if a.token.Some? then [a.token.value] else []) + rest)
  {
    if a.token.None? {
      assert [] + rest == rest;
    } else {
      var tokens := [a.token.value] + rest;
      assert tokens[0] == a.token.value && tokens[1..] == rest;
    }
  }

  /** A run of the loop from `i` that stopped at `n` lexed `text[i..n]`
      into `tokens`. */
  predicate Consumed(text: string, i: nat, n: nat, tokens: seq<Token>)
  {
    i <= n <= |text| && Lexes(text, i, n, tokens)
  }

  /** What a run that stopped at `n` reports: nothing when `n` is the end of
      the text, otherwise no rule matches at `n` and the three lines name
      that index. */
  predicate Reports(text: string, n: nat, messages: seq<string>)
    requires n <= |text|
  {
    && (messages == [] <==> n == |text|)
    && (messages != [] ==> FirstMatch(TokenRules, text, n) == Ok(None) && messages == ErrorMessages(text, n))
  }

  /** The text a run consumed after one match `a` at `i`, with the matched
      blank or token in front. */
  lemma ConsumedAfterMatch(text: string, i: nat, a: Applied, acc: seq<Token>, tokens: seq<Token>, n: nat)
    requires i < i + a.consumed <= |text| && FirstMatch(TokenRules, text, i) == Ok(Some(a))
    requires a.token.None? ==> a.consumed == 1 && IsBlank(text[i])
    requires a.token.Some? ==> !IsBlank(text[i]) && a.token.value.value == text[i..i + a.consumed]
    requires var acc' := if a.token.Some? then acc + [a.token.value] else acc;
      acc' <= tokens && Consumed(text, i + a.consumed, n, tokens[|acc'|..])
    ensures |acc| <= |tokens| && Consumed(text, i, n, tokens[|acc|..])
  {
    var piece := if a.token.Some? then [a.token.value] else [];
    var acc' := acc + piece;
    assert acc' == if a.token.Some? then acc + [a.token.value] else acc;
    assert tokens[|acc|..] == piece + tokens[|acc'|..];
    LexesPrepend(text, i, n, a, tokens[|acc'|..]);
  }

  /** A run that found no rule matching at `i` stopped there. */
  lemma StoppedHere(text: string, i: nat, acc: seq<Token>)
    requires i < |text| && FirstMatch(TokenRules, text, i) == Ok(None)
    ensures Consumed(text, i, i, acc[|acc|..]) && Reports(text, i, ErrorMessages(text, i))
  {
    assert acc[|acc|..] == [];
  }

  /** A run that reached the end of the text stopped there. */
  lemma StoppedAtEnd(text: string, acc: seq<Token>)
    ensures Consumed(text, |text|, |text|, acc[|acc|..]) && Reports(text, |text|, [])
  {
    assert acc[|acc|..] == [];
  }

  /** The loop from `i` with tokens `acc` returns `acc` followed by the
      tokens of `text[i..n]`, where `n` is the index it stopped at, and
      reports according to `n`. */
  lemma {:induction false} TokenizeLoopStops(text: string, i: nat, acc: seq<Token>) returns (n: nat)
    requires i <= |text| && AllEmitted(acc)
    ensures var r := TokenizeLoop(text, i, acc);
      r.Tokenized? ==> Consumed(text, i, n, r.tokens[|acc|..]) && Reports(text, n, r.messages)
    decreases |text| - i, 1
  {
    var m := FirstMatch(TokenRules, text, i);
    n := i;
    if m.Err? {
      TokenizeLoopRaises(text, i, acc);
    } else if m.value.None? {
      TokenizeLoopUnmatched(text, i, acc);
      StoppedHere(text, i, acc);
    } else {
      n := TokenizeLoopStopsAfter(text, i, acc, m.value.value);
    }
  }

  /** The same, for a pass of the loop that matched `a` at `i`. */
  lemma {:induction false} TokenizeLoopStopsAfter(text: string, i: nat, acc: seq<Token>, a: Applied) returns (n: nat)
    requires i <= |text| && AllEmitted(acc) && FirstMatch(TokenRules, text, i) == Ok(Some(a))
    ensures var r := TokenizeLoop(text, i, acc);
      r.Tokenized? ==> Consumed(text, i, n, r.tokens[|acc|..]) && Reports(text, n, r.messages)
    decreases |text| - i, 0
  {
    TokenizeLoopMatched(text, i, acc, a);
    FirstMatchPiece(text, i);
    var acc' := if a.token.Some? then acc + [a.token.value] else acc;
    if i + a.consumed == |text| {
      n := |text|;
      StoppedAtEnd(text, acc');
    } else {
      n := TokenizeLoopStops(text, i + a.consumed, acc');
    }
    var r := TokenizeLoop(text, i, acc);
    ConsumedAfterMatch(text, i, a, acc, r.tokens, n);
  }

  /** `Lexer.tokenize(text)`. */
  function Tokenize(text: string): Tokenized
  {
    TokenizeLoop(text, 0, [])
  }

  /** `tokenize` lets an error escape exactly on empty text: the loop body
      runs once before the end test and the space rule reads `text[0]`. On
      any other text it returns emittable tokens and stops at some index `n`:
      the tokens, with single blanks between them, make up `text[..n]`
      exactly, each one the first match of the table at its place; with no
      message `n` is the end of the text, otherwise no rule
      matches at `n` and the three lines report that index. */
  lemma TokenizeOutcome(text: string)
    ensures Tokenize(text).Raised? <==> text == []
    ensures Tokenize(text).Raised? ==> Tokenize(text).error == IndexOutOfRange(0)
    ensures Tokenize(text).Tokenized? ==>
      && AllEmitted(Tokenize(text).tokens)
      && exists n :: Consumed(text, 0, n, Tokenize(text).tokens) && Reports(text, n, Tokenize(text).messages)
  {
    var n := TokenizeLoopStops(text, 0, []);
    assert Tokenize(text).Tokenized? ==> Tokenize(text).tokens[0..] == Tokenize(text).tokens;
    if text == [] {
      assert TokenRules[0] == SkipRules[0];
    }
  }

  /** Where `get_next_token` yields a token from a non-blank, one step of
      `tokenize` yields the same token and consumes the same text. */
  lemma TokenizeStepOfToken(text: string, i: nat, t: Token, j: nat)
    requires i < |text| && !IsBlank(text[i])
    requires NextToken(text, i) == Step(Ok(t), j)
    ensures FirstMatch(TokenRules, text, i) == Ok(Some(Applied(j - i, Some(t))))
  {
    NextTokenAgreesWithTokenizeStep(text, i);
  }

  /** The identifier `x` at the end of `  x`. */
  lemma IdentifierAtEnd()
    ensures FirstMatch(TokenRules, "  x", 2) == Ok(Some(Applied(1, Some(Token(IDENTIFIER, "x")))))
  {
    var text := "  x";
    WordStartsIdentifier(text, 2);
    var n := IdentifierMatch(text[2..]).value;
    IdentifierMatchLongest(text[2..]);
    assert n == 1;
    assert text[2..3] == "x";
    TokenizeStepOfToken(text, 2, Token(IDENTIFIER, "x"), 3);
  }

  /** A space at `i` is consumed by the first rule of the table. */
  lemma SpaceMatchesFirst(text: string, i: nat)
    requires i < |text| && text[i] == ' '
    ensures FirstMatch(TokenRules, text, i) == Ok(Some(Applied(1, None)))
  {
    assert TokenRules[0] == SkipRules[0];
    ApplyRuleSemantics(TokenRules[0], text, i);
  }

  /** `tokenize` restarts the table after a skip, so it accepts the two
      leading blanks on which `get_next_token` fails at index 1. */
  lemma TokenizeRestartsAfterSkip()
    ensures Tokenize("  x") == Tokenized([Token(IDENTIFIER, "x")], [])
    ensures NextToken("  x", 0) == Step(Err(TokenMatchingError(1)), 1)
  {
    var text := "  x";
    BlankThenSpaceFails(text, 0);
    SpaceMatchesFirst(text, 0);
    SpaceMatchesFirst(text, 1);
    IdentifierAtEnd();
    TokenizeLoopStep(text, 0, []);
    TokenizeLoopStep(text, 1, []);
    TokenizeLoopStep(text, 2, []);
  }

  /** One step of the batch loop: the `for` loop over the rules, which stops
      at the first rule that consumes. */
  method MatchAt(input: string, index: nat) returns (r: Result<Option<Applied>, LexError>)
    requires index <= |input|
    ensures r == FirstMatch(TokenRules, input, index)
  {
    var rules := TokenRules;
    while rules != []
      invariant FirstMatch(rules, input, index) == FirstMatch(TokenRules, input, index)
    {
      var applied := ApplyRule(rules[0], input, index);
      if applied.Err? {
        return Err(applied.error);
      }
      if applied.value.consumed > 0 {
        return Ok(Some(applied.value));
      }
      rules := rules[1..];
    }
    return Ok(None);
  }

  /** The batch tokenizer: a `while` loop over the `end` and `error` flags
      that appends every emitted token and, on a failure, the three
      diagnostic lines. */
  method TokenizeText(input: string) returns (r: Tokenized)
    ensures r == Tokenize(input)
  {
    ghost var outcome := Tokenize(input);
    var tokenList: seq<Token> := [];
    var index: nat := 0;
    var end := false;
    var error := false;
    while !(end || error)
      invariant index <= |input| && AllEmitted(tokenList)
      invariant !end && !error ==> TokenizeLoop(input, index, tokenList) == outcome
      invariant end ==> !error && outcome == Tokenized(tokenList, [])
      invariant error ==> index < |input| && outcome == Tokenized(tokenList, ErrorMessages(input, index))
      decreases |input| - index + (if end || error then 0 else 1)
    {
      var m := MatchAt(input, index);
      if m.Err? {
        TokenizeLoopRaises(input, index, tokenList);
        return Raised(m.error);
      }
      var matched := m.value.Some?;
      if matched {
        var applied := m.value.value;
        TokenizeLoopMatched(input, index, tokenList, applied);
        index := index + applied.consumed;
        if applied.token.Some? {
          tokenList := tokenList + [applied.token.value];
        }
      } else {
        TokenizeLoopUnmatched(input, index, tokenList);
      }
      error := !matched;
      end := index == |input|;
    }
    if error {
      r := Tokenized(tokenList, ErrorMessages(input, index));
    } else {
      r := Tokenized(tokenList, []);
    }
  }
}
