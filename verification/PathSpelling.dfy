/** Exactly which texts `_tokenize_path` accepts, and as which tokens. */
module PathSpelling {
  import opened Options
  import opened ContractPaths

  predicate IsProperName(x: string) {
    && x != "" && IsLetter(x[0])
    && forall k :: 0 <= k < |x| ==> IsLetter(x[k]) || IsDigit(x[k])
  }

  /** A name has a dot in front, which the first one may lack; an index may have leading zeros. */
  predicate Spells(text: string, token: Token, atStart: bool) {
    match token
    case Name(x) => IsProperName(x) && (text == "." + x || (atStart && text == x))
    case Wildcard => text == "[*]"
    case Index(n) =>
      && |text| > 2 && text[0] == '[' && text[|text| - 1] == ']'
      && (forall k :: 0 < k < |text| - 1 ==> IsDigit(text[k]))
      && Value(text[1..|text| - 1]) == n
  }

  ghost predicate Spelled(s: string, tokens: seq<Token>, atStart: bool)
    decreases |tokens|
  {
    if tokens == [] then s == ""
    else exists k :: 0 < k <= |s| && Spells(s[..k], tokens[0], atStart) && Spelled(s[k..], tokens[1..], false)
  }

  lemma {:induction false} NameRunIs(s: string)
    ensures forall k :: 0 <= k < NameRun(s) ==> IsLetter(s[k]) || IsDigit(s[k])
    ensures NameRun(s) < |s| ==> !(IsLetter(s[NameRun(s)]) || IsDigit(s[NameRun(s)]))
  {
    if NameRun(s) > 0 {
      NameRunIs(s[1..]);
    }
  }

  lemma {:induction false} DigitRunIs(s: string)
    ensures forall k :: 0 <= k < DigitRun(s) ==> IsDigit(s[k])
  {
    if DigitRun(s) > 0 {
      DigitRunIs(s[1..]);
    }
  }

  lemma ProperNameIsRun(x: string)
    requires IsProperName(x)
    ensures NameRun(x) == |x|
  {
    NameRunIs(x);
  }

  lemma MatchSpells(s: string, atStart: bool)
    ensures Match(s, atStart).Some? ==>
      var (token, n) := Match(s, atStart).value; Spells(s[..n], token, atStart)
  {
    if s != "" && s[0] == '[' {
      DigitRunIs(s[1..]);
      var d := DigitRun(s[1..]);
      if d + 2 <= |s| {
        assert s[..d + 2][1..d + 1] == s[1..d + 1];
      }
    } else if s != "" {
      var from := if s[0] == '.' then 1 else 0;
      NameRunIs(s[from..]);
      var n := NameRun(s[from..]);
      assert s[..from + n] == s[..from] + s[from..from + n];
    }
    hide Value, NameRun, DigitRun;
  }

  predicate Separates(rest: string) {
    rest == "" || rest[0] == '.' || rest[0] == '['
  }

  lemma NameMatches(x: string, dot: string, rest: string, atStart: bool)
    requires IsProperName(x) && Separates(rest) && (dot == "." || (dot == "" && atStart))
    ensures Match(dot + x + rest, atStart) == Some((Name(x), |dot| + |x|))
  {
    ProperNameIsRun(x);
    NameRunAt(x, rest);
    var s := dot + x + rest;
    assert s[|dot|..] == x + rest && s[|dot|..|dot| + |x|] == x && s[|dot|] == x[0];
    assert dot == "." ==> s[0] == '.';
    hide NameRun, DigitRun, Value;
  }

  lemma IndexMatches(text: string, n: nat, rest: string, atStart: bool)
    requires Spells(text, Index(n), atStart)
    ensures Match(text + rest, atStart) == Some((Index(n), |text|))
  {
    hide NameRun, DigitRun, Value;
    var digits, s := text[1..|text| - 1], text + rest;
    DigitRunAt(digits, "]" + rest);
    assert s[1..] == digits + ("]" + rest) && s[1..|digits| + 1] == digits;
    assert s[0] == '[' && s[1] == text[1] && s[|digits| + 1] == ']';
  }

  lemma SpelledMatches(text: string, token: Token, rest: string, atStart: bool)
    requires Spells(text, token, atStart) && Separates(rest)
    ensures Match(text + rest, atStart) == Some((token, |text|))
  {
    match token {
      case Name(x) =>
        var dot := if text == "." + x then "." else "";
        assert text == dot + x;
        NameMatches(x, dot, rest, atStart);
      case Wildcard =>
        var s := text + rest;
        assert s[0] == '[' && s[1] == '*' && s[2] == ']';
      case Index(n) =>
        IndexMatches(text, n, rest, atStart);
    }
  }

  lemma SpelledSeparates(s: string, tokens: seq<Token>)
    requires Spelled(s, tokens, false)
    ensures Separates(s)
  {
    if tokens != [] {
      var k :| 0 < k <= |s| && Spells(s[..k], tokens[0], false) && Spelled(s[k..], tokens[1..], false);
      assert s[0] == s[..k][0];
    }
  }

  lemma {:induction false} TokensSpell(s: string, tokens: seq<Token>, atStart: bool)
    requires Tokens(s, atStart) == Some(tokens)
    ensures Spelled(s, tokens, atStart)
    decreases |s|
  {
    hide Match, Spells;
    if s != "" {
      MatchSpells(s, atStart);
      var (token, n) := Match(s, atStart).value;
      TokensSpell(s[n..], tokens[1..], false);
    }
  }

  lemma {:induction false} SpelledTokens(s: string, tokens: seq<Token>, atStart: bool)
    requires Spelled(s, tokens, atStart)
    ensures Tokens(s, atStart) == Some(tokens)
    decreases |tokens|
  {
    hide Match, Spells;
    if tokens != [] {
      var k :| 0 < k <= |s| && Spells(s[..k], tokens[0], atStart) && Spelled(s[k..], tokens[1..], false);
      SpelledSeparates(s[k..], tokens[1..]);
      assert s == s[..k] + s[k..];
      SpelledMatches(s[..k], tokens[0], s[k..], atStart);
      SpelledTokens(s[k..], tokens[1..], false);
      assert [tokens[0]] + tokens[1..] == tokens;
    }
  }

  /** Main result: a path is read as some tokens if and only if it spells them out, one after the other. */
  lemma TokensExactly(s: string, tokens: seq<Token>)
    ensures Tokens(s, true) == Some(tokens) <==> Spelled(s, tokens, true)
  {
    hide Tokens, Spelled;
    if Tokens(s, true) == Some(tokens) {
      TokensSpell(s, tokens, true);
    }
    if Spelled(s, tokens, true) {
      SpelledTokens(s, tokens, true);
    }
  }
}
