/** Constraint paths of agents/contract_execution.py: `_tokenize_path` and `_values_at_path`. */
module ContractPaths {
  import opened DecimalNotation
  import opened Options

  datatype Token = Name(text: string) | Wildcard | Index(n: nat)

  datatype Json =
    | Null
    | Bool(b: bool)
    | Num(n: int)
    | Str(text: string)
    | Arr(items: seq<Json>)
    | Obj(members: map<string, Json>)

  // ---------------------------------------------------------------- tokens

  predicate IsLetter(c: char) {
    'A' <= c <= 'Z' || 'a' <= c <= 'z' || c == '_'
  }

  predicate IsDigit(c: char) {
    '0' <= c <= '9'
  }

  /** How far a run of name characters goes. */
  function NameRun(s: string): (n: nat)
    ensures n <= |s|
  {
    if s == "" || !(IsLetter(s[0]) || IsDigit(s[0])) then 0 else 1 + NameRun(s[1..])
  }

  function DigitRun(s: string): (n: nat)
    ensures n <= |s|
  {
    if s == "" || !IsDigit(s[0]) then 0 else 1 + DigitRun(s[1..])
  }

  function DigitOf(c: char): digit {
    if IsDigit(c) then c as int - '0' as int else 0
  }

  /** `int` of a run of digits. */
  function Value(s: string): nat {
    Number(seq(|s|, i requires 0 <= i < |s| => DigitOf(s[i])))
  }

  /** What the path pattern matches at the front of `s`: the token and how much of `s` it takes. */
  function Match(s: string, atStart: bool): (r: Option<(Token, nat)>)
    ensures r.Some? ==> 0 < r.value.1 <= |s|
  {
    if s == "" then None
    else if s[0] == '[' then
      var d := DigitRun(s[1..]);
      if |s| >= 3 && s[1] == '*' && s[2] == ']' then Some((Wildcard, 3))
      else if d > 0 && d + 1 < |s| && s[d + 1] == ']' then Some((Index(Value(s[1..d + 1])), d + 2))
      else None
    else
      var from := if s[0] == '.' then 1 else 0;
      if (from == 0 && !atStart) || from == |s| || !IsLetter(s[from]) then None
      else
        var n := NameRun(s[from..]);
        Some((Name(s[from..from + n]), from + n))
  }

  /** The tokens of a path; None where the source raises. */
  function Tokens(s: string, atStart: bool): Option<seq<Token>>
    decreases |s|
  {
    if s == "" then Some([])
    else
      match Match(s, atStart)
      case None => None
      case Some((token, n)) =>
        match Tokens(s[n..], false)
        case None => None
        case Some(rest) => Some([token] + rest)
  }

  function After(tokens: seq<Token>, rest: Option<seq<Token>>): Option<seq<Token>> {
    if rest.None? then None else Some(tokens + rest.value)
  }

  lemma TokensStep(tokens: seq<Token>, s: string, atStart: bool)
    requires s != ""
    ensures After(tokens, Tokens(s, atStart)) ==
      match Match(s, atStart)
      case None => None
      case Some((token, n)) => After(tokens + [token], Tokens(s[n..], false))
  {
    match Match(s, atStart)
    case None =>
    case Some((token, n)) =>
      match Tokens(s[n..], false) {
        case None =>
        case Some(rest) => assert tokens + ([token] + rest) == tokens + [token] + rest;
      }
  }

  /** `_tokenize_path`. */
  method Tokenize(path: string) returns (r: Option<seq<Token>>)
    ensures r == Tokens(path, true)
  {
    hide Match;
    var position, tokens := 0, [];
    assert path[0..] == path;
    assert Tokens(path, true).Some? ==> [] + Tokens(path, true).value == Tokens(path, true).value;
    while position < |path|
      invariant position <= |path|
      invariant Tokens(path, true) == After(tokens, Tokens(path[position..], position == 0))
    {
      TokensStep(tokens, path[position..], position == 0);
      var found := Match(path[position..], position == 0);
      if found.None? {
        return None;
      }
      assert path[position..][found.value.1..] == path[position + found.value.1..];
      tokens, position := tokens + [found.value.0], position + found.value.1;
    }
    assert tokens + [] == tokens;
    return Some(tokens);
  }

  // ---------------------------------------------------------------- writing a path

  /** `str(n)`. */
  function Decimal(n: nat): (s: string)
    ensures s != "" && forall i :: 0 <= i < |s| ==> IsDigit(s[i])
  {
    var digits := Digits(n);
    seq(|digits|, i requires 0 <= i < |digits| => ('0' as int + digits[i]) as char)
  }

  predicate IsName(s: string) {
    s != "" && IsLetter(s[0]) && NameRun(s) == |s|
  }

  function Write(token: Token): string {
    match token
    case Name(text) => "." + text
    case Wildcard => "[*]"
    case Index(n) => "[" + Decimal(n) + "]"
  }

  function WriteAll(tokens: seq<Token>): string {
    if tokens == [] then "" else Write(tokens[0]) + WriteAll(tokens[1..])
  }

  lemma ValueOfDecimal(n: nat)
    ensures Value(Decimal(n)) == n
  {
    var s := Decimal(n);
    assert seq(|s|, i requires 0 <= i < |s| => DigitOf(s[i])) == Digits(n);
    NumberOfDigits(n);
  }

  lemma {:induction false} DigitRunAt(digits: string, rest: string)
    requires forall i :: 0 <= i < |digits| ==> IsDigit(digits[i])
    requires rest == "" || !IsDigit(rest[0])
    ensures DigitRun(digits + rest) == |digits|
  {
    if digits == "" {
      assert digits + rest == rest;
    } else {
      DigitRunAt(digits[1..], rest);
      assert (digits + rest)[1..] == digits[1..] + rest;
    }
  }

  lemma {:induction false} NameRunAt(name: string, rest: string)
    requires NameRun(name) == |name|
    requires rest == "" || !(IsLetter(rest[0]) || IsDigit(rest[0]))
    ensures NameRun(name + rest) == |name|
  {
    if name == "" {
      assert name + rest == rest;
    } else {
      NameRunAt(name[1..], rest);
      assert (name + rest)[1..] == name[1..] + rest;
    }
  }

  predicate Writable(tokens: seq<Token>) {
    forall i :: 0 <= i < |tokens| && tokens[i].Name? ==> IsName(tokens[i].text)
  }

  lemma WrittenStartsCleanly(tokens: seq<Token>)
    ensures var s := WriteAll(tokens); s == "" || s[0] == '.' || s[0] == '['
  {
  }

  lemma MatchName(text: string, rest: string, atStart: bool)
    requires IsName(text) && (rest == "" || rest[0] == '.' || rest[0] == '[')
    ensures Match("." + text + rest, atStart) == Some((Name(text), 1 + |text|))
  {
    var s := "." + text + rest;
    NameRunAt(text, rest);
    assert s[1..] == text + rest && s[1..1 + |text|] == text;
    assert s[1] == text[0];
    hide NameRun, DigitRun, Value;
  }

  lemma MatchIndex(n: nat, rest: string, atStart: bool)
    ensures Match("[" + Decimal(n) + "]" + rest, atStart) == Some((Index(n), |Decimal(n)| + 2))
  {
    hide NameRun, DigitRun, Value, Decimal;
    var digits := Decimal(n);
    var s := "[" + digits + "]" + rest;
    DigitRunAt(digits, "]" + rest);
    ValueOfDecimal(n);
    assert s[1..] == digits + ("]" + rest) && s[1..|digits| + 1] == digits;
    assert s[1] == digits[0] && s[|digits| + 1] == ']';
  }

  lemma MatchWritten(token: Token, rest: string, atStart: bool)
    requires token.Name? ==> IsName(token.text)
    requires rest == "" || rest[0] == '.' || rest[0] == '['
    ensures Match(Write(token) + rest, atStart) == Some((token, |Write(token)|))
  {
    match token {
      case Name(text) =>
        MatchName(text, rest, atStart);
      case Wildcard =>
        var s := "[*]" + rest;
        assert s[0] == '[' && s[1] == '*' && s[2] == ']';
      case Index(n) =>
        MatchIndex(n, rest, atStart);
    }
  }

  /** Every list of tokens with proper names has a path, and it is read back as that list. */
  lemma {:induction false} TokensOfWritten(tokens: seq<Token>, atStart: bool)
    requires Writable(tokens)
    ensures Tokens(WriteAll(tokens), atStart) == Some(tokens)
  {
    if tokens != [] {
      var rest := WriteAll(tokens[1..]);
      WrittenStartsCleanly(tokens[1..]);
      MatchWritten(tokens[0], rest, atStart);
      TokensOfWritten(tokens[1..], false);
      assert (Write(tokens[0]) + rest)[|Write(tokens[0])|..] == rest;
      assert [tokens[0]] + tokens[1..] == tokens;
      hide Match, Write;
    }
  }

  // ---------------------------------------------------------------- values

  function Select(value: Json, token: Token): seq<Json> {
    match token
    case Name(text) => if value.Obj? && text in value.members then [value.members[text]] else []
    case Index(n) => if value.Arr? && n < |value.items| then [value.items[n]] else []
    case Wildcard =>
      if value.Obj? && "*" in value.members then [value.members["*"]] else if value.Arr? then value.items else []
  }

  function SelectAll(values: seq<Json>, token: Token): seq<Json> {
    if values == [] then []
    else SelectAll(values[..|values| - 1], token) + Select(values[|values| - 1], token)
  }

  function ValuesAt(values: seq<Json>, tokens: seq<Token>): seq<Json> {
    if tokens == [] then values
    else SelectAll(ValuesAt(values, tokens[..|tokens| - 1]), tokens[|tokens| - 1])
  }

  /** `_values_at_path`, for a path that has been split into tokens. */
  method ValuesAtPath(payload: Json, tokens: seq<Token>) returns (values: seq<Json>)
    ensures values == ValuesAt([payload], tokens)
  {
    values := [payload];
    for i := 0 to |tokens|
      invariant values == ValuesAt([payload], tokens[..i])
    {
      var next: seq<Json> := [];
      for j := 0 to |values|
        invariant next == SelectAll(values[..j], tokens[i])
      {
        assert values[..j + 1][..j] == values[..j];
        next := next + Select(values[j], tokens[i]);
      }
      assert values[..|values|] == values && tokens[..i + 1][..i] == tokens[..i];
      values := next;
    }
    assert tokens[..|tokens|] == tokens;
  }

  lemma {:induction false} SelectedFrom(values: seq<Json>, token: Token, v: Json) returns (k: nat)
    requires v in SelectAll(values, token)
    ensures k < |values| && v in Select(values[k], token)
  {
    var n := |values| - 1;
    if v in SelectAll(values[..n], token) {
      k := SelectedFrom(values[..n], token, v);
    } else {
      k := n;
    }
  }
}
