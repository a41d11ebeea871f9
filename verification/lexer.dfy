/**
 * `Lexer`: first-match, prefix-consuming tokenisation. Custom recognizers
 * are tried before the regular-expression ones, each group in registration
 * order; a regular expression only counts when it matches a non-empty
 * prefix. The lexer counts line breaks and stamps every token with the
 * line its text ends on. When nothing matches, `lex` reports a syntax
 * error and returns no tokens.
 *
 * The regular expressions of the compiler's table are given as the
 * matchers they denote (a literal alternation, the number, identifier and
 * blank patterns); the string-literal recognizer, whose class is not part
 * of this model, is a parameter.
 */
module Lexer {
  import opened Base
  import opened Tokens
  import NL = NewlineToken
  import opened Errors

  /** The regular expressions of the compiler's table, by the prefixes they match. */
  datatype Regex =
    | Literals(alts: seq<string>)   // `a|b|c` of plain strings: the first alternative that is a prefix
    | Number                        // `\d+(\.\d+)?`
    | Word                          // `([A-Za-z]*\d*_*)+`: the longest run of letters, digits and '_'
    | Blank                         // ` |\t+`

  /** The custom recognizers: `NewlineToken` and the string-literal token. */
  datatype Custom = Newlines | StringLiteral

  /**
   * The string-literal recognizer: `None` when its `check` fails, else the
   * length of the prefix its `getText` returns.
   */
  type LitScanner = f: string -> Option<nat> | forall s :: f(s).Some? ==> f(s).value <= |s|
    witness (s: string) => None

  /** The two `LinkedHashMap`s of a lexer, as entry lists in insertion order. */
  datatype Config = Config(custom: seq<(string, Custom)>, regexes: seq<(string, Regex)>)

  function Empty(): Config
  {
    Config([], [])
  }

  /** `LinkedHashMap.put`: a new key goes last; a known key keeps its place and takes the new value. */
  function Put<V>(es: seq<(string, V)>, k: string, v: V): (r: seq<(string, V)>)
    ensures |r| == |es| || |r| == |es| + 1
    ensures |r| == |es| + 1 <==> forall i :: 0 <= i < |es| ==> es[i].0 != k
    ensures |r| == |es| + 1 ==> r == es + [(k, v)]
    ensures forall i :: 0 <= i < |es| ==> r[i].0 == es[i].0 && (es[i].0 != k ==> r[i] == es[i])
    ensures exists i :: 0 <= i < |r| && r[i] == (k, v)
  {
    if es == [] then
      assert [(k, v)][0] == (k, v);
      [(k, v)]
    else if es[0].0 == k then
      assert ([(k, v)] + es[1..])[0] == (k, v);
      [(k, v)] + es[1..]
    else
      var rest := Put(es[1..], k, v);
      var r := [es[0]] + rest;
      assert forall i :: 1 <= i < |r| ==> r[i] == rest[i - 1];
      assert exists i :: 0 <= i < |r| && r[i] == (k, v) by {
        var i :| 0 <= i < |rest| && rest[i] == (k, v);
        assert r[i + 1] == (k, v);
      }
      r
  }

  /** `add(name, regex)`. */
  function Add(c: Config, name: string, r: Regex): Config
  {
    c.(regexes := Put(c.regexes, name, r))
  }

  /** `add(name, checker)`. */
  function AddCustom(c: Config, name: string, k: Custom): Config
  {
    c.(custom := Put(c.custom, name, k))
  }

  // ---------------------------------------------------------------------
  // The regular expressions, anchored at the start of the input
  // ---------------------------------------------------------------------

  /** Index of the first alternative that is a prefix of `text`, or `|alts|`. */
  function FirstLiteral(alts: seq<string>, text: string): (k: nat)
    ensures k <= |alts|
    ensures k < |alts| ==> StartsWith(text, alts[k])
    ensures forall j :: 0 <= j < k ==> !StartsWith(text, alts[j])
  {
    if alts == [] then 0
    else if StartsWith(text, alts[0]) then 0
    else 1 + FirstLiteral(alts[1..], text)
  }

  predicate IsDigit(c: char) { '0' <= c <= '9' }

  predicate IsWordChar(c: char) { 'A' <= c <= 'Z' || 'a' <= c <= 'z' || IsDigit(c) || c == '_' }

  /** Length of the run of characters satisfying `p` at `s[i..]`. */
  function RunFrom(s: string, i: nat, p: char -> bool): (k: nat)
    requires i <= |s|
    ensures i + k <= |s|
    ensures forall j :: i <= j < i + k ==> p(s[j])
    ensures i + k < |s| ==> !p(s[i + k])
    decreases |s| - i
  {
    if i == |s| || !p(s[i]) then 0 else 1 + RunFrom(s, i + 1, p)
  }

  /** `\d+(\.\d+)?`: digits, then a fraction only when a digit follows the point. */
  function NumberLength(s: string): (k: nat)
    ensures k <= |s|
  {
    var d := RunFrom(s, 0, IsDigit);
    if d == 0 then 0
    else if d < |s| && s[d] == '.' && RunFrom(s, d + 1, IsDigit) > 0 then d + 1 + RunFrom(s, d + 1, IsDigit)
    else d
  }

  /** ` |\t+`: one space, else a run of tabs. */
  function BlankLength(s: string): (k: nat)
    ensures k <= |s|
  {
    if |s| > 0 && s[0] == ' ' then 1 else RunFrom(s, 0, c => c == '\t')
  }

  /** `findFromText`: the match of `^(regex)` on `text`, or "". */
  function FindFromText(text: string, r: Regex): (m: string)
    ensures StartsWith(text, m)
  {
    match r
    case Literals(alts) =>
      var k := FirstLiteral(alts, text);
      if k < |alts| then alts[k] else ""
    case Number => text[..NumberLength(text)]
    case Word => text[..RunFrom(text, 0, IsWordChar)]
    case Blank => text[..BlankLength(text)]
  }

  // ---------------------------------------------------------------------
  // getToken
  // ---------------------------------------------------------------------

  /** A custom recognizer's `check`. */
  predicate CustomCheck(k: Custom, input: string, lit: LitScanner)
  {
    match k
    case Newlines => NL.Check(input)
    case StringLiteral => lit(input).Some?
  }

  /** A custom recognizer's `getText`, once its `check` holds. */
  function CustomText(k: Custom, input: string, lit: LitScanner): (t: string)
    requires CustomCheck(k, input, lit)
    ensures StartsWith(input, t)
  {
    match k
    case Newlines => input[..NL.RunLength(input)]
    case StringLiteral => input[..lit(input).value]
  }

  /** Index of the first custom recognizer whose `check` holds, or `|cs|`. */
  function FirstCustom(cs: seq<(string, Custom)>, input: string, lit: LitScanner): (k: nat)
    ensures k <= |cs|
    ensures k < |cs| ==> CustomCheck(cs[k].1, input, lit)
    ensures forall j :: 0 <= j < k ==> !CustomCheck(cs[j].1, input, lit)
  {
    if cs == [] then 0
    else if CustomCheck(cs[0].1, input, lit) then 0
    else 1 + FirstCustom(cs[1..], input, lit)
  }

  /** Index of the first regular expression with a non-empty match, or `|rs|`. */
  function FirstRegex(rs: seq<(string, Regex)>, input: string): (k: nat)
    ensures k <= |rs|
    ensures k < |rs| ==> FindFromText(input, rs[k].1) != ""
    ensures forall j :: 0 <= j < k ==> FindFromText(input, rs[j].1) == ""
  {
    if rs == [] then 0
    else if FindFromText(input, rs[0].1) != "" then 0
    else 1 + FirstRegex(rs[1..], input)
  }

  /** A token and the lexer's line counter after it. */
  datatype Scanned = Scanned(token: Token, line: int)

  /** The line counter rises once per line break of the text; the token gets the new count. */
  function Stamp(name: string, text: string, line: int): (s: Scanned)
    ensures s.line == line + CountChar(text, '\n') && s.token == Token(name, text, s.line, None)
  {
    var l := line + CountChar(text, '\n');
    Scanned(Token(name, text, l, None), l)
  }

  /** `getToken(input)` with the line counter at `line`. */
  function GetToken(c: Config, lit: LitScanner, input: string, line: int): (s: Scanned)
    ensures StartsWith(input, s.token.text) && s.token.obj.None?
    ensures s.line == line + CountChar(s.token.text, '\n')
    ensures s.token.text != "" ==> s.token.line == s.line
  {
    var k := FirstCustom(c.custom, input, lit);
    if k < |c.custom| then Stamp(c.custom[k].0, CustomText(c.custom[k].1, input, lit), line)
    else
      var j := FirstRegex(c.regexes, input);
      if j < |c.regexes| then Stamp(c.regexes[j].0, FindFromText(input, c.regexes[j].1), line)
      else Scanned(NoneToken(), line)
  }

  /**
   * Who wins: the first custom recognizer whose `check` holds, even with
   * an empty text; failing that, the first regular expression with a
   * non-empty match; failing that, the empty `NONE` token.
   */
  lemma GetTokenFirstMatch(c: Config, lit: LitScanner, input: string, line: int)
    ensures var t := GetToken(c, lit, input, line).token;
            (exists k :: 0 <= k < |c.custom| && CustomCheck(c.custom[k].1, input, lit)) ==>
              exists k :: 0 <= k < |c.custom| && CustomCheck(c.custom[k].1, input, lit) &&
                (forall j :: 0 <= j < k ==> !CustomCheck(c.custom[j].1, input, lit)) &&
                t.name == c.custom[k].0 && t.text == CustomText(c.custom[k].1, input, lit)
    ensures var t := GetToken(c, lit, input, line).token;
            (forall k :: 0 <= k < |c.custom| ==> !CustomCheck(c.custom[k].1, input, lit)) &&
            (exists k :: 0 <= k < |c.regexes| && FindFromText(input, c.regexes[k].1) != "") ==>
              exists k :: 0 <= k < |c.regexes| && FindFromText(input, c.regexes[k].1) != "" &&
                (forall j :: 0 <= j < k ==> FindFromText(input, c.regexes[j].1) == "") &&
                t.name == c.regexes[k].0 && t.text == FindFromText(input, c.regexes[k].1)
    ensures var t := GetToken(c, lit, input, line).token;
            (forall k :: 0 <= k < |c.custom| ==> !CustomCheck(c.custom[k].1, input, lit)) &&
            (forall k :: 0 <= k < |c.regexes| ==> FindFromText(input, c.regexes[k].1) == "") ==>
              t == NoneToken()
  {
    var k := FirstCustom(c.custom, input, lit);
    var j := FirstRegex(c.regexes, input);
    if k == |c.custom| && j < |c.regexes| {
      assert FindFromText(input, c.regexes[j].1) != "";
    }
  }

  // ---------------------------------------------------------------------
  // lex
  // ---------------------------------------------------------------------

  /** The token texts, one after another. */
  function Texts(ts: seq<Token>): string
  {
    if ts == [] then "" else ts[0].text + Texts(ts[1..])
  }

  /** What `lex` returns, the lexer's line counter, and the error state. */
  datatype LexResult = LexResult(ok: bool, tokens: seq<Token>, line: int, errors: ErrorState)

  /**
   * What `lex` needs of `getToken`: the token text is a prefix of the
   * input, the counter rises by its line breaks, and a token with text is
   * stamped with the new count.
   */
  type Scanner = f: (string, int) -> Scanned |
    forall input, line :: StartsWith(input, f(input, line).token.text) &&
                          f(input, line).line == line + CountChar(f(input, line).token.text, '\n') &&
                          (f(input, line).token.text != "" ==> f(input, line).token.line == f(input, line).line)
    witness (input: string, line: int) => Scanned(NoneToken(), line)

  /** `getToken` of a configured lexer. */
  function ScannerOf(c: Config, lit: LitScanner): Scanner
  {
    (input: string, line: int) => GetToken(c, lit, input, line)
  }

  /** A first token in front of a successful result; a failure stays a failure with no tokens. */
  function Prepend(ts: seq<Token>, r: LexResult): LexResult
  {
    if r.ok then r.(tokens := ts + r.tokens) else r
  }

  /**
   * `lex` on the remaining `input` of `code`, the counter at `line`. A
   * token with an empty text makes no progress: a syntax error at the
   * current position, and no tokens at all.
   */
  function LexFrom(scan: Scanner, code: string, input: string, line: int, e: ErrorState): (r: LexResult)
    ensures r.ok ==> Texts(r.tokens) == input && r.errors == e && r.line == line + CountChar(input, '\n')
    ensures r.ok ==> forall i :: 0 <= i < |r.tokens| ==> r.tokens[i].text != ""
    ensures !r.ok ==> r.tokens == [] && input != [] && IsSyntaxError(code, input, e, r.errors)
    decreases |input|
  {
    if input == [] then LexResult(true, [], line, e)
    else
      var s := scan(input, line);
      if s.token.text == "" then LexResult(false, [], s.line, Raise(e, SyntaxError(|code| - |input|, code)))
      else
        var rest := input[|s.token.text|..];
        var r := LexFrom(scan, code, rest, s.line, e);
        if r.ok then
          PrependToken(s.token, input, rest, line, r);
          Prepend([s.token], r)
        else
          SyntaxErrorWithin(code, input, rest, e, r.errors);
          r
  }

  /** A token with text in front of a successful result for the input after it accounts for the whole input. */
  lemma PrependToken(t: Token, input: string, rest: string, line: int, r: LexResult)
    requires t.text != "" && input == t.text + rest && r.ok
    requires Texts(r.tokens) == rest && r.line == line + CountChar(t.text, '\n') + CountChar(rest, '\n')
    requires forall i :: 0 <= i < |r.tokens| ==> r.tokens[i].text != ""
    ensures var q := Prepend([t], r);
            Texts(q.tokens) == input && q.line == line + CountChar(input, '\n') &&
            forall i :: 0 <= i < |q.tokens| ==> q.tokens[i].text != ""
  {
    var ts := [t] + r.tokens;
    assert ts[1..] == r.tokens;
    CountCharAppend(t.text, rest, '\n');
  }

  /** A syntax error inside a suffix of the remaining input is inside the remaining input. */
  lemma SyntaxErrorWithin(code: string, input: string, rest: string, e: ErrorState, errors: ErrorState)
    requires |rest| <= |input| && IsSyntaxError(code, rest, e, errors)
    ensures IsSyntaxError(code, input, e, errors)
  {
    var p :| |code| - |rest| <= p < |code| && errors == Raise(e, SyntaxError(p, code));
    assert |code| - |input| <= p;
  }

  /** The errors are `e` plus one syntax error at a position inside the remaining input. */
  predicate IsSyntaxError(code: string, input: string, e: ErrorState, errors: ErrorState)
  {
    exists p: int :: |code| - |input| <= p < |code| && errors == Raise(e, SyntaxError(p, code))
  }

  /** One step of `lex`: the first token, then `lex` on the rest. */
  lemma LexStep(scan: Scanner, code: string, input: string, line: int, e: ErrorState)
    requires input != []
    ensures var s := scan(input, line);
            LexFrom(scan, code, input, line, e) ==
              if s.token.text == "" then LexResult(false, [], s.line, Raise(e, SyntaxError(|code| - |input|, code)))
              else Prepend([s.token], LexFrom(scan, code, input[|s.token.text|..], s.line, e))
  {
  }

  /** `lex(code)` on a fresh lexer, whose line counter starts at 1. */
  function Lex(c: Config, lit: LitScanner, code: string, e: ErrorState): (r: LexResult)
    ensures r.ok ==> Texts(r.tokens) == code && r.errors == e
    ensures !r.ok ==> r.tokens == [] && IsSyntaxError(code, code, e, r.errors)
  {
    LexFrom(ScannerOf(c, lit), code, code, 1, e)
  }

  /** The texts of `[t] + ts[..i]`. */
  lemma TextsCons(t: Token, ts: seq<Token>, i: nat)
    requires i <= |ts|
    ensures Texts(([t] + ts)[..i + 1]) == t.text + Texts(ts[..i])
  {
    assert ([t] + ts)[..i + 1] == [t] + ts[..i];
    assert ([t] + ts[..i])[1..] == ts[..i];
  }

  /** A token stamped with `line` plus its own line breaks, in front of tokens stamped from its line on. */
  lemma LinesCons(t: Token, ts: seq<Token>, line: int)
    requires t.line == line + CountChar(t.text, '\n')
    requires forall i :: 0 <= i < |ts| ==> ts[i].line == t.line + CountChar(Texts(ts[..i + 1]), '\n')
    ensures forall i :: 0 <= i < |[t] + ts| ==> ([t] + ts)[i].line == line + CountChar(Texts(([t] + ts)[..i + 1]), '\n')
  {
    var us := [t] + ts;
    forall i | 0 <= i < |us|
      ensures us[i].line == line + CountChar(Texts(us[..i + 1]), '\n')
    {
      if i > 0 {
        var j := i - 1;
        assert us[i] == ts[j];
        TextsCons(t, ts, j + 1);
        CountCharAppend(t.text, Texts(ts[..j + 1]), '\n');
      } else {
        TextsCons(t, ts, 0);
        assert Texts(ts[..0]) == "";
        assert t.text + "" == t.text;
      }
    }
  }

  /** Each token is stamped with the start line plus the line breaks of all text up to and including its own. */
  lemma {:induction false} LexLines(scan: Scanner, code: string, input: string, line: int, e: ErrorState)
    ensures var r := LexFrom(scan, code, input, line, e);
            r.ok ==> forall i :: 0 <= i < |r.tokens| ==> r.tokens[i].line == line + CountChar(Texts(r.tokens[..i + 1]), '\n')
    decreases |input|
  {
    if input != [] {
      LexStep(scan, code, input, line, e);
      var s := scan(input, line);
      if s.token.text != "" {
        var rest := input[|s.token.text|..];
        var r' := LexFrom(scan, code, rest, s.line, e);
        if r'.ok {
          LexLines(scan, code, rest, s.line, e);
          assert s.token.line == line + CountChar(s.token.text, '\n');
          LinesCons(s.token, r'.tokens, line);
        }
      }
    }
  }

  /** Two prepends in a row. */
  lemma PrependTwice(a: seq<Token>, b: seq<Token>, r: LexResult)
    ensures Prepend(a, Prepend(b, r)) == Prepend(a + b, r)
  {
    if r.ok {
      assert a + (b + r.tokens) == (a + b) + r.tokens;
    }
  }

  /** `lex` as the loop of the source runs it: it ends because every step shortens the input. */
  method LexLoop(c: Config, lit: LitScanner, code: string, e: ErrorState) returns (tokens: seq<Token>, errors: ErrorState)
    ensures var r := Lex(c, lit, code, e); tokens == r.tokens && errors == r.errors
  {
    tokens, errors := ScanLoop(ScannerOf(c, lit), code, e);
  }

  /** The loop of `lex` with any scanner in place of `getToken`. */
  method ScanLoop(scan: Scanner, code: string, e: ErrorState) returns (tokens: seq<Token>, errors: ErrorState)
    ensures var r := LexFrom(scan, code, code, 1, e); tokens == r.tokens && errors == r.errors
  {
    var input := code;
    var line := 1;
    tokens := [];
    while |input| != 0
      invariant LexFrom(scan, code, code, 1, e) == Prepend(tokens, LexFrom(scan, code, input, line, e))
      decreases |input|
    {
      LexStep(scan, code, input, line, e);
      var s := scan(input, line);
      PrependTwice(tokens, [s.token], LexFrom(scan, code, input[|s.token.text|..], s.line, e));
      tokens := tokens + [s.token];
      line := s.line;
      var previous := input;
      input := input[|s.token.text|..];
      if previous == input {
        return [], Raise(e, SyntaxError(|code| - |input|, code));
      }
    }
    errors := e;
  }
}
