/**
 * The tokens of `lex` described without its loop: a successful run is
 * the sequence of scans the scanner makes from the start of the input,
 * and a failed one stops with a syntax error exactly where the scanner
 * first returns an empty text.
 */
module LexerRuns {
  import opened Base
  import opened Tokens
  import opened Errors
  import opened Lexer

  /**
   * `ts` are the tokens the scanner hands out one after another from the
   * start of `input`: each is the scan of the input left after the texts
   * before it, with the line counter advanced by their line breaks, and
   * none of them is empty.
   */
  predicate ScannedRun(scan: (string, int) -> Scanned, input: string, line: int, ts: seq<Token>)
  {
    StartsWith(input, Texts(ts)) && forall i :: 0 <= i < |ts| ==> ScannedAt(scan, input, line, ts, i)
  }

  predicate ScannedAt(scan: (string, int) -> Scanned, input: string, line: int, ts: seq<Token>, i: int)
    requires 0 <= i < |ts|
  {
    var done := Texts(ts[..i]);
    ts[i].text != "" && |done| <= |input| &&
    ts[i] == scan(input[|done|..], line + CountChar(done, '\n')).token
  }

  /** A non-empty first scan in front of a run over the rest is a run over the whole input. */
  lemma RunCons(scan: (string, int) -> Scanned, input: string, line: int, ts: seq<Token>)
    requires StartsWith(input, scan(input, line).token.text) && scan(input, line).token.text != ""
    requires scan(input, line).line == line + CountChar(scan(input, line).token.text, '\n')
    requires ScannedRun(scan, input[|scan(input, line).token.text|..], scan(input, line).line, ts)
    ensures ScannedRun(scan, input, line, [scan(input, line).token] + ts)
  {
    var s := scan(input, line);
    var t := s.token;
    var rest := input[|t.text|..];
    var us := [t] + ts;
    assert input == t.text + rest;
    assert us[1..] == ts;
    assert input[..|Texts(us)|] == t.text + rest[..|Texts(ts)|];
    forall i | 0 <= i < |us|
      ensures ScannedAt(scan, input, line, us, i)
    {
      if i == 0 {
        assert us[..0] == [];
      } else {
        ConsAt(scan, input, line, t, rest, ts, i - 1);
      }
    }
  }

  /** Token `j` of a run over `rest` is token `j + 1` of the run over `t.text + rest` that starts with `t`. */
  lemma ConsAt(scan: (string, int) -> Scanned, input: string, line: int, t: Token, rest: string, ts: seq<Token>, j: nat)
    requires input == t.text + rest && j < |ts|
    requires ScannedAt(scan, rest, line + CountChar(t.text, '\n'), ts, j)
    ensures ScannedAt(scan, input, line, [t] + ts, j + 1)
  {
    var us := [t] + ts;
    var done := Texts(ts[..j]);
    TextsCons(t, ts, j);
    assert Texts(us[..j + 1]) == t.text + done;
    AtShift(scan, t.text, rest, line, done);
  }

  /** Scanning after `done` in `rest` is scanning after `head + done` in `head + rest`. */
  lemma AtShift(scan: (string, int) -> Scanned, head: string, rest: string, line: int, done: string)
    requires |done| <= |rest|
    ensures scan((head + rest)[|head + done|..], line + CountChar(head + done, '\n')) ==
            scan(rest[|done|..], line + CountChar(head, '\n') + CountChar(done, '\n'))
  {
    CountCharAppend(head, done, '\n');
    DropShift(head, rest, done);
  }

  lemma DropShift(head: string, rest: string, done: string)
    requires |done| <= |rest|
    ensures (head + rest)[|head + done|..] == rest[|done|..]
  {
    assert (head + rest)[|head + done|..] == rest[|done|..];
  }

  /** A successful `lex` returns exactly the scanner's run over the input. */
  lemma {:induction false} LexScansAll(scan: Scanner, code: string, input: string, line: int, e: ErrorState)
    ensures var r := LexFrom(scan, code, input, line, e);
            r.ok ==> ScannedRun(scan, input, line, r.tokens)
    decreases |input|
  {
    if input != [] {
      LexStep(scan, code, input, line, e);
      var s := scan(input, line);
      if s.token.text != "" {
        var rest := input[|s.token.text|..];
        LexScansAll(scan, code, rest, s.line, e);
        if LexFrom(scan, code, rest, s.line, e).ok {
          RunCons(scan, input, line, LexFrom(scan, code, rest, s.line, e).tokens);
        }
      }
    } else {
      assert Texts([]) == "";
    }
  }

  /**
   * A failed `lex` stops at the first empty scan: `ts` are the tokens
   * scanned before it, and the syntax error sits right after their texts.
   */
  lemma {:induction false} LexFailsAt(scan: Scanner, code: string, input: string, line: int, e: ErrorState)
    returns (ts: seq<Token>)
    requires !LexFrom(scan, code, input, line, e).ok
    ensures Stops(scan, input, line, ts)
    ensures LexFrom(scan, code, input, line, e).errors == Raise(e, SyntaxError(|code| - |input| + |Texts(ts)|, code))
    decreases |input|
  {
    LexStep(scan, code, input, line, e);
    var s := scan(input, line);
    if s.token.text == "" {
      ts := [];
      assert Texts(ts) == "";
      assert input[|Texts(ts)|..] == input;
    } else {
      var us := LexFailsAt(scan, code, input[|s.token.text|..], s.line, e);
      StopCons(scan, input, line, us);
      ts := [s.token] + us;
    }
  }

  /** After the run `ts`, the scanner's next token is empty: where `lex` stops. */
  predicate Stops(scan: (string, int) -> Scanned, input: string, line: int, ts: seq<Token>)
  {
    ScannedRun(scan, input, line, ts) && |Texts(ts)| < |input| &&
    scan(input[|Texts(ts)|..], line + CountChar(Texts(ts), '\n')).token.text == ""
  }

  /** A non-empty first scan in front of a run that stops in the rest is a run that stops at the same place. */
  lemma StopCons(scan: (string, int) -> Scanned, input: string, line: int, us: seq<Token>)
    requires StartsWith(input, scan(input, line).token.text) && scan(input, line).token.text != ""
    requires scan(input, line).line == line + CountChar(scan(input, line).token.text, '\n')
    requires Stops(scan, input[|scan(input, line).token.text|..], scan(input, line).line, us)
    ensures Stops(scan, input, line, [scan(input, line).token] + us)
    ensures |input| - |Texts([scan(input, line).token] + us)| == |input[|scan(input, line).token.text|..]| - |Texts(us)|
  {
    var s := scan(input, line);
    var t := s.token;
    var rest := input[|t.text|..];
    var ts := [t] + us;
    RunCons(scan, input, line, us);
    assert input == t.text + rest;
    assert ts[1..] == us;
    AtShift(scan, t.text, rest, line, Texts(us));
  }

  /**
   * `lex` either returns the scanner's run over the whole input, or fails
   * with one syntax error at the offset where, after a run of non-empty
   * tokens, the scanner first returns an empty text.
   */
  lemma LexFromScans(scan: Scanner, code: string, input: string, line: int, e: ErrorState)
    ensures var r := LexFrom(scan, code, input, line, e);
            r.ok ==> ScannedRun(scan, input, line, r.tokens) && Texts(r.tokens) == input
    ensures var r := LexFrom(scan, code, input, line, e);
            !r.ok ==>
              exists ts :: Stops(scan, input, line, ts) &&
                r.errors == Raise(e, SyntaxError(|code| - |input| + |Texts(ts)|, code))
  {
    LexScansAll(scan, code, input, line, e);
    if !LexFrom(scan, code, input, line, e).ok {
      var ts := LexFailsAt(scan, code, input, line, e);
    }
  }
}
