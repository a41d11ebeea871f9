/**
 * Properties of the compiler's own tables: which token the lexer makes of
 * an operator or keyword, and two places where the source's `replace` and
 * `return` checker go wrong on inputs the grammar produces.
 */
module CompilerProofs {
  import opened Base
  import opened Tokens
  import opened Patterns
  import opened Parser
  import opened ParserProofs
  import opened Compiler
  import Lexer
  import NL = NewlineToken

  // ---------------------------------------------------------------------
  // The lexer's priorities
  // ---------------------------------------------------------------------

  /** The lexer `initLexer` configures, as `InitLexerTable` lays it out. */
  function Table(): Lexer.Config
  {
    Lexer.Config(CustomTable(), RegexTable())
  }

  /** The first of the entries with a non-empty match is the one at `k` when every earlier one fails and it succeeds. */
  lemma {:induction false} FirstRegexAt(rs: seq<(string, Lexer.Regex)>, input: string, k: nat)
    requires k < |rs| && Lexer.FindFromText(input, rs[k].1) != ""
    requires forall j :: 0 <= j < k ==> Lexer.FindFromText(input, rs[j].1) == ""
    ensures Lexer.FirstRegex(rs, input) == k
  {
    if k > 0 {
      assert Lexer.FindFromText(input, rs[0].1) == "";
      FirstRegexAt(rs[1..], input, k - 1);
    }
  }

  /** Entry `k` of the table is `name`, matches `text` of the input, and is the first entry to match anything. */
  predicate RegexWins(input: string, k: nat, name: string, text: string)
  {
    k < |RegexTable()| && RegexTable()[k].0 == name && text != "" &&
    Lexer.FindFromText(input, RegexTable()[k].1) == text &&
    forall j :: 0 <= j < k ==> Lexer.FindFromText(input, RegexTable()[j].1) == ""
  }

  /** On input that is neither a line break nor a string literal, the table's regular expressions decide. */
  lemma ByRegexTable(lit: Lexer.LitScanner, input: string, line: int, k: nat, name: string, text: string)
    requires !NL.Check(input) && lit(input).None?
    requires RegexWins(input, k, name, text)
    ensures var t := Lexer.GetToken(Table(), lit, input, line).token;
            t.name == name && t.text == text
  {
    assert Lexer.FirstCustom(CustomTable(), input, lit) == 2;
    FirstRegexAt(RegexTable(), input, k);
    RegexToken(Table(), lit, input, line, k);
  }

  /** When no custom recognizer fires, the first matching regular expression names the token and gives its text. */
  lemma RegexToken(c: Lexer.Config, lit: Lexer.LitScanner, input: string, line: int, k: nat)
    requires Lexer.FirstCustom(c.custom, input, lit) == |c.custom|
    requires Lexer.FirstRegex(c.regexes, input) == k < |c.regexes|
    ensures var t := Lexer.GetToken(c, lit, input, line).token;
            t.name == c.regexes[k].0 && t.text == Lexer.FindFromText(input, c.regexes[k].1)
  {
  }

  /** Before `EXPONENTIATION`, no entry matches `**`; it matches the two stars. */
  lemma PowerMisses(input: string)
    requires |input| >= 2 && input[0] == '*' && input[1] == '*'
    ensures RegexWins(input, 5, "EXPONENTIATION", "**")
  {
    forall j | 0 <= j < 5 ensures Lexer.FindFromText(input, RegexTable()[j].1) == "" {
      assert j == 0 || j == 1 || j == 2 || j == 3 || j == 4;
    }
  }

  /** `**` is registered before `*`, so a power is one token and not two multiplications. */
  lemma PowerBeforeProduct(lit: Lexer.LitScanner, rest: string, line: int)
    requires lit("**" + rest).None?
    ensures var t := Lexer.GetToken(Table(), lit, "**" + rest, line).token;
            t.name == "EXPONENTIATION" && t.text == "**"
  {
    var input := "**" + rest;
    PowerMisses(input);
    ByRegexTable(lit, input, line, 5, "EXPONENTIATION", "**");
  }

  /** A list of plain alternatives matches nothing when none of them starts with the input's first character. */
  lemma LiteralsMiss(text: string, alts: seq<string>)
    requires |text| > 0
    requires forall i :: 0 <= i < |alts| ==> |alts[i]| > 0 && alts[i][0] != text[0]
    ensures Lexer.FindFromText(text, Lexer.Literals(alts)) == ""
  {
    forall i | 0 <= i < |alts| ensures !StartsWith(text, alts[i]) {
      if |alts[i]| <= |text| {
        assert text[..|alts[i]|][0] != alts[i][0];
      }
    }
  }

  /** A number needs a digit first. */
  lemma NumberMiss(text: string)
    requires |text| > 0 && !Lexer.IsDigit(text[0])
    ensures Lexer.FindFromText(text, Lexer.Number) == ""
  {
  }

  /** No entry before `ELSEIF` matches `else if `: none of them starts with an `e`. */
  lemma ElseIfEarlierMiss(input: string)
    requires |input| >= 8 && input[..8] == "else if "
    ensures forall j :: 0 <= j < 13 ==> Lexer.FindFromText(input, RegexTable()[j].1) == ""
  {
    assert input[0] == input[..8][0] == 'e';
    forall j | 0 <= j < 13 ensures Lexer.FindFromText(input, RegexTable()[j].1) == "" {
      if j == 0 {
        NumberMiss(input);
      } else {
        LiteralsMiss(input, RegexTable()[j].1.alts);
      }
    }
  }

  /** Before `ELSEIF`, no entry matches `else if `; it matches all of it. */
  lemma ElseIfMisses(input: string)
    requires |input| >= 8 && input[..8] == "else if "
    ensures RegexWins(input, 13, "ELSEIF", "else if ")
  {
    ElseIfEarlierMiss(input);
  }

  /** Input starting with `else if ` and no string literal gives the `ELSEIF` token. */
  lemma ElseIfToken(lit: Lexer.LitScanner, input: string, line: int)
    requires |input| >= 8 && input[..8] == "else if " && lit(input).None?
    ensures var t := Lexer.GetToken(Table(), lit, input, line).token;
            t.name == "ELSEIF" && t.text == "else if "
  {
    assert input[0] == input[..8][0] == 'e';
    ElseIfMisses(input);
    ByRegexTable(lit, input, line, 13, "ELSEIF", "else if ");
  }

  /** `else if ` is registered before `else`, so it is one `ELSEIF` token. */
  lemma ElseIfBeforeElse(lit: Lexer.LitScanner, rest: string, line: int)
    requires lit("else if " + rest).None?
    ensures var t := Lexer.GetToken(Table(), lit, "else if " + rest, line).token;
            t.name == "ELSEIF" && t.text == "else if "
  {
    ElseIfToken(lit, "else if " + rest, line);
  }

  /** No entry before `WHILE` matches `while `: none of them starts with a `w`. */
  lemma WhileEarlierMiss(input: string)
    requires |input| >= 6 && input[..6] == "while "
    ensures forall j :: 0 <= j < 11 ==> Lexer.FindFromText(input, RegexTable()[j].1) == ""
  {
    assert input[0] == input[..6][0] == 'w';
    forall j | 0 <= j < 11 ensures Lexer.FindFromText(input, RegexTable()[j].1) == "" {
      if j == 0 {
        NumberMiss(input);
      } else {
        LiteralsMiss(input, RegexTable()[j].1.alts);
      }
    }
  }

  /** Before `WHILE`, no entry matches `while `; it matches all of it. */
  lemma WhileMisses(input: string)
    requires |input| >= 6 && input[..6] == "while "
    ensures RegexWins(input, 11, "WHILE", "while ")
  {
    WhileEarlierMiss(input);
  }

  /** Input starting with `while ` and no string literal gives the `WHILE` token. */
  lemma WhileToken(lit: Lexer.LitScanner, input: string, line: int)
    requires |input| >= 6 && input[..6] == "while " && lit(input).None?
    ensures var t := Lexer.GetToken(Table(), lit, input, line).token;
            t.name == "WHILE" && t.text == "while "
  {
    assert input[0] == input[..6][0] == 'w';
    WhileMisses(input);
    ByRegexTable(lit, input, line, 11, "WHILE", "while ");
  }

  /** `while ` comes before `ID`, so the keyword is not read as an identifier. */
  lemma WhileBeforeIdentifier(lit: Lexer.LitScanner, rest: string, line: int)
    requires lit("while " + rest).None?
    ensures var t := Lexer.GetToken(Table(), lit, "while " + rest, line).token;
            t.name == "WHILE" && t.text == "while "
  {
    WhileToken(lit, "while " + rest, line);
  }

  // ---------------------------------------------------------------------
  // Relocating an `if` after an `else if`
  // ---------------------------------------------------------------------

  /**
   * The map after `if a {} else if b {} if c {}` has been through the
   * `if` rule once: the first `if` is a program, the `else if` waits for
   * its own rule, and the second `if` is next.
   */
  function ElseIfThenIf(): seq<string>
  {
    ["program", "ELSEIF", "expression", "LEFT_BRACE", "RIGHT_BRACE", "IF", "expression", "LEFT_BRACE", "RIGHT_BRACE"]
  }

  /** The `if` pattern matches at none of the first five words of `ElseIfThenIf`. */
  lemma NoIfBeforeFive()
    ensures forall s :: 0 <= s < 5 ==> !MatchesAt(IfPattern(), ElseIfThenIf(), s)
  {
    var ps, ns := IfPattern(), ElseIfThenIf();
    assert forall s :: 0 <= s < 5 ==> MatchOne(ps[0], ns, s).None?;
  }

  /** The `if` rule matches the second `if`, words 5 to 9, and nothing before it. */
  lemma IfMatchesSecondIf()
    ensures NthMatch(IfPattern(), ElseIfThenIf(), 0, 1) == Some((5, 9))
  {
    var ps, ns := IfPattern(), ElseIfThenIf();
    NoIfBeforeFive();
    assert MatchSeq(ps, ns, 5) == Some(9);
    assert FindFrom(ps, ns, 5) == Some((5, 9));
  }

  lemma SpacedCons(w: string, ws: seq<string>)
    ensures Spaced([w] + ws) == w + " " + Spaced(ws)
  {
    assert ([w] + ws)[1..] == ws;
  }

  /** The map of a word, a second word and a tail, then a third word and the same tail. */
  lemma SpacedTwice(p: string, a: string, b: string, tail: seq<string>)
    ensures Spaced([p, a] + tail + [b] + tail) == p + " " + (a + " " + (Spaced(tail) + (b + " " + Spaced(tail))))
  {
    assert [p, a] + tail + [b] + tail == [p] + ([a] + (tail + ([b] + tail)));
    SpacedCons(p, [a] + (tail + ([b] + tail)));
    SpacedCons(a, tail + ([b] + tail));
    SpacedAppend(tail, [b] + tail);
    SpacedCons(b, tail);
  }

  /**
   * The map, as `replace` searches it, of a word `p`, an `ELSEIF` and its
   * tail, then an `IF` with the same tail: `p ELSE` and the matched text
   * twice over, because `ELSEIF` ends in `IF`.
   */
  lemma ElseIfSpaced(p: string, tail: seq<string>)
    ensures var ns := [p, "ELSEIF"] + tail + ["IF"] + tail;
            var needle := Spaced(ns[2 + |tail|..]);
            |needle| > 0 && needle[0] == 'I' && Spaced(ns) == p + " ELSE" + needle + needle
  {
    var ns := [p, "ELSEIF"] + tail + ["IF"] + tail;
    var t := Spaced(tail);
    assert ns[2 + |tail|..] == ["IF"] + tail;
    SpacedCons("IF", tail);
    var needle := "IF" + " " + t;
    SpacedTwice(p, "ELSEIF", "IF", tail);
    assert "ELSEIF" + " " == "ELSE" + ("IF" + " ");
    assert " " + "ELSE" == " ELSE";
    SplitElseIf(p, t);
  }

  /** `ELSEIF ` is `ELSE` followed by `IF `, so the map holds `IF ` right after `p ELSE`. */
  lemma SplitElseIf(p: string, t: string)
    ensures p + " " + ("ELSEIF" + " " + (t + ("IF" + " " + t))) == p + " ELSE" + ("IF" + " " + t) + ("IF" + " " + t)
  {
    assert "ELSEIF" + " " == "ELSE" + ("IF" + " ");
    assert " " + "ELSE" == " ELSE";
  }

  /**
   * Whatever precedes the `else if` (one space-free word without `I`) and
   * whatever the branches hold, the source relocates a match of the later
   * `if` to token 1, the `ELSEIF`.
   */
  lemma AsWrittenRelocatesIntoElseIf(p: string, tail: seq<string>)
    requires ' ' !in p && 'I' !in p
    ensures var ns := [p, "ELSEIF"] + tail + ["IF"] + tail;
            RelocateAsWritten(ns, 2 + |tail|, |ns|, 0, []) == 1
  {
    var ns := [p, "ELSEIF"] + tail + ["IF"] + tail;
    var needle := Spaced(ns[2 + |tail|..]);
    ElseIfSpaced(p, tail);
    assert ns[2 + |tail|..|ns|] == ns[2 + |tail|..];
    var q := p + " ELSE";
    var k := |q|;
    var hay := q + needle + needle;
    assert hay[k..k + |needle|] == needle;
    assert forall j :: 0 <= j < k ==> hay[j] == q[j];
    assert forall j :: 0 <= j < k ==> q[j] != 'I' by {
      forall j | 0 <= j < k ensures q[j] != 'I' {
        if j < |p| { assert q[j] == p[j]; } else { assert q[j] == " ELSE"[j - |p|]; }
      }
    }
    IndexFromFirst(hay, needle, 0, k);
    TallyPlain(hay, 0, k);
    assert hay[0..k] == q;
    CountCharAppend(p, " ELSE", ' ');
    CountCharNone(p, ' ');
  }

  /** `program` has neither a space nor an `I`. */
  lemma ProgramWord()
    ensures ' ' !in "program" && 'I' !in "program"
  {
    var w := "program";
    assert forall j :: 0 <= j < |w| ==> w[j] in "progam";
  }

  /** The words of `ElseIfThenIf`, with the branch tail shared by both branches. */
  lemma ElseIfThenIfShape()
    ensures ElseIfThenIf() == ["program", "ELSEIF"] + ["expression", "LEFT_BRACE", "RIGHT_BRACE"] + ["IF"] +
                              ["expression", "LEFT_BRACE", "RIGHT_BRACE"]
  {
  }

  /**
   * As written, `replace` with the `if` rule on this map puts the match of
   * the second `if` at token 1, the `ELSEIF`.
   */
  lemma AsWrittenLocatesElseIf(st: State, rule: Rule)
    requires Names(st.tokens) == ElseIfThenIf() && rule.pattern == IfPattern()
    ensures Locate(st, rule, [], 0, AsWritten) == Some((1, ElseIfThenIf()[5..9]))
  {
    var ns := MapWords(st, []);
    assert NthMatch(rule.pattern, ns, 0, Finds(0)) == Some((5, 9)) && ns[5..9] == ElseIfThenIf()[5..9] by {
      PlainMap(st);
      IfMatchesSecondIf();
    }
    assert RelocateAsWritten(ns, 5, 9, 0, []) == 1 by {
      PlainMap(st);
      ElseIfThenIfShape();
      ProgramWord();
      AsWrittenRelocatesIntoElseIf("program", ["expression", "LEFT_BRACE", "RIGHT_BRACE"]);
    }
  }

  /**
   * So the reduction takes the tokens from the `ELSEIF` on: the `else if`
   * and its braces go to `ifStatement` while the second `if` stays in the
   * list.
   */
  lemma AsWrittenIfTakesElseIf(st: State)
    requires Names(st.tokens) == ElseIfThenIf()
    ensures var c := Consume(st.tokens, st.ledger, 1, ElseIfThenIf()[5..9], []);
            c.Ok? && c.value.taken == st.tokens[1..5] &&
            Names(c.value.taken) == ["ELSEIF", "expression", "LEFT_BRACE", "RIGHT_BRACE"] &&
            Names(c.value.taken) != ElseIfThenIf()[5..9]
  {
    ConsumeSpan(st.tokens, st.ledger, 1, ElseIfThenIf()[5..9], []);
    NamesSlice(st.tokens, 1, 5);
  }

  /** Corrected, the same call takes exactly the second `if` and its braces. */
  lemma IntendedIfTakesIf(st: State, rule: Rule)
    requires Names(st.tokens) == ElseIfThenIf() && rule.pattern == IfPattern()
    ensures Locate(st, rule, [], 0, Intended) == Some((5, ElseIfThenIf()[5..9]))
    ensures var c := Consume(st.tokens, st.ledger, 5, ElseIfThenIf()[5..9], []);
            c.Ok? && c.value.taken == st.tokens[5..9] && Names(c.value.taken) == ElseIfThenIf()[5..9]
  {
    PlainMap(st);
    IfMatchesSecondIf();
    LocateIntended(st, rule, 0);
    ConsumeSpan(st.tokens, st.ledger, 5, ElseIfThenIf()[5..9], []);
    NamesSlice(st.tokens, 5, 9);
  }

  // ---------------------------------------------------------------------
  // A `return` at the end of the list
  // ---------------------------------------------------------------------

  /**
   * `x; return y` at the top level: after the first passes the list ends
   * in `RETURN expression`. As written the checker reads the token after
   * the expression and throws; corrected, it accepts the `return`.
   */
  lemma ReturnAtEndAsWrittenThrows(tokens: seq<Token>)
    requires Names(tokens) == ["program", "SEMICOLON", "RETURN", "expression"]
    ensures ReturnCheck(AsWritten)(tokens, 2) == Threw(IndexOutOfBounds)
    ensures ReturnCheck(Intended)(tokens, 2) == Ok(true)
  {
  }
}
