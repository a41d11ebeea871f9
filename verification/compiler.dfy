/**
 * `Compiler`: the lexer table of `initLexer`, the grammar of `parse` (a
 * fixed list of `replace` calls, run in order), and the two hooks
 * `afterLex` and `afterParse`.
 *
 * The builders of `SyntaxTreeBinder` whose source is not part of this
 * model (variables, functions, calls, `continue`, `break`, `return`,
 * value-as-program) are parameters, collected in `Unseen`.
 *
 * `mode` selects between the source as written and the corrected model
 * of its two defects in this file and in `Parser`: the relocation of a
 * match, and the `return` checker reading past the end of the list.
 */
module Compiler {
  import opened Base
  import opened Tokens
  import opened Patterns
  import opened Errors
  import opened Parser
  import Lexer
  import Binder
  import SyntaxTree

  // ---------------------------------------------------------------------
  // initLexer
  // ---------------------------------------------------------------------

  /** The custom recognizers, in registration order. */
  function CustomTable(): seq<(string, Lexer.Custom)>
  {
    [("NEWLINE", Lexer.Newlines), ("TXT", Lexer.StringLiteral)]
  }

  /** The regular expressions, in registration order. */
  function RegexTable(): seq<(string, Lexer.Regex)>
  {
    [ ("NUM", Lexer.Number),
      ("BOOL", Lexer.Literals(["true", "false"])),
      ("NULL", Lexer.Literals(["null"])),
      ("PRINT", Lexer.Literals(["print "])),
      ("SEMICOLON", Lexer.Literals([";"])),
      ("EXPONENTIATION", Lexer.Literals(["**"])),
      ("OP1", Lexer.Literals(["*", "/", "%"])),
      ("OP2", Lexer.Literals(["-", "+"])),
      ("OP3", Lexer.Literals(["||", "|", "and", "&&", "&", "or", "^", ">>", "<<"])),
      ("COMP", Lexer.Literals(["!=", "==", "<=", ">=", "<", ">"])),
      ("SET", Lexer.Literals(["="])),
      ("WHILE", Lexer.Literals(["while "])),
      ("IF", Lexer.Literals(["if "])),
      ("ELSEIF", Lexer.Literals(["else if "])),
      ("ELSE", Lexer.Literals(["else"])),
      ("IGNORE", Lexer.Blank),
      ("LEFT_BRACE", Lexer.Literals(["{"])),
      ("RIGHT_BRACE", Lexer.Literals(["}"])),
      ("LEFT_PARENTHESIS", Lexer.Literals(["("])),
      ("RIGHT_PARENTHESIS", Lexer.Literals([")"])),
      ("VAR", Lexer.Literals(["var "])),
      ("FUNC", Lexer.Literals(["func "])),
      ("RETURN", Lexer.Literals(["return"])),
      ("CONTINUE", Lexer.Literals(["continue"])),
      ("BREAK", Lexer.Literals(["break"])),
      ("COMMA", Lexer.Literals([","])),
      ("ID", Lexer.Word) ]
  }

  /** `add` for each entry, in order. */
  function Registered(c: Lexer.Config, table: seq<(string, Lexer.Regex)>): Lexer.Config
    decreases |table|
  {
    if table == [] then c else Registered(Lexer.Add(c, table[0].0, table[0].1), table[1..])
  }

  /** `initLexer` on a new `Lexer`. */
  function InitLexer(): Lexer.Config
  {
    var c := Lexer.AddCustom(Lexer.AddCustom(Lexer.Empty(), "NEWLINE", Lexer.Newlines), "TXT", Lexer.StringLiteral);
    Registered(c, RegexTable())
  }

  /** The entry names, in order. */
  function Keys<V>(es: seq<(string, V)>): (ks: seq<string>)
    ensures |ks| == |es|
    ensures forall i :: 0 <= i < |es| ==> ks[i] == es[i].0
  {
    if es == [] then [] else [es[0].0] + Keys(es[1..])
  }

  /** No name occurs twice. */
  predicate NoRepeats(ks: seq<string>)
  {
    forall i, j :: 0 <= i < j < |ks| ==> ks[i] != ks[j]
  }

  /** Registering entries with fresh, pairwise different names appends them in order. */
  lemma {:induction false} RegisteredAppends(c: Lexer.Config, table: seq<(string, Lexer.Regex)>)
    requires NoRepeats(Keys(c.regexes + table))
    ensures Registered(c, table) == Lexer.Config(c.custom, c.regexes + table)
    decreases |table|
  {
    if table != [] {
      var all := Keys(c.regexes + table);
      var n := |c.regexes|;
      forall i | 0 <= i < n
        ensures c.regexes[i].0 != table[0].0
      {
        assert all[i] == c.regexes[i].0 && all[n] == table[0].0;
      }
      var c' := Lexer.Add(c, table[0].0, table[0].1);
      assert c'.regexes == c.regexes + [table[0]];
      assert c'.regexes + table[1..] == c.regexes + table;
      RegisteredAppends(c', table[1..]);
    }
  }

  /**
   * The lexer's priority is the order of `initLexer`: its names are all
   * different, so every `add` appends to the `LinkedHashMap`.
   */
  lemma InitLexerTable()
    ensures InitLexer() == Lexer.Config(CustomTable(), RegexTable())
  {
    TableNamesDiffer();
    var c := Lexer.AddCustom(Lexer.AddCustom(Lexer.Empty(), "NEWLINE", Lexer.Newlines), "TXT", Lexer.StringLiteral);
    CustomsFirst();
    AppendToNone(c.regexes, RegexTable());
    RegisteredAppends(c, RegexTable());
  }

  lemma AppendToNone<T>(a: seq<T>, b: seq<T>)
    requires a == []
    ensures a + b == b
  {
  }

  lemma CustomsFirst()
    ensures Lexer.AddCustom(Lexer.AddCustom(Lexer.Empty(), "NEWLINE", Lexer.Newlines), "TXT", Lexer.StringLiteral) ==
            Lexer.Config(CustomTable(), [])
  {
  }

  /**
   * A fingerprint of a name: its length, first and last character. It
   * tells the table's names apart without comparing them letter by letter.
   */
  function Fingerprint(s: string): int
  {
    if s == [] then 0 else |s| * 1000000 + (s[0] as int) * 1000 + s[|s| - 1] as int
  }

  /** Where a name sits in the table, read off its fingerprint. */
  function Slot(s: string): int
  {
    var g := Fingerprint(s);
    if g == 3078077 then 0
    else if g == 4066076 then 1
    else if g == 4078076 then 2
    else if g == 5080084 then 3
    else if g == 9083078 then 4
    else if g == 14069078 then 5
    else if g == 3079049 then 6
    else if g == 3079050 then 7
    else if g == 3079051 then 8
    else if g == 4067080 then 9
    else if g == 3083084 then 10
    else if g == 5087069 then 11
    else if g == 2073070 then 12
    else if g == 6069070 then 13
    else if g == 4069069 then 14
    else if g == 6073069 then 15
    else if g == 10076069 then 16
    else if g == 11082069 then 17
    else if g == 16076083 then 18
    else if g == 17082083 then 19
    else if g == 3086082 then 20
    else if g == 4070067 then 21
    else if g == 6082078 then 22
    else if g == 8067069 then 23
    else if g == 5066075 then 24
    else if g == 5067065 then 25
    else if g == 2073068 then 26
    else -1
  }

  lemma SlotsFirst()
    ensures forall i | 0 <= i < 9 :: Slot(RegexTable()[i].0) == i
  {
    var t := RegexTable();
    forall i | 0 <= i < 9 ensures Slot(t[i].0) == i {}
  }

  lemma SlotsMiddle()
    ensures forall i | 9 <= i < 18 :: Slot(RegexTable()[i].0) == i
  {
    var t := RegexTable();
    forall i | 9 <= i < 18 ensures Slot(t[i].0) == i {}
  }

  lemma SlotsLast()
    ensures forall i | 18 <= i < 27 :: Slot(RegexTable()[i].0) == i
  {
    var t := RegexTable();
    forall i | 18 <= i < 27 ensures Slot(t[i].0) == i {}
  }

  /** Names whose slots are their own positions never repeat. */
  lemma SlotsApart(ks: seq<string>)
    requires forall i | 0 <= i < |ks| :: Slot(ks[i]) == i
    ensures NoRepeats(ks)
  {
    forall i, j | 0 <= i < j < |ks| ensures ks[i] != ks[j] {
      assert Slot(ks[i]) == i && Slot(ks[j]) == j;
    }
  }

  lemma TableNamesDiffer()
    ensures NoRepeats(Keys(RegexTable()))
  {
    var t := RegexTable();
    SlotsFirst();
    SlotsMiddle();
    SlotsLast();
    var ks := Keys(t);
    assert |ks| == 27;
    assert forall i | 0 <= i < |ks| :: Slot(ks[i]) == i by {
      forall i | 0 <= i < |ks| ensures Slot(ks[i]) == i {
        assert ks[i] == t[i].0;
      }
    }
    SlotsApart(ks);
  }

  // ---------------------------------------------------------------------
  // Checkers
  // ---------------------------------------------------------------------

  /** A name `return`'s checker treats as an operator: `OP*`, `EXPONENTIATION`, `COMP`. */
  predicate IsOperatorName(name: string)
  {
    StartsWith(name, "OP") || name == "EXPONENTIATION" || name == "COMP"
  }

  /**
   * The checker of the `return` rule: a `return` at the start is always a
   * statement; elsewhere it is one unless the token two places after it
   * is an operator, which would still belong to the returned expression.
   * As written it reads that token even when the list ends before it.
   */
  function ReturnCheck(mode: Relocation): Checker
  {
    (tokens: seq<Token>, index: int) =>
      if index == 0 then Ok(true)
      else if 0 <= index + 2 < |tokens| then Ok(!IsOperatorName(tokens[index + 2].name))
      else if mode.Intended? && index + 2 >= |tokens| then Ok(true)
      else Threw(IndexOutOfBounds)
  }

  /** The corrected checker never throws inside the list, and turns a `return` down exactly before an operator. */
  lemma ReturnCheckIntended(tokens: seq<Token>, index: int)
    requires 0 <= index < |tokens|
    ensures ReturnCheck(Intended)(tokens, index).Ok?
    ensures !ReturnCheck(Intended)(tokens, index).value <==>
              index != 0 && index + 2 < |tokens| && IsOperatorName(tokens[index + 2].name)
  {
  }

  /** As written and corrected agree whenever the token two places on exists. */
  lemma ReturnCheckAgree(tokens: seq<Token>, index: int)
    requires index == 0 || 0 <= index + 2 < |tokens|
    ensures ReturnCheck(AsWritten)(tokens, index) == ReturnCheck(Intended)(tokens, index)
  {
  }

  /**
   * The checker of the expression-to-program rule: at the start, or after
   * a token whose name is not all upper case (a grammar symbol rather than
   * a lexer token such as `IF` or `RETURN`).
   */
  function ProgramCheck(): Checker
  {
    (tokens: seq<Token>, index: int) =>
      if index == 0 then Ok(true)
      else if 0 <= index - 1 < |tokens| then Ok(!IsUpperCase(tokens[index - 1].name))
      else Threw(IndexOutOfBounds)
  }

  /** An expression becomes a program exactly when nothing precedes it or its predecessor has a lower-case letter. */
  lemma ProgramCheckMeaning(tokens: seq<Token>, index: int)
    requires 0 <= index <= |tokens|
    ensures ProgramCheck()(tokens, index).Ok?
    ensures index == 0 ==> ProgramCheck()(tokens, index).value
    ensures index > 0 ==> var name := tokens[index - 1].name;
              ProgramCheck()(tokens, index).value <==> exists i :: 0 <= i < |name| && 'a' <= name[i] <= 'z'
  {
    if index > 0 {
      IsUpperCaseIff(tokens[index - 1].name);
    }
  }

  // ---------------------------------------------------------------------
  // The grammar
  // ---------------------------------------------------------------------

  /** The builders of `SyntaxTreeBinder` whose source is not part of this model. */
  datatype Unseen = Unseen(
    setVariable: Builder,
    variableDeclaration: Builder,
    functionDeclaration: Builder,
    callFunction: Builder,
    variable: Builder,
    callFunction1: Builder,
    continueStatement: Builder,
    breakStatement: Builder,
    returnStatement: Builder,
    setVariable1: Builder,
    functionDeclaration1: Builder,
    valueAsProgram: Builder)

  /** One `replace` call of `parse`: the rule and the removed names it includes. */
  datatype Call = Call(rule: Rule, included: seq<string>)

  /** A rule without checker. */
  function Plain(pattern: seq<Pat>, newName: string, build: Builder): Rule
  {
    Rule(pattern, newName, build, None)
  }

  function OperatorRule(op: string, c: Binder.OpClass): Rule
  {
    Plain([Tag("expression"), Tag(op), Tag("expression")], "expression", ts => Binder.Yield(Binder.Operation(c, ts)))
  }

  /** `IF expression LEFT_BRACE (program )?RIGHT_BRACE`. */
  function IfPattern(): seq<Pat>
  {
    [Tag("IF"), Tag("expression"), Tag("LEFT_BRACE"), Opt([Tag("program")]), Tag("RIGHT_BRACE")]
  }

  function ReturnRule(u: Unseen, mode: Relocation): Rule
  {
    Rule([Tag("RETURN"), Opt([Tag("expression")])], "program", u.returnStatement, Some(ReturnCheck(mode)))
  }

  /** `program( (NEWLINE|SEMICOLON) program)+`, the one rule that sees removed line breaks. */
  function ProgramsCall(): Call
  {
    Call(Plain([Tag("program"), Plus([OneOf(["NEWLINE", "SEMICOLON"]), Tag("program")])], "program",
               ts => Binder.Yield(Binder.Programs(ts))),
         ["NEWLINE"])
  }

  /** The `replace` calls of `parse`, in order: literals and names, the operators, then the statements. */
  function Rules(u: Unseen, mode: Relocation): (rs: seq<Call>)
    ensures |rs| == 27
  {
    LeafRules(u) + OperatorRules() + StatementRules(u, mode)
  }

  /** The first nine calls: literals, declarations, calls and names. */
  function LeafRules(u: Unseen): (rs: seq<Call>)
    ensures |rs| == 9 && forall i :: 0 <= i < |rs| ==> rs[i].included == []
  {
    [ Call(Plain([Tag("NUM")], "expression", ts => Binder.Yield(Binder.NumberExpression(ts))), []),
      Call(Plain([Tag("TXT")], "expression", ts => Binder.Yield(Binder.TextExpression(ts))), []),
      Call(Plain([Tag("BOOL")], "expression", ts => Binder.Yield(Binder.BoolExpression(ts))), []),
      Call(Plain([Tag("NULL")], "expression", ts => Binder.Yield(Binder.NullExpression(ts))), []),
      Call(Plain([Opt([Tag("VAR")]), Tag("ID"), Tag("SET")], "variable_set", u.setVariable), []),
      Call(Plain([Tag("VAR"), Tag("ID")], "program", u.variableDeclaration), []),
      Call(Plain([Tag("FUNC"), Tag("ID"), Tag("LEFT_PARENTHESIS"),
                  Opt([Tag("ID"), Star([Tag("COMMA"), Tag("ID")])]),
                  Tag("RIGHT_PARENTHESIS"), Tag("LEFT_BRACE")], "declare_function", u.functionDeclaration), []),
      Call(Plain([Tag("ID"), Tag("LEFT_PARENTHESIS")], "call_function", u.callFunction), []),
      Call(Plain([Tag("ID")], "expression", u.variable), []) ]
  }

  /** The five operator calls, tightest binding first. */
  function OperatorRules(): (rs: seq<Call>)
    ensures |rs| == 5 && forall i :: 0 <= i < |rs| ==> rs[i].included == []
  {
    [ Call(OperatorRule("EXPONENTIATION", Binder.Exponent), []),
      Call(OperatorRule("OP1", Binder.Priority1), []),
      Call(OperatorRule("OP2", Binder.Priority2), []),
      Call(OperatorRule("COMP", Binder.Comparison), []),
      Call(OperatorRule("OP3", Binder.Priority3), []) ]
  }

  /** The last thirteen calls: call arguments, statements, blocks, sequencing and the bare value. */
  function StatementRules(u: Unseen, mode: Relocation): (rs: seq<Call>)
    ensures |rs| == 13 && rs[11].included == ["NEWLINE"]
    ensures forall i :: 0 <= i < |rs| && i != 11 ==> rs[i].included == []
  {
    [ Call(Plain([Tag("call_function"), Opt([Tag("expression"), Star([Tag("COMMA"), Tag("expression")])]),
                  Tag("RIGHT_PARENTHESIS")], "expression", u.callFunction1), []),
      Call(Plain([Tag("CONTINUE")], "program", u.continueStatement), []),
      Call(Plain([Tag("BREAK")], "program", u.breakStatement), []),
      Call(Plain([Tag("PRINT"), Tag("expression")], "program", ts => Binder.Yield(Binder.PrintStatement(ts))), []),
      Call(ReturnRule(u, mode), []),
      Call(Plain([Tag("variable_set"), Tag("expression")], "program", u.setVariable1), []),
      Call(Plain(IfPattern(), "program", ts => Binder.Yield(Binder.IfStatement(ts))), []),
      Call(Plain([Tag("program"), Tag("ELSEIF"), Tag("expression"), Tag("LEFT_BRACE"), Opt([Tag("program")]),
                  Tag("RIGHT_BRACE")], "program", Binder.ElseIfStatement), []),
      Call(Plain([Tag("program"), Tag("ELSE"), Tag("LEFT_BRACE"), Opt([Tag("program")]), Tag("RIGHT_BRACE")],
                 "program", Binder.ElseStatement), []),
      Call(Plain([Tag("WHILE"), Tag("expression"), Tag("LEFT_BRACE"), Opt([Tag("program")]), Tag("RIGHT_BRACE")],
                 "program", ts => Binder.Yield(Binder.WhileStatement(ts))), []),
      Call(Plain([Tag("declare_function"), Opt([Tag("program")]), Tag("RIGHT_BRACE")], "program",
                 u.functionDeclaration1), []),
      ProgramsCall(),
      Call(Rule([Tag("expression")], "program", u.valueAsProgram, Some(ProgramCheck())), []) ]
  }

  /** The operator rules run in order of binding: `**`, then `* / %`, `+ -`, comparisons, then the rest. */
  lemma OperatorOrder(u: Unseen, mode: Relocation)
    ensures var rs := Rules(u, mode);
            rs[9].rule.pattern == [Tag("expression"), Tag("EXPONENTIATION"), Tag("expression")] &&
            rs[10].rule.pattern == [Tag("expression"), Tag("OP1"), Tag("expression")] &&
            rs[11].rule.pattern == [Tag("expression"), Tag("OP2"), Tag("expression")] &&
            rs[12].rule.pattern == [Tag("expression"), Tag("COMP"), Tag("expression")] &&
            rs[13].rule.pattern == [Tag("expression"), Tag("OP3"), Tag("expression")]
  {
    var rs, ops := Rules(u, mode), OperatorRules();
    var front := LeafRules(u) + ops;
    assert rs == front + StatementRules(u, mode);
    assert rs[9] == ops[0] && rs[10] == ops[1] && rs[11] == ops[2] && rs[12] == ops[3] && rs[13] == ops[4];
  }

  /** Only the sequencing rule includes removed tokens, and only the line breaks. */
  lemma OnlyProgramsIncludes(u: Unseen, mode: Relocation)
    ensures var rs := Rules(u, mode);
            rs[25].included == ["NEWLINE"] &&
            forall i :: 0 <= i < |rs| && i != 25 ==> rs[i].included == []
  {
    var rs, leaves, ops, statements := Rules(u, mode), LeafRules(u), OperatorRules(), StatementRules(u, mode);
    assert rs == (leaves + ops) + statements;
    forall i | 0 <= i < |rs| && i != 25 ensures rs[i].included == [] {
      if i < 9 {
        assert rs[i] == leaves[i];
      } else if i < 14 {
        assert rs[i] == ops[i - 9];
      } else {
        assert rs[i] == statements[i - 14];
      }
    }
    assert rs[25] == statements[11];
  }

  /**
   * `parse`: every `replace` call in order, each starting with no skipped
   * match. An exception leaves `parse` at once.
   */
  function ParseCalls(st: State, e: ErrorState, calls: seq<Call>, fuel: nat, mode: Relocation): (o: Outcome)
    ensures o.result.Ok? ==> Total(o.result.value) <= Total(st)
    ensures Keeps(e, o.errors)
    decreases |calls|
  {
    if calls == [] then Outcome(Ok(st), e)
    else
      var o := Replace(st, e, calls[0].rule, calls[0].included, 0, fuel, mode);
      if o.result.Ok? then ParseCalls(o.result.value, o.errors, calls[1..], fuel, mode) else o
  }

  function Parse(st: State, e: ErrorState, u: Unseen, fuel: nat, mode: Relocation): Outcome
  {
    ParseCalls(st, e, Rules(u, mode), fuel, mode)
  }

  // ---------------------------------------------------------------------
  // afterLex and afterParse
  // ---------------------------------------------------------------------

  /**
   * `afterLex`: the line breaks move to the ledger, so only rules that
   * include them see them; lexing succeeded when no error is flagged.
   */
  function AfterLex(st: State, e: ErrorState): (r: (State, bool))
    ensures r.1 <==> !WasThereAnError(e)
    ensures !Contains(r.0.tokens, "NEWLINE")
    ensures |r.0.ledger| == |st.ledger| + Count(st.tokens, "NEWLINE")
    ensures r.0.ledger[..|st.ledger|] == st.ledger
    ensures forall i :: |st.ledger| <= i < |r.0.ledger| ==> r.0.ledger[i].token.name == "NEWLINE"
    ensures |r.0.tokens| + Count(st.tokens, "NEWLINE") == |st.tokens|
  {
    RemoveCounts(st.tokens, "NEWLINE", 0);
    var r := Remove(st, "NEWLINE");
    assert r.ledger[..|st.ledger|] == st.ledger;
    (r, !WasThereAnError(e))
  }

  /**
   * `afterParse`: the object of the first token. As written an empty list
   * throws; corrected, an empty program is an empty `Blocks`.
   */
  function AfterParse(st: State, mode: Relocation): (r: Attempt<Option<SyntaxTree.Node>>)
    ensures |st.tokens| > 0 ==> r == Ok(st.tokens[0].obj)
    ensures |st.tokens| == 0 ==> (mode.AsWritten? <==> r == Threw(IndexOutOfBounds))
    ensures |st.tokens| == 0 && mode.Intended? ==> r == Ok(Some(SyntaxTree.Blocks([])))
  {
    if |st.tokens| > 0 then Ok(st.tokens[0].obj)
    else if mode.AsWritten? then Threw(IndexOutOfBounds)
    else Ok(Some(SyntaxTree.Blocks([])))
  }
}
