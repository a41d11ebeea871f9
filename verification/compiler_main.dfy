/**
 * `CompilerMain`: lexing with the compiler's table, then `parse` run again
 * and again until a pass leaves the parser's map as it found it, then
 * `afterParse`.
 *
 * The Java loop has no bound; `passes` bounds it here, and `fuel` bounds
 * each `replace` as in `Parser`. The `Errors` state is not cleared by
 * `compile`, so it is a parameter.
 */
module CompilerMain {
  import opened Base
  import opened Tokens
  import opened Errors
  import opened Parser
  import opened Compiler
  import Lexer
  import SyntaxTree

  /** What `lex` leaves: the parser, or none when an error is flagged; and the `Errors` state. */
  datatype Lexed = Lexed(parser: Option<State>, errors: ErrorState)

  /** The result of `compile` and the `Errors` state after it. */
  datatype Compiled = Compiled(result: Attempt<Option<SyntaxTree.Node>>, errors: ErrorState)

  /** A name no token of the list carries. */
  predicate Absent(ts: seq<Token>, name: string)
  {
    forall i :: 0 <= i < |ts| ==> ts[i].name != name
  }

  /** Dropping tokens of one name cannot bring in a token of another. */
  lemma {:induction false} KeptStaysAbsent(ts: seq<Token>, name: string, other: string)
    requires Absent(ts, other)
    ensures Absent(Kept(ts, name), other)
  {
    if ts != [] {
      assert Absent(ts[1..], other) by {
        forall i | 0 <= i < |ts[1..]| ensures ts[1..][i].name != other {
          assert ts[1..][i] == ts[i + 1];
        }
      }
      KeptStaysAbsent(ts[1..], name, other);
    }
  }

  lemma CountZeroAbsent(ts: seq<Token>, name: string)
    requires Count(ts, name) == 0
    ensures Absent(ts, name)
  {
    if ts != [] {
      CountZeroAbsent(ts[1..], name);
      assert forall i :: 1 <= i < |ts| ==> ts[i] == ts[1..][i - 1];
    }
  }

  /** A failed lexing raised the flag on top of what was there. */
  lemma LexFailureRaises(code: string, e: ErrorState, lx: Lexer.LexResult)
    requires lx.ok ==> lx.errors == e
    requires !lx.ok ==> Lexer.IsSyntaxError(code, code, e, lx.errors)
    ensures Keeps(e, lx.errors)
    ensures !lx.ok ==> WasThereAnError(lx.errors)
  {
    if !lx.ok {
      var p :| lx.errors == Raise(e, SyntaxError(p, code));
    }
  }

  /** After purging the blanks and removing the line breaks, neither is left in the list. */
  lemma PreparedAbsent(ts: seq<Token>)
    requires Absent(ts, "IGNORE")
    ensures Absent(Kept(ts, "NEWLINE"), "IGNORE") && Absent(Kept(ts, "NEWLINE"), "NEWLINE")
  {
    KeptStaysAbsent(ts, "NEWLINE", "IGNORE");
    RemoveCounts(ts, "NEWLINE", 0);
    CountZeroAbsent(Kept(ts, "NEWLINE"), "NEWLINE");
  }

  /**
   * `lex`: the code lexed with the table of `initLexer`, blanks purged,
   * line breaks removed to the ledger; no parser when an error is flagged,
   * whether by this lexing or earlier.
   */
  function LexPhase(c: Lexer.Config, lit: Lexer.LitScanner, code: string, e: ErrorState): (r: Lexed)
    ensures r.parser.None? <==> WasThereAnError(r.errors)
    ensures Keeps(e, r.errors)
    ensures r.parser.Some? ==> r.errors == e
    ensures r.parser.Some? ==> var st := r.parser.value;
              Absent(st.tokens, "IGNORE") && Absent(st.tokens, "NEWLINE") &&
              forall i :: 0 <= i < |st.ledger| ==> st.ledger[i].token.name == "NEWLINE"
  {
    var lx := Lexer.Lex(c, lit, code, e);
    var purged := Purge(State(lx.tokens, []), "IGNORE");
    var (st, ok) := AfterLex(purged, lx.errors);
    LexFailureRaises(code, e, lx);
    PreparedAbsent(purged.tokens);
    Lexed(if ok then Some(st) else None, lx.errors)
  }

  /** A lexed program loses only its blanks: weaving the line breaks back gives every other token, in order. */
  lemma LexPhaseKeepsTokens(c: Lexer.Config, lit: Lexer.LitScanner, code: string, e: ErrorState)
    requires !WasThereAnError(e)
    ensures var lx := Lexer.Lex(c, lit, code, e);
            var r := LexPhase(c, lit, code, e);
            (r.parser.Some? <==> lx.ok) &&
            (r.parser.Some? ==> Weave(r.parser.value.tokens, r.parser.value.ledger, 0) == Kept(lx.tokens, "IGNORE") &&
                                Lexer.Texts(lx.tokens) == code)
  {
    var lx := Lexer.Lex(c, lit, code, e);
    var ts := Kept(lx.tokens, "IGNORE");
    RemoveRoundTrip(ts, "NEWLINE", 0);
    assert [] + Ledger(ts, "NEWLINE", 0) == Ledger(ts, "NEWLINE", 0);
    if !lx.ok {
      var p :| lx.errors == Raise(e, SyntaxError(p, code));
    }
  }

  /**
   * The loop of `compile`: while the map differs from the one seen before
   * the last pass, remember it and run `parse` (the `replace` calls
   * `calls`) once more. An exception
   * from `parse` ends `compile`.
   */
  function Loop(st: State, e: ErrorState, seen: Option<string>, calls: seq<Call>, passes: nat, fuel: nat, mode: Relocation): (o: Outcome)
    ensures o.result.Ok? ==> Total(o.result.value) <= Total(st)
    ensures Keeps(e, o.errors)
    decreases passes
  {
    if seen == Some(GetMap(st, [])) then Outcome(Ok(st), e)
    else if passes == 0 then Outcome(OutOfFuel, e)
    else
      var o := ParseCalls(st, e, calls, fuel, mode);
      if o.result.Ok? then Loop(o.result.value, o.errors, Some(GetMap(st, [])), calls, passes - 1, fuel, mode)
      else o
  }

  /**
   * The loop stops at a fixpoint of `parse`: either the map already was
   * the one seen, or `last` is a state whose parse gave the final state
   * without changing the map.
   */
  lemma {:induction false} LoopStopsAtFixpoint(st: State, e: ErrorState, seen: Option<string>, calls: seq<Call>, passes: nat, fuel: nat, mode: Relocation)
    returns (last: State, lastErrors: ErrorState)
    ensures var o := Loop(st, e, seen, calls, passes, fuel, mode);
            o.result.Ok? ==>
              (seen == Some(GetMap(st, [])) && o == Outcome(Ok(st), e)) ||
              (ParseCalls(last, lastErrors, calls, fuel, mode) == o && GetMap(last, []) == GetMap(o.result.value, []))
    decreases passes
  {
    last, lastErrors := st, e;
    if seen != Some(GetMap(st, [])) && passes > 0 {
      var o := ParseCalls(st, e, calls, fuel, mode);
      if o.result.Ok? {
        var next := o.result.value;
        var l, le := LoopStopsAtFixpoint(next, o.errors, Some(GetMap(st, [])), calls, passes - 1, fuel, mode);
        if GetMap(st, []) != GetMap(next, []) {
          last, lastErrors := l, le;
        }
      }
    }
  }

  /**
   * `compile` with the lexer table `c` and the `replace` calls `calls` of
   * `parse`: no parser gives the shared empty `Blocks`;
   * otherwise the parse loop, then `afterParse`.
   */
  function Compile(c: Lexer.Config, lit: Lexer.LitScanner, code: string, e: ErrorState, calls: seq<Call>, passes: nat, fuel: nat, mode: Relocation): (r: Compiled)
    ensures WasThereAnError(LexPhase(c, lit, code, e).errors) ==> r == Compiled(Ok(Some(SyntaxTree.Blocks([]))), LexPhase(c, lit, code, e).errors)
    ensures Keeps(e, r.errors)
  {
    var lexed := LexPhase(c, lit, code, e);
    match lexed.parser
    case None => Compiled(Ok(Some(SyntaxTree.Blocks([]))), lexed.errors)
    case Some(st) =>
      var o := Loop(st, lexed.errors, None, calls, passes, fuel, mode);
      match o.result
      case Ok(final) => Compiled(AfterParse(final, mode), o.errors)
      case Threw(x) => Compiled(Threw(x), o.errors)
      case OutOfFuel => Compiled(OutOfFuel, o.errors)
  }

  /** `compile` as the compiler runs it: the table of `initLexer` and the rules of `parse`. */
  function CompileSource(lit: Lexer.LitScanner, code: string, e: ErrorState, u: Unseen, passes: nat, fuel: nat, mode: Relocation): Compiled
  {
    Compile(InitLexer(), lit, code, e, Rules(u, mode), passes, fuel, mode)
  }

  // ---------------------------------------------------------------------
  // An empty program
  // ---------------------------------------------------------------------

  /** Lexing no code gives no tokens and flags nothing. */
  lemma EmptyCodeLexes(c: Lexer.Config, lit: Lexer.LitScanner, e: ErrorState)
    requires !WasThereAnError(e)
    ensures LexPhase(c, lit, "", e) == Lexed(Some(State([], [])), e)
  {
  }

  /** With no tokens, `find` has nothing to match. */
  lemma EmptyLocate(st: State, rule: Rule, included: seq<string>, ignore: nat, mode: Relocation)
    requires st.tokens == []
    ensures Locate(st, rule, included, ignore, mode) == None
  {
    assert |WordsOf(st, included)| == 0;
  }

  /** `parse` leaves a list without tokens as it is, whatever its rules. */
  lemma {:induction false} EmptyParseCalls(st: State, e: ErrorState, calls: seq<Call>, fuel: nat, mode: Relocation)
    requires st.tokens == [] && fuel >= 1
    ensures ParseCalls(st, e, calls, fuel, mode) == Outcome(Ok(st), e)
    decreases |calls|
  {
    if calls != [] {
      EmptyLocate(st, calls[0].rule, calls[0].included, 0, mode);
      assert Replace(st, e, calls[0].rule, calls[0].included, 0, fuel, mode) == Outcome(Ok(st), e);
      EmptyParseCalls(st, e, calls[1..], fuel, mode);
    }
  }

  /** The loop of `compile` stops after one pass on a list without tokens. */
  lemma EmptyLoop(st: State, e: ErrorState, calls: seq<Call>, passes: nat, fuel: nat, mode: Relocation)
    requires st.tokens == [] && passes >= 1 && fuel >= 1
    ensures Loop(st, e, None, calls, passes, fuel, mode) == Outcome(Ok(st), e)
  {
    EmptyParseCalls(st, e, calls, fuel, mode);
  }

  /**
   * A program that lexes to no tokens: as written `afterParse` throws
   * `IndexOutOfBounds`; corrected, it compiles to the empty `Blocks`.
   */
  lemma EmptyProgramCompiles(c: Lexer.Config, lit: Lexer.LitScanner, code: string, e: ErrorState, calls: seq<Call>, passes: nat, fuel: nat, mode: Relocation)
    requires passes >= 1 && fuel >= 1
    requires LexPhase(c, lit, code, e).parser.Some? && LexPhase(c, lit, code, e).parser.value.tokens == []
    ensures var r := Compile(c, lit, code, e, calls, passes, fuel, mode);
            r.errors == e &&
            (mode.AsWritten? ==> r.result == Threw(IndexOutOfBounds)) &&
            (mode.Intended? ==> r.result == Ok(Some(SyntaxTree.Blocks([]))))
  {
    var lexed := LexPhase(c, lit, code, e);
    EmptyLoop(lexed.parser.value, lexed.errors, calls, passes, fuel, mode);
  }

  /** An empty source compiles as any program that lexes to no tokens, whatever the lexer table and rules. */
  lemma EmptySourceCompiles(c: Lexer.Config, lit: Lexer.LitScanner, calls: seq<Call>, passes: nat, fuel: nat, mode: Relocation)
    requires passes >= 1 && fuel >= 1
    ensures var r := Compile(c, lit, "", Cleared(), calls, passes, fuel, mode);
            r.errors == Cleared() &&
            (mode.AsWritten? ==> r.result == Threw(IndexOutOfBounds)) &&
            (mode.Intended? ==> r.result == Ok(Some(SyntaxTree.Blocks([]))))
  {
    EmptyCodeLexes(c, lit, Cleared());
    EmptyProgramCompiles(c, lit, "", Cleared(), calls, passes, fuel, mode);
  }

  /** The empty source as the compiler runs it throws `IndexOutOfBounds` from `afterParse`. */
  lemma EmptySourceAsWrittenThrows(lit: Lexer.LitScanner, u: Unseen, passes: nat, fuel: nat)
    requires passes >= 1 && fuel >= 1
    ensures CompileSource(lit, "", Cleared(), u, passes, fuel, AsWritten).result == Threw(IndexOutOfBounds)
  {
    EmptySourceCompiles(InitLexer(), lit, Rules(u, AsWritten), passes, fuel, AsWritten);
  }

  /** Corrected, the empty source compiles to the empty `Blocks`. */
  lemma EmptySourceIntendedIsEmpty(lit: Lexer.LitScanner, u: Unseen, passes: nat, fuel: nat)
    requires passes >= 1 && fuel >= 1
    ensures CompileSource(lit, "", Cleared(), u, passes, fuel, Intended).result == Ok(Some(SyntaxTree.Blocks([])))
  {
    EmptySourceCompiles(InitLexer(), lit, Rules(u, Intended), passes, fuel, Intended);
  }
}
