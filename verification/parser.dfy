/**
 * `Parser`: the token list being rewritten by the grammar rules, and the
 * ledger of tokens taken out of it by `remove` (each with the position it
 * had in the list when it left). `replace` finds a rule's pattern in the
 * map of token names, works out where the match starts in the list, takes
 * the matched tokens out, and puts one new token in their place, whose
 * object the rule's builder makes from the tokens taken. It repeats until
 * the pattern no longer matches.
 */
module Parser {
  import opened Base
  import opened Tokens
  import opened Patterns
  import SyntaxTree
  import opened Errors

  /** A `RemovedObjectsPair`: a token taken out by `remove`, and its list position then. */
  datatype Removed = Removed(index: int, token: Token)

  /** The token list and the ledger of removed tokens, in the order they were removed. */
  datatype State = State(tokens: seq<Token>, ledger: seq<Removed>)

  // ---------------------------------------------------------------------
  // remove and purge
  // ---------------------------------------------------------------------

  /** The tokens not called `name`, in order. */
  function Kept(ts: seq<Token>, name: string): (r: seq<Token>)
    ensures |r| <= |ts|
    ensures forall i :: 0 <= i < |r| ==> r[i].name != name
  {
    if ts == [] then []
    else if ts[0].name == name then Kept(ts[1..], name)
    else [ts[0]] + Kept(ts[1..], name)
  }

  /**
   * The ledger entries `remove` makes for `ts` when `k` tokens are kept
   * before it: each removed token with the number of tokens kept before it.
   */
  function Ledger(ts: seq<Token>, name: string, k: int): (r: seq<Removed>)
    ensures forall i :: 0 <= i < |r| ==> r[i].token.name == name && k <= r[i].index
  {
    if ts == [] then []
    else if ts[0].name == name then [Removed(k, ts[0])] + Ledger(ts[1..], name, k)
    else Ledger(ts[1..], name, k + 1)
  }

  /** `remove(name)`: every token called `name` moves from the list to the end of the ledger. */
  function Remove(st: State, name: string): State
  {
    State(Kept(st.tokens, name), st.ledger + Ledger(st.tokens, name, 0))
  }

  /** `purge(name)`: every token called `name` leaves the list and is forgotten. */
  function Purge(st: State, name: string): State
  {
    st.(tokens := Kept(st.tokens, name))
  }

  /**
   * The inverse of `remove`: puts each ledger entry back in front of the
   * kept token at its recorded position; `k` tokens precede `kept`.
   */
  function Weave(kept: seq<Token>, entries: seq<Removed>, k: int): seq<Token>
    decreases |kept| + |entries|
  {
    if entries != [] && entries[0].index == k then [entries[0].token] + Weave(kept, entries[1..], k)
    else if kept != [] then [kept[0]] + Weave(kept[1..], entries, k + 1)
    else if entries != [] then [entries[0].token] + Weave(kept, entries[1..], k)
    else []
  }

  /** The ledger `remove` writes is enough to undo it. */
  lemma {:induction false} RemoveRoundTrip(ts: seq<Token>, name: string, k: int)
    ensures Weave(Kept(ts, name), Ledger(ts, name, k), k) == ts
  {
    if ts != [] {
      RemoveRoundTrip(ts[1..], name, if ts[0].name == name then k else k + 1);
      if ts[0].name != name {
        var entries := Ledger(ts[1..], name, k + 1);
        assert entries != [] ==> entries[0].index != k;
      }
    }
  }

  /** How many tokens are called `name`. */
  function Count(ts: seq<Token>, name: string): (n: nat)
    ensures n <= |ts|
  {
    if ts == [] then 0 else (if ts[0].name == name then 1 else 0) + Count(ts[1..], name)
  }

  /** `countStartsWith(prefix)`: how many token names start with `prefix`. */
  function CountStartsWith(ts: seq<Token>, prefix: string): (n: nat)
    ensures n <= |ts|
  {
    if ts == [] then 0 else (if StartsWith(ts[0].name, prefix) then 1 else 0) + CountStartsWith(ts[1..], prefix)
  }

  /** `remove` and `purge` drop exactly the tokens `count` counts, and the ledger grows by as many. */
  lemma {:induction false} RemoveCounts(ts: seq<Token>, name: string, k: int)
    ensures |Kept(ts, name)| + Count(ts, name) == |ts|
    ensures |Ledger(ts, name, k)| == Count(ts, name)
    ensures Count(Kept(ts, name), name) == 0
  {
    if ts != [] {
      RemoveCounts(ts[1..], name, if ts[0].name == name then k else k + 1);
    }
  }

  /** A name counts among the names starting with it: `count(n) <= countStartsWith(n)`. */
  lemma {:induction false} CountBelowCountStartsWith(ts: seq<Token>, name: string)
    ensures Count(ts, name) <= CountStartsWith(ts, name)
  {
    if ts != [] {
      CountBelowCountStartsWith(ts[1..], name);
    }
  }

  lemma KeptSnoc(s: seq<Token>, t: Token, name: string)
    ensures Kept(s + [t], name) == Kept(s, name) + (if t.name == name then [] else [t])
  {
    if s != [] {
      assert (s + [t])[1..] == s[1..] + [t];
      KeptSnoc(s[1..], t, name);
    }
  }

  lemma LedgerSnoc(s: seq<Token>, t: Token, name: string, k: int)
    ensures Ledger(s + [t], name, k) ==
            Ledger(s, name, k) + (if t.name == name then [Removed(k + |Kept(s, name)|, t)] else [])
  {
    if s != [] {
      assert (s + [t])[1..] == s[1..] + [t];
      LedgerSnoc(s[1..], t, name, if s[0].name == name then k else k + 1);
    }
  }

  /** One turn of the loop of `remove` over the `j`-th original token, now at position `i`. */
  lemma RemoveStep(s: seq<Token>, name: string, j: nat, tokens: seq<Token>, i: nat)
    requires j < |s| && tokens == Kept(s[..j], name) + s[j..] && i == |Kept(s[..j], name)|
    ensures i < |tokens| && tokens[i] == s[j]
    ensures s[j].name == name ==>
              tokens[..i] + tokens[i + 1..] == Kept(s[..j + 1], name) + s[j + 1..] &&
              |Kept(s[..j + 1], name)| == i &&
              Ledger(s[..j + 1], name, 0) == Ledger(s[..j], name, 0) + [Removed(i, s[j])]
    ensures s[j].name != name ==>
              tokens == Kept(s[..j + 1], name) + s[j + 1..] &&
              |Kept(s[..j + 1], name)| == i + 1 &&
              Ledger(s[..j + 1], name, 0) == Ledger(s[..j], name, 0)
  {
    var prefix := s[..j];
    assert s[..j + 1] == prefix + [s[j]];
    KeptSnoc(prefix, s[j], name);
    LedgerSnoc(prefix, s[j], name, 0);
    assert s[j..] == [s[j]] + s[j + 1..];
    assert tokens[..i] == Kept(prefix, name);
    assert tokens[i + 1..] == s[j + 1..];
  }

  /** `remove` as the source's loop runs it, stepping back after each removal. */
  method RemoveLoop(st: State, name: string) returns (r: State)
    ensures r == Remove(st, name)
  {
    var tokens := st.tokens;
    var ledger := st.ledger;
    var i := 0;
    ghost var j := 0;
    assert st.tokens[..0] == [] && st.tokens[0..] == st.tokens;
    while i < |tokens|
      invariant 0 <= j <= |st.tokens|
      invariant tokens == Kept(st.tokens[..j], name) + st.tokens[j..]
      invariant i == |Kept(st.tokens[..j], name)|
      invariant ledger == st.ledger + Ledger(st.tokens[..j], name, 0)
      decreases |tokens| - i
    {
      RemoveStep(st.tokens, name, j, tokens, i);
      if tokens[i].name == name {
        ledger := ledger + [Removed(i, tokens[i])];
        tokens := tokens[..i] + tokens[i + 1..];
      } else {
        i := i + 1;
      }
      j := j + 1;
    }
    assert |st.tokens[j..]| == 0;
    assert st.tokens[..j] == st.tokens;
    r := State(tokens, ledger);
  }

  // ---------------------------------------------------------------------
  // contains, findFirst, findAfter
  // ---------------------------------------------------------------------

  /** `contains(name)`. */
  predicate Contains(ts: seq<Token>, name: string)
  {
    Count(ts, name) > 0
  }

  /**
   * `findAfter(i, name)`: the first position from `i` on holding `name`, or
   * -1. A negative start reads `get(i)` and throws.
   */
  function FindAfter(ts: seq<Token>, i: int, name: string): (r: Attempt<int>)
    ensures i < 0 <==> r.Threw?
    ensures i >= 0 ==> r.Ok?
    ensures r.Ok? && r.value != -1 ==> i <= r.value < |ts| && ts[r.value].name == name
    ensures r.Ok? ==> forall k :: i <= k < |ts| && (r.value == -1 || k < r.value) ==> ts[k].name != name
    ensures r.Ok? ==> r.value == -1 || r.value >= 0
    decreases |ts| - i
  {
    if i < 0 then Threw(IndexOutOfBounds)
    else if i >= |ts| then Ok(-1)
    else if ts[i].name == name then Ok(i)
    else FindAfter(ts, i + 1, name)
  }

  /** `findFirst(name)`: the first position holding `name`, or -1. */
  function FindFirst(ts: seq<Token>, name: string): (r: int)
    ensures r == -1 || (0 <= r < |ts| && ts[r].name == name)
    ensures forall k :: 0 <= k < |ts| && (r == -1 || k < r) ==> ts[k].name != name
  {
    FindAfter(ts, 0, name).value
  }

  /** The three queries agree: a name is contained exactly when it is counted and found. */
  lemma {:induction false} QueriesAgree(ts: seq<Token>, name: string)
    ensures Contains(ts, name) <==> FindFirst(ts, name) != -1
    ensures Contains(ts, name) <==> exists k :: 0 <= k < |ts| && ts[k].name == name
  {
    if ts != [] {
      QueriesAgree(ts[1..], name);
      if FindFirst(ts, name) == -1 {
        assert forall k :: 0 <= k < |ts| ==> ts[k].name != name;
        assert forall k :: 0 <= k < |ts[1..]| ==> ts[1..][k].name != name by {
          forall k | 0 <= k < |ts[1..]| ensures ts[1..][k].name != name {
            assert ts[1..][k] == ts[k + 1];
          }
        }
      } else {
        var k :| 0 <= k < |ts[1..]| + 1 && ts[k].name == name;
        if k > 0 {
          assert ts[1..][k - 1].name == name;
        }
      }
      if exists k :: 0 <= k < |ts[1..]| && ts[1..][k].name == name {
        var k :| 0 <= k < |ts[1..]| && ts[1..][k].name == name;
        assert ts[k + 1].name == name;
      }
    }
  }

  // ---------------------------------------------------------------------
  // getMap
  // ---------------------------------------------------------------------

  /** A word of the map: a live token's name, or the name of a ledger token shown after it. */
  datatype Word = LiveWord(name: string) | LedgerWord(name: string)

  /** The first ledger token with an included name recorded at position `idx`. */
  function ShownAt(ledger: seq<Removed>, included: seq<string>, idx: int): (r: seq<Word>)
    ensures |r| <= 1
    ensures forall i :: 0 <= i < |r| ==> r[i].LedgerWord? && r[i].name in included
    ensures included == [] ==> r == []
  {
    if ledger == [] then []
    else if ledger[0].token.name in included && ledger[0].index == idx then [LedgerWord(ledger[0].token.name)]
    else ShownAt(ledger[1..], included, idx)
  }

  /** The map's words from token `i` on: each token, then the included ledger token recorded just after it. */
  function WordsFrom(st: State, included: seq<string>, i: nat): (r: seq<Word>)
    ensures |r| >= |st.tokens| - i
    decreases |st.tokens| - i
  {
    if i >= |st.tokens| then []
    else [LiveWord(st.tokens[i].name)] + ShownAt(st.ledger, included, i + 1) + WordsFrom(st, included, i + 1)
  }

  function WordsOf(st: State, included: seq<string>): seq<Word>
  {
    WordsFrom(st, included, 0)
  }

  function WordNames(ws: seq<Word>): (ns: seq<string>)
    ensures |ns| == |ws|
    ensures forall i :: 0 <= i < |ws| ==> ns[i] == ws[i].name
  {
    if ws == [] then [] else [ws[0].name] + WordNames(ws[1..])
  }

  /** The words of `getMap(included)`. */
  function MapWords(st: State, included: seq<string>): seq<string>
  {
    WordNames(WordsOf(st, included))
  }

  /** `getMap(included)`: the words separated by single spaces. */
  function GetMap(st: State, included: seq<string>): string
  {
    Join(MapWords(st, included))
  }

  /** Without included names the map shows the live tokens only, one word each. */
  lemma {:induction false} WordsWithoutIncluded(st: State, i: nat)
    requires i <= |st.tokens|
    ensures WordsFrom(st, [], i) == seq(|st.tokens| - i, k requires 0 <= k < |st.tokens| - i => LiveWord(st.tokens[i + k].name))
    decreases |st.tokens| - i
  {
    if i < |st.tokens| {
      WordsWithoutIncluded(st, i + 1);
    }
  }

  /** `getMap()` lists the token names. */
  lemma PlainMap(st: State)
    ensures MapWords(st, []) == Names(st.tokens)
  {
    WordsWithoutIncluded(st, 0);
  }

  /** When names are non-empty and space-free, the map can be split back into its words. */
  lemma MapRoundTrip(st: State, included: seq<string>)
    requires SpaceFree(MapWords(st, included)) && |MapWords(st, included)| > 0
    ensures SplitSpaces(GetMap(st, included)) == MapWords(st, included)
  {
    SplitJoin(MapWords(st, included));
  }

  /** How many of the words are live tokens. */
  function LiveCount(ws: seq<Word>): (n: nat)
    ensures n <= |ws|
  {
    if ws == [] then 0 else (if ws[0].LiveWord? then 1 else 0) + LiveCount(ws[1..])
  }

  // ---------------------------------------------------------------------
  // Relocating the match: String.indexOf and the counting loop
  // ---------------------------------------------------------------------

  /** `needle` occurs in `hay` at `k`. */
  predicate Occurs(hay: string, needle: string, k: int)
  {
    0 <= k && k + |needle| <= |hay| && hay[k..k + |needle|] == needle
  }

  function IndexFrom(hay: string, needle: string, k: nat): (r: int)
    requires |needle| > 0
    ensures r == -1 || (k <= r && Occurs(hay, needle, r))
    ensures forall j :: k <= j && (r == -1 || j < r) ==> !Occurs(hay, needle, j)
    decreases |hay| + 1 - k
  {
    if k + |needle| > |hay| then -1
    else if hay[k..k + |needle|] == needle then k
    else IndexFrom(hay, needle, k + 1)
  }

  /** Java's `hay.indexOf(needle, from)`: a negative start counts as 0. */
  function IndexOf(hay: string, needle: string, from: int): (r: int)
    ensures -1 <= r <= |hay|
    ensures |needle| > 0 ==> r == -1 || (from <= r && Occurs(hay, needle, r))
    ensures |needle| > 0 ==> forall j :: from <= j && (r == -1 || j < r) ==> !Occurs(hay, needle, j)
  {
    var f := if from < 0 then 0 else from;
    if |needle| == 0 then (if f <= |hay| then f else |hay|)
    else IndexFrom(hay, needle, f)
  }

  /** `times` more calls of `indexOf(needle, index + 1)`. */
  function Again(hay: string, needle: string, index: int, times: int): (r: int)
    requires -1 <= index <= |hay|
    ensures -1 <= r <= |hay|
    decreases times
  {
    if times <= 0 then index else Again(hay, needle, IndexOf(hay, needle, index + 1), times - 1)
  }

  /** How many of the `included` names start at the beginning of `s`. */
  function StartsHere(s: string, included: seq<string>): (n: nat)
    ensures n <= |included|
  {
    if included == [] then 0
    else (if StartsWith(s, included[0]) then 1 else 0) + StartsHere(s, included[1..])
  }

  /**
   * The counting loop from character `i` up to `index`: +1 per space, -1
   * per included name starting at the character.
   */
  function Tally(spaced: string, included: seq<string>, i: nat, index: int): int
    requires index <= |spaced|
    decreases index - i
  {
    if i >= index then 0
    else (if spaced[i] == ' ' then 1 else 0) - StartsHere(spaced[i..], included) + Tally(spaced, included, i + 1, index)
  }

  /** The map as `replace` searches it: every word followed by one space. */
  function Spaced(ws: seq<string>): string
  {
    if ws == [] then "" else ws[0] + " " + Spaced(ws[1..])
  }

  /**
   * Where the source's `replace` thinks the `ignore`-th match `[a, b)`
   * begins in the token list: it looks the matched text up again with
   * `indexOf`, then counts the spaces before it, less the included names.
   */
  function RelocateAsWritten(ns: seq<string>, a: nat, b: nat, ignore: nat, included: seq<string>): int
    requires a <= b <= |ns|
  {
    var spaced := Spaced(ns);
    var matched := Spaced(ns[a..b]);
    var index := Again(spaced, matched, IndexOf(spaced, matched, 0), ignore - 1);
    Tally(spaced, included, 0, index)
  }

  /** The intended position: the live tokens among the words before the match. */
  function Relocate(ws: seq<Word>, a: nat): nat
    requires a <= |ws|
  {
    LiveCount(ws[..a])
  }

  // ---------------------------------------------------------------------
  // Taking the matched tokens out
  // ---------------------------------------------------------------------

  /** Index of the first ledger entry recorded at `at`, or `|ledger|`. */
  function FirstAt(ledger: seq<Removed>, at: int): (k: nat)
    ensures k <= |ledger|
    ensures k < |ledger| ==> ledger[k].index == at
    ensures forall j :: 0 <= j < k ==> ledger[j].index != at
  {
    if ledger == [] then 0 else if ledger[0].index == at then 0 else 1 + FirstAt(ledger[1..], at)
  }

  /** Entries recorded after position `at` move one place up. */
  function Shift(ledger: seq<Removed>, at: int): (r: seq<Removed>)
    ensures |r| == |ledger|
    ensures forall i :: 0 <= i < |ledger| ==>
              r[i].token == ledger[i].token &&
              r[i].index == if ledger[i].index > at then ledger[i].index - 1 else ledger[i].index
  {
    seq(|ledger|, i requires 0 <= i < |ledger| =>
      if ledger[i].index > at then Removed(ledger[i].index - 1, ledger[i].token) else ledger[i])
  }

  /** The list and ledger after the matched tokens left, and the tokens taken, in match order. */
  datatype Consumed = Consumed(tokens: seq<Token>, ledger: seq<Removed>, taken: seq<Token>)

  function Taking(t: Token, r: Attempt<Consumed>): Attempt<Consumed>
  {
    if r.Ok? then Ok(r.value.(taken := [t] + r.value.taken)) else r
  }

  /**
   * The consuming loop of `replace` at list position `at`: an included
   * word takes the first ledger entry recorded at `at` (none: the stream's
   * `get` throws); any other word takes the live token at `at` (out of
   * range: `get` throws) and, unless it is the last word, first moves the
   * later ledger entries up one place.
   */
  function Consume(tokens: seq<Token>, ledger: seq<Removed>, at: int, split: seq<string>, included: seq<string>): (r: Attempt<Consumed>)
    ensures r.Ok? ==> |r.value.taken| == |split|
    ensures r.Ok? ==> |r.value.tokens| + |r.value.ledger| + |split| == |tokens| + |ledger|
    ensures !r.OutOfFuel?
    decreases |split|
  {
    if split == [] then Ok(Consumed(tokens, ledger, []))
    else if split[0] in included then
      var k := FirstAt(ledger, at);
      if k == |ledger| then Threw(NoSuchElement)
      else Taking(ledger[k].token, Consume(tokens, ledger[..k] + ledger[k + 1..], at, split[1..], included))
    else if at < 0 || at >= |tokens| then Threw(IndexOutOfBounds)
    else
      var ledger' := if |split| > 1 then Shift(ledger, at) else ledger;
      Taking(tokens[at], Consume(tokens[..at] + tokens[at + 1..], ledger', at, split[1..], included))
  }

  /** `r` took exactly the `n` live tokens from `at` on, and left the others in order. */
  predicate TookSpan(r: Attempt<Consumed>, tokens: seq<Token>, at: nat, n: nat)
    requires at + n <= |tokens|
  {
    r.Ok? && r.value.tokens == tokens[..at] + tokens[at + n..] && r.value.taken == tokens[at..at + n]
  }

  /** Without included words, exactly the `|split|` live tokens from `at` on are taken out. */
  lemma {:induction false} ConsumeSpan(tokens: seq<Token>, ledger: seq<Removed>, at: int, split: seq<string>, included: seq<string>)
    requires forall i :: 0 <= i < |split| ==> split[i] !in included
    requires 0 <= at && at + |split| <= |tokens|
    ensures TookSpan(Consume(tokens, ledger, at, split, included), tokens, at, |split|)
    decreases |split|
  {
    if split != [] {
      assert split[0] !in included;
      var rest := tokens[..at] + tokens[at + 1..];
      var ledger' := if |split| > 1 then Shift(ledger, at) else ledger;
      assert forall i :: 0 <= i < |split[1..]| ==> split[1..][i] !in included by {
        forall i | 0 <= i < |split[1..]| ensures split[1..][i] !in included {
          assert split[1..][i] == split[i + 1];
        }
      }
      ConsumeSpan(rest, ledger', at, split[1..], included);
      var inner := Consume(rest, ledger', at, split[1..], included);
      assert Consume(tokens, ledger, at, split, included) == Taking(tokens[at], inner);
      TakingSpan(tokens, rest, at, |split|, inner);
    } else {
      assert tokens[..at] + tokens[at..] == tokens;
    }
  }

  /** Taking the token at `at` in front of the `n - 1` tokens taken after it takes the span of `n` from `at`. */
  lemma TakingSpan(tokens: seq<Token>, rest: seq<Token>, at: nat, n: nat, inner: Attempt<Consumed>)
    requires 1 <= n && at + n <= |tokens| && rest == tokens[..at] + tokens[at + 1..]
    requires TookSpan(inner, rest, at, n - 1)
    ensures TookSpan(Taking(tokens[at], inner), tokens, at, n)
  {
    DropOne(tokens, at, n);
  }

  /** Dropping the token at `at` shifts the `n - 1` tokens after it down one place. */
  lemma DropOne(tokens: seq<Token>, at: nat, n: nat)
    requires 1 <= n && at + n <= |tokens|
    ensures var rest := tokens[..at] + tokens[at + 1..];
            rest[..at] + rest[at + n - 1..] == tokens[..at] + tokens[at + n..] &&
            [tokens[at]] + rest[at..at + n - 1] == tokens[at..at + n]
  {
    var rest := tokens[..at] + tokens[at + 1..];
    assert rest[..at] == tokens[..at];
    assert rest[at + n - 1..] == tokens[at + n..];
    assert rest[at..at + n - 1] == tokens[at + 1..at + n];
    assert [tokens[at]] + tokens[at + 1..at + n] == tokens[at..at + n];
  }

  // ---------------------------------------------------------------------
  // replace
  // ---------------------------------------------------------------------

  /** What a builder hands back: the new token's object (or the exception it threw), and the error it reported. */
  datatype Built = Built(node: Attempt<Option<SyntaxTree.Node>>, raised: Option<Report>)

  /** A `CompilerLambda`: it sees the tokens taken, in match order. */
  type Builder = seq<Token> -> Built

  /** A `CheckerLambda`: it sees the live tokens and the computed start of the match. */
  type Checker = (seq<Token>, int) -> Attempt<bool>

  /** The rule of a `replace(model, newName, lambda[, checker], ...)` call; the included names are passed apart. */
  datatype Rule = Rule(pattern: seq<Pat>, newName: string, build: Builder, check: Option<Checker>)

  /** How the start of a match is found: as the source does it, or from the match itself. */
  datatype Relocation = AsWritten | Intended

  /** The parser state and the `Errors` state after a step; the state is lost when an exception escapes. */
  datatype Outcome = Outcome(result: Attempt<State>, errors: ErrorState)

  /** How many tokens the parser holds, live and removed. */
  function Total(st: State): nat
  {
    |st.tokens| + |st.ledger|
  }

  /** `find` runs `max(ignore, 1)` times before a match is used. */
  function Finds(ignore: nat): (n: nat)
    ensures n >= 1
  {
    if ignore <= 1 then 1 else ignore
  }

  /** The match to act on: its start in the token list and its words; `None` when `find` runs dry. */
  function Locate(st: State, rule: Rule, included: seq<string>, ignore: nat, mode: Relocation): (r: Option<(int, seq<string>)>)
    ensures r.Some? ==> |r.value.1| > 0
  {
    var ws := WordsOf(st, included);
    var ns := WordNames(ws);
    match NthMatch(rule.pattern, ns, 0, Finds(ignore))
    case None => None
    case Some((a, b)) =>
      var at := if mode.AsWritten? then RelocateAsWritten(ns, a, b, ignore, included) else Relocate(ws, a);
      Some((at, ns[a..b]))
  }

  /**
   * One reduction at list position `at`: the matched tokens leave, a token
   * named `newName` takes their place, on the line of the first of them,
   * holding what the builder makes of them.
   */
  function Reduce(st: State, e: ErrorState, at: int, split: seq<string>, rule: Rule, included: seq<string>): (o: Outcome)
    requires |split| > 0
    ensures o.result.Ok? ==> Total(o.result.value) + |split| == Total(st) + 1
    ensures o.result.Ok? ==> 0 <= at < |o.result.value.tokens| && o.result.value.tokens[at].name == rule.newName
    ensures e.reports <= o.errors.reports && (WasThereAnError(e) ==> WasThereAnError(o.errors))
    ensures o.result.Ok? ==>
              var c := Consume(st.tokens, st.ledger, at, split, included);
              var t := o.result.value.tokens[at];
              c.Ok? && at <= |c.value.tokens| && |c.value.taken| > 0 &&
              o.result.value.tokens == c.value.tokens[..at] + [t] + c.value.tokens[at..] &&
              o.result.value.ledger == c.value.ledger &&
              t.line == c.value.taken[0].line && t.text == "" && rule.build(c.value.taken).node == Ok(t.obj)
  {
    match Consume(st.tokens, st.ledger, at, split, included)
    case Ok(c) =>
      if at < 0 || at > |c.tokens| then Outcome(Threw(IndexOutOfBounds), e)
      else
        var built := rule.build(c.taken);
        var e' := if built.raised.Some? then Raise(e, built.raised.value) else e;
        (match built.node
         case Ok(obj) =>
           var t := Token(rule.newName, "", c.taken[0].line, obj);
           Outcome(Ok(State(c.tokens[..at] + [t] + c.tokens[at..], c.ledger)), e')
         case Threw(x) => Outcome(Threw(x), e')
         case OutOfFuel => Outcome(OutOfFuel, e'))
    case Threw(x) => Outcome(Threw(x), e)
    case OutOfFuel => Outcome(OutOfFuel, e)
  }

  /** Where one round of `replace` leaves things: finished, or about to call itself again. */
  datatype Next = Finished(outcome: Outcome) | Recurse(st: State, errors: ErrorState, ignore: nat)

  /**
   * One round of `replace`: no match ends it; a match the checker turns
   * down leads to a search skipping one match more; a reduction leads to
   * a search of the new list.
   */
  function Round(st: State, e: ErrorState, rule: Rule, included: seq<string>, ignore: nat, mode: Relocation): (n: Next)
    ensures n.Finished? && n.outcome.result.Ok? ==> n.outcome.result.value == st
    ensures n.Recurse? ==> n.ignore >= ignore && (rule.check.None? ==> n.ignore == ignore)
    ensures n.Recurse? ==> Total(n.st) <= Total(st) && e.reports <= n.errors.reports &&
                           (WasThereAnError(e) ==> WasThereAnError(n.errors))
    ensures n.Finished? ==> e.reports <= n.outcome.errors.reports &&
                            (WasThereAnError(e) ==> WasThereAnError(n.outcome.errors))
  {
    match Locate(st, rule, included, ignore, mode)
    case None => Finished(Outcome(Ok(st), e))
    case Some((at, split)) =>
      var verdict := if rule.check.None? then Ok(true) else rule.check.value(st.tokens, at);
      match verdict
      case Ok(accepted) =>
        if !accepted then Recurse(st, e, ignore + 1)
        else
          var o := Reduce(st, e, at, split, rule, included);
          if o.result.Ok? then Recurse(o.result.value, o.errors, ignore) else Finished(o)
      case Threw(x) => Finished(Outcome(Threw(x), e))
      case OutOfFuel => Finished(Outcome(OutOfFuel, e))
  }

  /** A round finishes without an exception only when `find` runs dry. */
  lemma RoundSettles(st: State, e: ErrorState, rule: Rule, included: seq<string>, ignore: nat, mode: Relocation)
    ensures var n := Round(st, e, rule, included, ignore, mode);
            n.Finished? && n.outcome.result.Ok? ==> Settled(st, rule, included, ignore)
  {
  }

  /**
   * `replace`: rounds until one finishes. Its recursive calls pass no
   * included names. The Java recursion is unbounded; `fuel` bounds it here.
   */
  function Replace(st: State, e: ErrorState, rule: Rule, included: seq<string>, ignore: nat, fuel: nat, mode: Relocation): (o: Outcome)
    ensures o.result.Ok? ==> Total(o.result.value) <= Total(st)
    ensures Keeps(e, o.errors)
    decreases fuel, 0
  {
    if fuel == 0 then Outcome(OutOfFuel, e)
    else Continue(Round(st, e, rule, included, ignore, mode), rule, fuel - 1, mode)
  }

  /** After a round: its outcome, or `replace` called again with no included names. */
  function Continue(n: Next, rule: Rule, fuel: nat, mode: Relocation): (o: Outcome)
    ensures n.Finished? ==> o == n.outcome
    ensures n.Recurse? ==> (o.result.Ok? ==> Total(o.result.value) <= Total(n.st)) && Keeps(n.errors, o.errors)
    decreases fuel, 1
  {
    match n
    case Finished(o) => o
    case Recurse(st', e', ignore') => Replace(st', e', rule, [], ignore', fuel, mode)
  }

  /** The `ignore`-th match is gone: `replace` has nothing more to do. */
  predicate Settled(st: State, rule: Rule, included: seq<string>, ignore: nat)
  {
    NthMatch(rule.pattern, MapWords(st, included), 0, Finds(ignore)).None?
  }

  /**
   * `replace` stops only when `find` runs dry: a state it returns has no
   * further match, for the rule as called or for its recursive calls
   * (no included names, and as many matches skipped as the checker
   * turned down, `g`).
   */
  lemma {:induction false} ReplaceSettles(st: State, e: ErrorState, rule: Rule, included: seq<string>, ignore: nat, fuel: nat, mode: Relocation)
    returns (g: nat)
    ensures g >= ignore && (rule.check.None? ==> g == ignore)
    ensures var o := Replace(st, e, rule, included, ignore, fuel, mode);
            o.result.Ok? ==> Settled(o.result.value, rule, included, ignore) || Settled(o.result.value, rule, [], g)
    decreases fuel
  {
    g := ignore;
    if fuel > 0 {
      var n := Round(st, e, rule, included, ignore, mode);
      RoundSettles(st, e, rule, included, ignore, mode);
      if n.Recurse? {
        g := ReplaceSettles(n.st, n.errors, rule, [], n.ignore, fuel - 1, mode);
        var o := Replace(n.st, n.errors, rule, [], n.ignore, fuel - 1, mode);
        if o.result.Ok? && Settled(o.result.value, rule, [], n.ignore) {
          g := n.ignore;
        }
      }
    }
  }

  /** Without included names every word is a live token, so the intended start is the match's own word. */
  lemma IntendedStartsAtMatch(st: State, a: nat)
    requires a <= |st.tokens|
    ensures a <= |WordsOf(st, [])| && Relocate(WordsOf(st, []), a) == a
  {
    WordsWithoutIncluded(st, 0);
    AllLive(WordsOf(st, [])[..a]);
  }

  lemma {:induction false} AllLive(ws: seq<Word>)
    requires forall i :: 0 <= i < |ws| ==> ws[i].LiveWord?
    ensures LiveCount(ws) == |ws|
  {
    if ws != [] {
      AllLive(ws[1..]);
    }
  }

  /**
   * With the intended relocation and no included names, a reduction takes
   * exactly the tokens the pattern matched: the list becomes the tokens
   * before the match, the new token, and the tokens after it.
   */
  lemma IntendedReducesMatch(st: State, e: ErrorState, rule: Rule, ignore: nat)
    requires NthMatch(rule.pattern, MapWords(st, []), 0, Finds(ignore)).Some?
    ensures var (a, b) := NthMatch(rule.pattern, MapWords(st, []), 0, Finds(ignore)).value;
            var r := Locate(st, rule, [], ignore, Intended).value;
            b <= |st.tokens| && r.0 == a && Names(st.tokens[a..b]) == r.1 &&
            Accepts(rule.pattern, r.1) &&
            var c := Consume(st.tokens, st.ledger, a, r.1, []);
            c.Ok? && c.value.taken == st.tokens[a..b] && c.value.tokens == st.tokens[..a] + st.tokens[b..]
  {
    var ns := MapWords(st, []);
    var (a, b) := NthMatch(rule.pattern, ns, 0, Finds(ignore)).value;
    PlainMap(st);
    LocateIntended(st, rule, ignore);
    MatchSeqSound(rule.pattern, ns, a);
    NamesSlice(st.tokens, a, b);
    ConsumeNames(st.tokens, st.ledger, a, b);
  }

  /**
   * A reduction at the intended place: the matched tokens `a..b` give way
   * to one token of the rule's name, on the line of the first of them and
   * holding what the builder made of them; the tokens around stay in order.
   */
  lemma IntendedReduction(st: State, e: ErrorState, rule: Rule, ignore: nat)
    requires NthMatch(rule.pattern, MapWords(st, []), 0, Finds(ignore)).Some?
    ensures var (a, b) := NthMatch(rule.pattern, MapWords(st, []), 0, Finds(ignore)).value;
            a < b <= |st.tokens| && Locate(st, rule, [], ignore, Intended) == Some((a, Names(st.tokens[a..b]))) &&
            var o := Reduce(st, e, a, Names(st.tokens[a..b]), rule, []);
            o.result.Ok? ==>
              o.result.value.tokens == st.tokens[..a] + [o.result.value.tokens[a]] + st.tokens[b..] &&
              o.result.value.tokens[a].name == rule.newName &&
              o.result.value.tokens[a].line == st.tokens[a].line &&
              rule.build(st.tokens[a..b]).node == Ok(o.result.value.tokens[a].obj)
  {
    var (a, b) := NthMatch(rule.pattern, MapWords(st, []), 0, Finds(ignore)).value;
    IntendedReducesMatch(st, e, rule, ignore);
    var o := Reduce(st, e, a, Names(st.tokens[a..b]), rule, []);
    if o.result.Ok? {
      var c := Consume(st.tokens, st.ledger, a, Names(st.tokens[a..b]), []).value;
      assert c.taken[0] == st.tokens[a];
      assert c.tokens[..a] == st.tokens[..a] && c.tokens[a..] == st.tokens[b..];
    }
  }

  /** Consuming the names of the tokens from `a` to `b`, with no included names, takes out exactly those tokens. */
  lemma ConsumeNames(tokens: seq<Token>, ledger: seq<Removed>, a: nat, b: nat)
    requires a <= b <= |tokens|
    ensures var c := Consume(tokens, ledger, a, Names(tokens[a..b]), []);
            c.Ok? && c.value.taken == tokens[a..b] && c.value.tokens == tokens[..a] + tokens[b..]
  {
    ConsumeSpan(tokens, ledger, a, Names(tokens[a..b]), []);
  }

  /** With the intended relocation and no included names, the match is located at its own first word. */
  lemma LocateIntended(st: State, rule: Rule, ignore: nat)
    requires NthMatch(rule.pattern, MapWords(st, []), 0, Finds(ignore)).Some?
    ensures var (a, b) := NthMatch(rule.pattern, MapWords(st, []), 0, Finds(ignore)).value;
            Locate(st, rule, [], ignore, Intended) == Some((a, MapWords(st, [])[a..b]))
  {
    var ns := MapWords(st, []);
    var (a, b) := NthMatch(rule.pattern, ns, 0, Finds(ignore)).value;
    PlainMap(st);
    IntendedStartsAtMatch(st, a);
  }
}
