/**
 * The grammar-rule patterns of `Parser.replace`. A rule's model is a Java
 * regular expression over the parser's map, the token names separated by
 * single spaces; the rules only ever use names, alternations of names,
 * and `?`, `*`, `+` groups, so a pattern is given here as a small
 * expression tree over names and matched against the list of words.
 *
 * The matcher is greedy and does not backtrack into a finished group.
 * For the compiler's rules this agrees with Java's backtracking engine:
 * in each of them the first name of an optional or repeated group differs
 * from the first name of what follows the group.
 */
module Patterns {
  import opened Base

  datatype Pat =
    | Tag(name: string)              // one name
    | OneOf(names: seq<string>)      // `(A|B)`
    | Opt(body: seq<Pat>)            // `( ... )?`
    | Star(body: seq<Pat>)           // `( ... )*`
    | Plus(body: seq<Pat>)           // `( ... )+`

  function Size(p: Pat): (n: nat)
    ensures n >= 1
    decreases p, 1
  {
    match p
    case Tag(_) => 1
    case OneOf(_) => 1
    case Opt(b) => 1 + SizeSeq(b)
    case Star(b) => 1 + SizeSeq(b)
    case Plus(b) => 2 + SizeSeq(b)   // above `Star(b)`, which its language unfolds to
  }

  function SizeSeq(ps: seq<Pat>): nat
    decreases ps, 0
  {
    if ps == [] then 0 else Size(ps[0]) + SizeSeq(ps[1..])
  }

  // ---------------------------------------------------------------------
  // The matcher: where a pattern starting at word `i` ends
  // ---------------------------------------------------------------------

  function MatchSeq(ps: seq<Pat>, ws: seq<string>, i: nat): (r: Option<nat>)
    requires i <= |ws|
    ensures r.Some? ==> i <= r.value <= |ws|
    decreases SizeSeq(ps), 2, 0
  {
    if ps == [] then Some(i)
    else
      match MatchOne(ps[0], ws, i)
      case None => None
      case Some(k) => MatchSeq(ps[1..], ws, k)
  }

  function MatchOne(p: Pat, ws: seq<string>, i: nat): (r: Option<nat>)
    requires i <= |ws|
    ensures r.Some? ==> i <= r.value <= |ws|
    decreases Size(p), 1, 0
  {
    match p
    case Tag(n) => if i < |ws| && ws[i] == n then Some(i + 1) else None
    case OneOf(ns) => if i < |ws| && ws[i] in ns then Some(i + 1) else None
    case Opt(b) =>
      var m := MatchSeq(b, ws, i);
      if m.Some? then m else Some(i)
    case Star(b) => Some(MatchStar(b, ws, i))
    case Plus(b) =>
      match MatchSeq(b, ws, i)
      case None => None
      case Some(k) => Some(MatchStar(b, ws, k))
  }

  /** Repeats the group while it matches something. */
  function MatchStar(b: seq<Pat>, ws: seq<string>, i: nat): (r: nat)
    requires i <= |ws|
    ensures i <= r <= |ws|
    decreases SizeSeq(b), 3, |ws| - i
  {
    var m := MatchSeq(b, ws, i);
    if m.Some? && m.value > i then MatchStar(b, ws, m.value) else i
  }

  // ---------------------------------------------------------------------
  // The language a pattern denotes, and soundness of the matcher
  // ---------------------------------------------------------------------

  /** `w` is in the language of the pattern sequence `ps`. */
  ghost predicate Accepts(ps: seq<Pat>, w: seq<string>)
    decreases SizeSeq(ps), 1, |w|
  {
    if ps == [] then w == []
    else exists k :: 0 <= k <= |w| && AcceptsOne(ps[0], w[..k]) && Accepts(ps[1..], w[k..])
  }

  /** `w` is in the language of the single pattern `p`. */
  ghost predicate AcceptsOne(p: Pat, w: seq<string>)
    decreases Size(p), 0, |w|
  {
    match p
    case Tag(n) => w == [n]
    case OneOf(ns) => |w| == 1 && w[0] in ns
    case Opt(b) => w == [] || Accepts(b, w)
    case Star(b) => w == [] || exists k :: 0 < k <= |w| && Accepts(b, w[..k]) && AcceptsOne(Star(b), w[k..])
    case Plus(b) => exists k :: 0 <= k <= |w| && Accepts(b, w[..k]) && AcceptsOne(Star(b), w[k..])
  }

  /** Whatever span the matcher reports is a word sequence of the pattern's language. */
  lemma {:induction false} MatchSeqSound(ps: seq<Pat>, ws: seq<string>, i: nat)
    requires i <= |ws|
    ensures MatchSeq(ps, ws, i).Some? ==> Accepts(ps, ws[i..MatchSeq(ps, ws, i).value])
    decreases SizeSeq(ps), 2, 0
  {
    if ps != [] && MatchSeq(ps, ws, i).Some? {
      var k := MatchOne(ps[0], ws, i).value;
      var j := MatchSeq(ps[1..], ws, k).value;
      MatchOneSound(ps[0], ws, i);
      MatchSeqSound(ps[1..], ws, k);
      var w := ws[i..j];
      assert w[..k - i] == ws[i..k];
      assert w[k - i..] == ws[k..j];
    }
  }

  lemma {:induction false} MatchOneSound(p: Pat, ws: seq<string>, i: nat)
    requires i <= |ws|
    ensures MatchOne(p, ws, i).Some? ==> AcceptsOne(p, ws[i..MatchOne(p, ws, i).value])
    decreases Size(p), 1, 0
  {
    match p
    case Tag(_) =>
    case OneOf(_) =>
    case Opt(b) =>
      MatchSeqSound(b, ws, i);
    case Star(b) =>
      MatchStarSound(b, ws, i);
    case Plus(b) =>
      if MatchSeq(b, ws, i).Some? {
        var k := MatchSeq(b, ws, i).value;
        var j := MatchStar(b, ws, k);
        MatchSeqSound(b, ws, i);
        MatchStarSound(b, ws, k);
        var w := ws[i..j];
        assert w[..k - i] == ws[i..k];
        assert w[k - i..] == ws[k..j];
      }
  }

  lemma {:induction false} MatchStarSound(b: seq<Pat>, ws: seq<string>, i: nat)
    requires i <= |ws|
    ensures AcceptsOne(Star(b), ws[i..MatchStar(b, ws, i)])
    decreases SizeSeq(b), 3, |ws| - i
  {
    var m := MatchSeq(b, ws, i);
    if m.Some? && m.value > i {
      var k := m.value;
      var j := MatchStar(b, ws, k);
      MatchSeqSound(b, ws, i);
      MatchStarSound(b, ws, k);
      var w := ws[i..j];
      assert w[..k - i] == ws[i..k];
      assert w[k - i..] == ws[k..j];
    }
  }

  // ---------------------------------------------------------------------
  // Matcher.find over the map
  // ---------------------------------------------------------------------

  /**
   * The pattern matches a non-empty run of words starting at word `s`. In
   * the map a match is surrounded by spaces, so it cannot be empty.
   */
  predicate MatchesAt(ps: seq<Pat>, ws: seq<string>, s: nat)
  {
    s <= |ws| && MatchSeq(ps, ws, s).Some? && MatchSeq(ps, ws, s).value > s
  }

  /** `Matcher.find` from word `from`: the leftmost match, as the words `[a, b)` it covers. */
  function FindFrom(ps: seq<Pat>, ws: seq<string>, from: nat): (r: Option<(nat, nat)>)
    ensures r.Some? ==> var (a, b) := r.value;
              from <= a < b <= |ws| && MatchesAt(ps, ws, a) && MatchSeq(ps, ws, a) == Some(b) &&
              forall s :: from <= s < a ==> !MatchesAt(ps, ws, s)
    ensures r.None? <==> forall s :: from <= s ==> !MatchesAt(ps, ws, s)
    decreases |ws| + 1 - from
  {
    if from > |ws| then None
    else if MatchesAt(ps, ws, from) then Some((from, MatchSeq(ps, ws, from).value))
    else FindFrom(ps, ws, from + 1)
  }

  /**
   * The `n`-th call of `find`, `n` at least 1. The trailing space of a
   * match is also the leading space the next word would need, so the
   * search after a match `[a, b)` resumes at word `b + 1`.
   */
  function NthMatch(ps: seq<Pat>, ws: seq<string>, from: nat, n: nat): (r: Option<(nat, nat)>)
    requires n >= 1
    ensures r.Some? ==> from <= r.value.0 < r.value.1 <= |ws| && MatchSeq(ps, ws, r.value.0) == Some(r.value.1)
    ensures n == 1 ==> r == FindFrom(ps, ws, from)
    decreases n
  {
    match FindFrom(ps, ws, from)
    case None => None
    case Some((a, b)) => if n == 1 then Some((a, b)) else NthMatch(ps, ws, b + 1, n - 1)
  }
}
