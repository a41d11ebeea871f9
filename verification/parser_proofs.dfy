/**
 * How the source's relocation of a match compares with the intended one.
 * `replace` finds a match as words `[a, b)` of the map, then searches the
 * map again for the matched text with `indexOf` and counts the spaces in
 * front of what it finds. Without included names and skipped matches,
 * the count is never more than `a`. It equals `a` exactly when the first
 * occurrence of the matched text is the match itself.
 */
module ParserProofs {
  import opened Base
  import opened Parser

  lemma {:induction false} SpacedAppend(xs: seq<string>, ys: seq<string>)
    ensures Spaced(xs + ys) == Spaced(xs) + Spaced(ys)
  {
    if xs == [] {
      assert xs + ys == ys;
    } else {
      assert (xs + ys)[1..] == xs[1..] + ys;
      SpacedAppend(xs[1..], ys);
    }
  }

  /** Each space-free word brings exactly one space. */
  lemma {:induction false} SpacedCount(xs: seq<string>)
    requires SpaceFree(xs)
    ensures CountChar(Spaced(xs), ' ') == |xs|
  {
    if xs != [] {
      assert SpaceFree(xs[1..]) by {
        forall i | 0 <= i < |xs[1..]| ensures ' ' !in xs[1..][i] {
          assert xs[1..][i] == xs[i + 1];
        }
      }
      SpacedCount(xs[1..]);
      assert ' ' !in xs[0];
      CountCharNone(xs[0], ' ');
      CountCharAppend(xs[0], " ", ' ');
      CountCharAppend(xs[0] + " ", Spaced(xs[1..]), ' ');
    }
  }

  lemma {:induction false} SpacedEndsWithSpace(xs: seq<string>)
    requires xs != []
    ensures |Spaced(xs)| > 0 && Spaced(xs)[|Spaced(xs)| - 1] == ' '
  {
    if xs[1..] != [] {
      SpacedEndsWithSpace(xs[1..]);
    }
  }

  /** Without included names the counting loop counts the spaces before `index`. */
  lemma {:induction false} TallyPlain(s: string, i: nat, index: int)
    requires i <= index <= |s|
    ensures Tally(s, [], i, index) == CountChar(s[i..index], ' ')
    decreases index - i
  {
    if i < index {
      TallyPlain(s, i + 1, index);
      assert s[i..index] == [s[i]] + s[i + 1..index];
    }
  }

  lemma CountPrefixMono(s: string, i: nat, j: nat)
    requires i <= j <= |s|
    ensures CountChar(s[..i], ' ') <= CountChar(s[..j], ' ')
  {
    assert s[..j] == s[..i] + s[i..j];
    CountCharAppend(s[..i], s[i..j], ' ');
  }

  /** The match `[a, b)` sits in the map right after the spaced words before it. */
  lemma OwnOccurrence(ws: seq<string>, a: nat, b: nat)
    requires a < b <= |ws|
    ensures Spaced(ws) == Spaced(ws[..a]) + Spaced(ws[a..b]) + Spaced(ws[b..])
    ensures |Spaced(ws[a..b])| > 0
    ensures Occurs(Spaced(ws), Spaced(ws[a..b]), |Spaced(ws[..a])|)
  {
    assert ws == ws[..a] + (ws[a..b] + ws[b..]);
    SpacedAppend(ws[a..b], ws[b..]);
    SpacedAppend(ws[..a], ws[a..b] + ws[b..]);
    SpacedEndsWithSpace(ws[a..b]);
    var m := Spaced(ws);
    var p, n := Spaced(ws[..a]), Spaced(ws[a..b]);
    assert m[|p|..|p| + |n|] == n;
  }

  /** With no included names and no skipped match, the source counts the spaces before the first occurrence. */
  lemma AsWrittenCountsSpaces(ws: seq<string>, a: nat, b: nat, ignore: nat)
    requires a < b <= |ws| && ignore <= 1
    ensures var idx := IndexOf(Spaced(ws), Spaced(ws[a..b]), 0);
            0 <= idx <= |Spaced(ws[..a])| &&
            RelocateAsWritten(ws, a, b, ignore, []) == CountChar(Spaced(ws)[..idx], ' ')
  {
    var m, n := Spaced(ws), Spaced(ws[a..b]);
    OwnOccurrence(ws, a, b);
    var idx := IndexOf(m, n, 0);
    TallyPlain(m, 0, idx);
    assert m[0..idx] == m[..idx];
  }

  /** A proper prefix of a text that ends in a space has fewer spaces than the text. */
  lemma ProperPrefixFewerSpaces(p: string, idx: nat)
    requires 0 < |p| && p[|p| - 1] == ' ' && idx < |p|
    ensures CountChar(p[..idx], ' ') < CountChar(p, ' ')
  {
    var off := |p|;
    assert p[..off] == p;
    assert p == p[..off - 1] + [p[off - 1]];
    CountCharAppend(p[..off - 1], [p[off - 1]], ' ');
    CountPrefixMono(p, idx, off - 1);
  }

  /** A cut of `p + rest` inside the spaced words `p` has fewer spaces than `p` unless it is all of `p`. */
  lemma SpacesBeforeCut(xs: seq<string>, rest: string, idx: nat)
    requires SpaceFree(xs) && idx <= |Spaced(xs)|
    ensures var m := Spaced(xs) + rest;
            CountChar(m[..idx], ' ') <= |xs| &&
            (CountChar(m[..idx], ' ') == |xs| <==> idx == |Spaced(xs)|)
  {
    var p := Spaced(xs);
    var m := p + rest;
    assert m[..idx] == p[..idx];
    SpacedCount(xs);
    assert p[..|p|] == p;
    CountPrefixMono(p, idx, |p|);
    if idx < |p| {
      SpacedEndsWithSpace(xs);
      ProperPrefixFewerSpaces(p, idx);
    }
  }

  /**
   * The source's relocation never lands after the match: with no included
   * names and no skipped matches it counts at most `a` tokens, and exactly
   * `a` when the first occurrence of the matched text is the match itself.
   */
  lemma AsWrittenRelocation(ws: seq<string>, a: nat, b: nat, ignore: nat)
    requires SpaceFree(ws) && a < b <= |ws| && ignore <= 1
    ensures var r := RelocateAsWritten(ws, a, b, ignore, []);
            0 <= r <= a &&
            (r == a <==> IndexOf(Spaced(ws), Spaced(ws[a..b]), 0) == |Spaced(ws[..a])|)
  {
    AsWrittenCountsSpaces(ws, a, b, ignore);
    OwnOccurrence(ws, a, b);
    assert SpaceFree(ws[..a]) by {
      forall i | 0 <= i < a ensures ' ' !in ws[..a][i] {
        assert ws[..a][i] == ws[i];
      }
    }
    var idx := IndexOf(Spaced(ws), Spaced(ws[a..b]), 0);
    SpacesBeforeCut(ws[..a], Spaced(ws[a..b]) + Spaced(ws[b..]), idx);
    assert Spaced(ws) == Spaced(ws[..a]) + (Spaced(ws[a..b]) + Spaced(ws[b..]));
  }

  /** `indexOf` finds `t` when the needle occurs there and no earlier position starts with its first character. */
  lemma {:induction false} IndexFromFirst(hay: string, needle: string, k: nat, t: nat)
    requires |needle| > 0 && k <= t && Occurs(hay, needle, t)
    requires forall j :: k <= j < t ==> hay[j] != needle[0]
    ensures IndexFrom(hay, needle, k) == t
    decreases t - k
  {
    if k < t {
      assert hay[k..k + |needle|][0] == hay[k];
      IndexFromFirst(hay, needle, k + 1, t);
    }
  }
}
