/**
 * Shared vocabulary of the compiler model: optional values and the few
 * string operations the Java code relies on (`startsWith`, `toUpperCase`,
 * `String.join(" ", ...)` and `split(" ")`).
 */
module Base {

  datatype Option<T> = None | Some(value: T)

  /** Java's `s.startsWith(p)`. */
  predicate StartsWith(s: string, p: string)
  {
    |p| <= |s| && s[..|p|] == p
  }

  /** Number of occurrences of `c` in `s`. */
  function CountChar(s: string, c: char): (n: nat)
    ensures n <= |s|
  {
    if s == [] then 0 else (if s[0] == c then 1 else 0) + CountChar(s[1..], c)
  }

  /** No occurrence is counted exactly when `c` does not occur. */
  lemma {:induction false} CountCharNone(s: string, c: char)
    ensures CountChar(s, c) == 0 <==> c !in s
  {
    if s != [] {
      CountCharNone(s[1..], c);
      assert s == [s[0]] + s[1..];
    }
  }

  lemma {:induction false} CountCharAppend(a: string, b: string, c: char)
    ensures CountChar(a + b, c) == CountChar(a, c) + CountChar(b, c)
  {
    if a == [] {
      assert a + b == b;
    } else {
      assert (a + b)[1..] == a[1..] + b;
      CountCharAppend(a[1..], b, c);
    }
  }

  /** Java's `Character.toUpperCase` restricted to ASCII letters. */
  function UpperChar(c: char): char
  {
    if 'a' <= c <= 'z' then (c as int - 32) as char else c
  }

  /** Java's `s.toUpperCase()` restricted to ASCII letters. */
  function ToUpper(s: string): (u: string)
    ensures |u| == |s|
    ensures forall i :: 0 <= i < |s| ==> u[i] == UpperChar(s[i])
  {
    if s == [] then [] else [UpperChar(s[0])] + ToUpper(s[1..])
  }

  /** `s.equals(s.toUpperCase())`: `s` holds no lower-case ASCII letter. */
  predicate IsUpperCase(s: string)
  {
    ToUpper(s) == s
  }

  lemma IsUpperCaseIff(s: string)
    ensures IsUpperCase(s) <==> forall i :: 0 <= i < |s| ==> !('a' <= s[i] <= 'z')
  {
    if IsUpperCase(s) {
      forall i | 0 <= i < |s|
        ensures !('a' <= s[i] <= 'z')
      {
        assert ToUpper(s)[i] == s[i];
      }
    }
  }

  /** Java's `String.join(" ", ws)`: the words separated by single spaces. */
  function Join(ws: seq<string>): (s: string)
    ensures |ws| == 0 ==> s == ""
    ensures |ws| == 1 ==> s == ws[0]
  {
    if |ws| == 0 then ""
    else if |ws| == 1 then ws[0]
    else ws[0] + " " + Join(ws[1..])
  }

  /**
   * Splits `s` at every space, keeping empty fields.
   */
  function SplitSpaces(s: string): (ws: seq<string>)
    ensures |ws| >= 1 && SpaceFree(ws)
  {
    if ' ' !in s then [s]
    else
      var k := FirstSpace(s);
      [s[..k]] + SplitSpaces(s[k + 1..])
  }

  /** Index of the first space of `s`. */
  function FirstSpace(s: string): (k: nat)
    requires ' ' in s
    ensures k < |s| && s[k] == ' '
    ensures ' ' !in s[..k]
  {
    if s[0] == ' ' then 0
    else
      var k := FirstSpace(s[1..]);
      assert s[..k + 1] == [s[0]] + s[1..][..k];
      k + 1
  }

  /** Words a space-separated map can be made of: no spaces inside. */
  predicate SpaceFree(ws: seq<string>)
  {
    forall i :: 0 <= i < |ws| ==> ' ' !in ws[i]
  }

  /** The first space of `a + " " + b` is the one after `a` when `a` has none. */
  lemma FirstSpaceAfter(a: string, b: string)
    requires ' ' !in a
    ensures ' ' in a + " " + b
    ensures FirstSpace(a + " " + b) == |a|
  {
    var s := a + " " + b;
    assert s[|a|] == ' ';
  }

  /** Splitting a joined word list gives the words back. */
  lemma {:induction false} SplitJoin(ws: seq<string>)
    requires |ws| > 0 && SpaceFree(ws)
    ensures SplitSpaces(Join(ws)) == ws
  {
    if |ws| > 1 {
      var a, b := ws[0], Join(ws[1..]);
      assert Join(ws) == a + " " + b;
      FirstSpaceAfter(a, b);
      var s := a + " " + b;
      assert s[..|a|] == a;
      assert s[|a| + 1..] == b;
      SplitJoin(ws[1..]);
      assert SplitSpaces(s) == [a] + SplitSpaces(b);
    }
  }

  /** Joining the fields of a split string gives the string back. */
  lemma {:induction false} JoinSplit(s: string)
    ensures Join(SplitSpaces(s)) == s
  {
    if ' ' in s {
      var k := FirstSpace(s);
      var rest := SplitSpaces(s[k + 1..]);
      JoinSplit(s[k + 1..]);
      assert SplitSpaces(s) == [s[..k]] + rest;
      assert Join([s[..k]] + rest) == s[..k] + " " + Join(rest) by {
        assert ([s[..k]] + rest)[1..] == rest;
      }
      assert s == s[..k] + " " + s[k + 1..];
    }
  }

  /** Java's `s.replace(target, replacement)`: every occurrence, scanning left to right. */
  function ReplaceAll(s: string, target: string, replacement: string): (r: string)
    requires |target| > 0
    decreases |s|
  {
    if |s| < |target| then s
    else if s[..|target|] == target then replacement + ReplaceAll(s[|target|..], target, replacement)
    else [s[0]] + ReplaceAll(s[1..], target, replacement)
  }

  /** A string without any character of `target` is left alone. */
  lemma {:induction false} ReplaceAbsent(s: string, target: string, replacement: string, c: char)
    requires |target| > 0 && c in target && c !in s
    ensures ReplaceAll(s, target, replacement) == s
    decreases |s|
  {
    if |s| >= |target| {
      assert c !in s[..|target|];
      ReplaceAbsent(s[1..], target, replacement, c);
      assert s == [s[0]] + s[1..];
    }
  }
}
