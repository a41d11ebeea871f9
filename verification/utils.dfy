/**
 * `Utils.copyArrays`: the helper every code generator uses to lay several
 * arrays one after another into a destination array.
 */
module Utils {

  /** Sum of the lengths of `parts`. */
  function TotalLength<T>(parts: seq<seq<T>>): nat
  {
    if parts == [] then 0 else |parts[0]| + TotalLength(parts[1..])
  }

  /** `parts` laid end to end. */
  function Concat<T>(parts: seq<seq<T>>): (r: seq<T>)
    ensures |r| == TotalLength(parts)
  {
    if parts == [] then [] else parts[0] + Concat(parts[1..])
  }

  lemma {:induction false} ConcatSnoc<T>(parts: seq<seq<T>>, last: seq<T>)
    ensures Concat(parts + [last]) == Concat(parts) + last
    ensures TotalLength(parts + [last]) == TotalLength(parts) + |last|
  {
    if parts == [] {
      assert [last][1..] == [];
    } else {
      assert (parts + [last])[1..] == parts[1..] + [last];
      ConcatSnoc(parts[1..], last);
    }
  }

  /**
   * `copyArrays(destination, loc, toCopy...)`: each array is copied in turn,
   * the first at `loc` and each next one right after the previous. The
   * `System.arraycopy` bounds check is the precondition.
   */
  method CopyArrays<T>(destination: seq<T>, loc: nat, toCopy: seq<seq<T>>) returns (r: seq<T>)
    requires loc + TotalLength(toCopy) <= |destination|
    ensures |r| == |destination|
    ensures r[..loc] == destination[..loc]
    ensures r[loc..loc + TotalLength(toCopy)] == Concat(toCopy)
    ensures r[loc + TotalLength(toCopy)..] == destination[loc + TotalLength(toCopy)..]
  {
    r := destination;
    var at := loc;
    var k := 0;
    while k < |toCopy|
      invariant 0 <= k <= |toCopy|
      invariant at == loc + TotalLength(toCopy[..k])
      invariant TotalLength(toCopy[..k]) + TotalLength(toCopy[k..]) == TotalLength(toCopy)
      invariant |r| == |destination|
      invariant r[..loc] == destination[..loc]
      invariant r[loc..at] == Concat(toCopy[..k])
      invariant r[at..] == destination[at..]
    {
      var part := toCopy[k];
      assert toCopy[k..] == [part] + toCopy[k + 1..];
      assert toCopy[..k + 1] == toCopy[..k] + [part];
      ConcatSnoc(toCopy[..k], part);
      r := r[..at] + part + r[at + |part|..];
      at := at + |part|;
      k := k + 1;
    }
    assert toCopy[..k] == toCopy;
  }

  /** Copying into a fresh array of exactly the total length just concatenates the parts. */
  method CopyIntoExact<T>(toCopy: seq<seq<T>>, filler: T) returns (r: seq<T>)
    ensures r == Concat(toCopy)
  {
    var destination := seq(TotalLength(toCopy), _ => filler);
    r := CopyArrays(destination, 0, toCopy);
    assert r == r[0..TotalLength(toCopy)];
  }
}
