/**
 * `NewlineToken`: the lexer's custom recognizer for a run of line breaks.
 * It applies when the input starts with '\n' and takes every '\n' up to
 * the first other character.
 */
module NewlineToken {

  /** `check`: the input starts with a line break. */
  predicate Check(data: string)
  {
    |data| > 0 && data[0] == '\n'
  }

  /** Length of the run of line breaks at the start of `data`. */
  function RunLength(data: string): (k: nat)
    ensures k <= |data|
    ensures forall i :: 0 <= i < k ==> data[i] == '\n'
    ensures k < |data| ==> data[k] != '\n'
    ensures Check(data) <==> k > 0
  {
    if data == [] || data[0] != '\n' then 0 else 1 + RunLength(data[1..])
  }

  /** `getText`, as the loop of the source computes it. */
  method GetText(data: string) returns (text: string)
    ensures text == data[..RunLength(data)]
    ensures forall c :: c in text ==> c == '\n'
    ensures |text| < |data| ==> data[|text|] != '\n'
  {
    var i := 0;
    while i < |data| && data[i] == '\n'
      invariant 0 <= i <= |data|
      invariant forall j :: 0 <= j < i ==> data[j] == '\n'
    {
      i := i + 1;
    }
    RunIsLongest(data, i);
    text := data[..i];
  }

  /** The run is the only prefix of line breaks followed by something else. */
  lemma {:induction false} RunIsLongest(data: string, i: nat)
    requires i <= |data|
    requires forall j :: 0 <= j < i ==> data[j] == '\n'
    requires i < |data| ==> data[i] != '\n'
    ensures RunLength(data) == i
  {
    if i > 0 {
      RunIsLongest(data[1..], i - 1);
    }
  }
}
