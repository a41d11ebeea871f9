/**
 * `Token`: a name (the lexer rule or grammar symbol), the matched text, the
 * line it ends on, and the syntax-tree node a grammar rule bound to it.
 * Tokens made by a grammar reduction carry no text (Java keeps `null`
 * there, which no builder reads); the model writes "".
 *
 * Also here: the Java exceptions the front end lets escape, and the
 * outcome of a front-end step that may throw one.
 */
module Tokens {
  import opened Base
  import opened SyntaxTree

  datatype Token = Token(name: string, text: string, line: int, obj: Option<Node>)

  /** `new Token()`: the lexer's answer when no recognizer matches. */
  function NoneToken(): (t: Token)
    ensures t.name == "NONE" && t.text == "" && t.obj.None?
  {
    Token("NONE", "", 0, None)
  }

  /** The token names, in order. */
  function Names(ts: seq<Token>): (ns: seq<string>)
    ensures |ns| == |ts|
    ensures forall i :: 0 <= i < |ts| ==> ns[i] == ts[i].name
  {
    if ts == [] then [] else [ts[0].name] + Names(ts[1..])
  }

  lemma NamesSlice(ts: seq<Token>, a: nat, b: nat)
    requires a <= b <= |ts|
    ensures Names(ts[a..b]) == Names(ts)[a..b]
  {
  }

  /** The exceptions a front-end step can throw. */
  datatype JavaException =
    | IndexOutOfBounds   // `List.get`, `String.substring` out of range
    | NoSuchElement      // `Optional.get` on an empty stream result
    | NullPointer        // a null child where a node is needed
    | ClassCast          // a non-value node where a `Value` is needed

  /**
   * The outcome of a step: a value, an exception, or the end of the fuel
   * that bounds the recursion the Java code leaves unbounded.
   */
  datatype Attempt<T> = Ok(value: T) | Threw(ex: JavaException) | OutOfFuel
  {
    predicate IsFailure()
    {
      !Ok?
    }

    function PropagateFailure<U>(): Attempt<U>
      requires IsFailure()
    {
      if Threw? then Threw(ex) else OutOfFuel
    }

    function Extract(): T
      requires Ok?
    {
      value
    }
  }
}
