/**
 * `SyntaxTreeBinder`: the builders the grammar rules hand their matched
 * tokens to. A builder reads tokens by position, so a short list throws
 * as `List.get` does. An object used as a value must be a value node
 * (`ClassCast` otherwise) and must be present: a missing object is
 * reported as `NullPointer` here, where Java would build a node with a
 * null field that fails later.
 *
 * The if / else-if / else builders grow one `If` node, the head of a
 * chain. The head counts the `else if` links below it (`lastElseIf`) and
 * marks a final `else` (`hasElse`). Each link is the only block of the
 * else code of the link above it.
 */
module Binder {
  import opened Base
  import opened Tokens
  import opened SyntaxTree
  import opened Errors
  import Parser

  // ---------------------------------------------------------------------
  // Reading the matched tokens
  // ---------------------------------------------------------------------

  /** `getTokens().get(i)`. */
  function Get(ts: seq<Token>, i: nat): (r: Attempt<Token>)
    ensures r.Ok? <==> i < |ts|
    ensures r.Ok? ==> r.value == ts[i]
    ensures !r.Ok? ==> r == Threw(IndexOutOfBounds)
  {
    if i < |ts| then Ok(ts[i]) else Threw(IndexOutOfBounds)
  }

  /** `(SyntaxTree.Value) get(i).getObject()`, where the value is then used. */
  function ValueAt(ts: seq<Token>, i: nat): (r: Attempt<Node>)
    ensures r.Ok? <==> i < |ts| && ts[i].obj.Some? && IsValue(ts[i].obj.value)
    ensures r.Ok? ==> r.value == ts[i].obj.value
    ensures !r.OutOfFuel?
  {
    var t :- Get(ts, i);
    match t.obj
    case None => Threw(NullPointer)
    case Some(n) => if IsValue(n) then Ok(n) else Threw(ClassCast)
  }

  /** A body as `If` and `While` take it: no program gives an empty `Blocks`. */
  function Body(obj: Option<Node>): (b: Node)
    ensures b.Blocks?
  {
    if obj.None? then Blocks([]) else AsBody(obj.value)
  }

  /** A builder's node as the parser receives it, with no error reported. */
  function Yield(r: Attempt<Node>): (b: Parser.Built)
    ensures b.raised.None?
    ensures r.Ok? <==> b.node.Ok?
    ensures r.Ok? ==> b.node.value == Some(r.value)
    ensures r.Threw? <==> b.node.Threw?
  {
    Parser.Built(match r case Ok(n) => Ok(Some(n)) case Threw(x) => Threw(x) case OutOfFuel => OutOfFuel, None)
  }

  // ---------------------------------------------------------------------
  // Literals
  // ---------------------------------------------------------------------

  /** `numberExpression`: the number the first token spells. */
  function NumberExpression(ts: seq<Token>): (r: Attempt<Node>)
    ensures r.Ok? <==> |ts| > 0
    ensures r.Ok? ==> r.value.Number? && r.value.num == DecimalNum(ts[0].text)
  {
    var t :- Get(ts, 0);
    Ok(Number(DecimalNum(t.text)))
  }

  /** `textExpression`: the first token's text without its first and last characters. */
  function TextExpression(ts: seq<Token>): (r: Attempt<Node>)
    ensures r.Ok? <==> |ts| > 0 && |ts[0].text| >= 2
    ensures r.Ok? ==> r.value.Text? &&
                      ts[0].text == [ts[0].text[0]] + r.value.str + [ts[0].text[|ts[0].text| - 1]]
    ensures !r.Ok? ==> r == Threw(IndexOutOfBounds)
  {
    var t :- Get(ts, 0);
    if |t.text| < 2 then Threw(IndexOutOfBounds)
    else
      var s := t.text;
      assert s == [s[0]] + s[1..|s| - 1] + [s[|s| - 1]];
      Ok(Text(s[1..|s| - 1]))
  }

  /** A quoted literal gives back exactly the text between its quotes. */
  lemma TextRoundTrip(open: char, s: string, close: char, name: string, line: int, rest: seq<Token>)
    ensures TextExpression([Token(name, [open] + s + [close], line, None)] + rest) == Ok(Text(s))
  {
    var ts := [Token(name, [open] + s + [close], line, None)] + rest;
    var t := ts[0].text;
    assert t[1..|t| - 1] == s;
  }

  /** `boolExpression`: true exactly for the text "true". */
  function BoolExpression(ts: seq<Token>): (r: Attempt<Node>)
    ensures r.Ok? <==> |ts| > 0
    ensures r.Ok? ==> r.value.Boolean? && (r.value.b <==> ts[0].text == "true")
  {
    var t :- Get(ts, 0);
    Ok(Boolean(t.text == "true"))
  }

  /** `nullExpression`: the shared `Null` value, whatever the tokens. */
  function NullExpression(ts: seq<Token>): (r: Attempt<Node>)
    ensures r.Ok? && r.value.Null? && DataOf(r.value).None?
  {
    Ok(Null)
  }

  // ---------------------------------------------------------------------
  // Operators
  // ---------------------------------------------------------------------

  /** The operator builders: `exponentiation`, `operationsWithPriority1..3`, `comparisonOperators`. */
  datatype OpClass = Exponent | Priority1 | Priority2 | Comparison | Priority3

  /** The node kinds each builder can make. */
  function Kinds(c: OpClass): set<OpKind>
  {
    match c
    case Exponent => {Pow}
    case Priority1 => {Mul, Mod, Div}
    case Priority2 => {Add, Sub}
    case Comparison => {Equals, GreaterThan, LesserThan, LesserThanOrEqual, NotEquals, GreaterThanOrEqual}
    case Priority3 => {RightShift, LeftShift, Xor, BitwiseAnd, And, Or, BitwiseOr}
  }

  /**
   * The node kind a builder picks for the operator's text. An unknown text
   * falls to the builder's default: `Div`, `Sub`, `GreaterThanOrEqual`,
   * `BitwiseOr`.
   */
  function KindOf(c: OpClass, op: string): (k: OpKind)
    ensures k in Kinds(c)
    ensures c == Priority1 && op !in ["*", "%"] ==> k == Div
    ensures c == Priority2 && op != "+" ==> k == Sub
    ensures c == Comparison && op !in ["==", ">", "<", "<=", "!="] ==> k == GreaterThanOrEqual
    ensures c == Priority3 && op !in [">>", "<<", "^", "&", "and", "&&", "or", "||"] ==> k == BitwiseOr
  {
    match c
    case Exponent => Pow
    case Priority1 =>
      if op == "*" then Mul else if op == "%" then Mod else Div
    case Priority2 =>
      if op == "+" then Add else Sub
    case Comparison =>
      if op == "==" then Equals
      else if op == ">" then GreaterThan
      else if op == "<" then LesserThan
      else if op == "<=" then LesserThanOrEqual
      else if op == "!=" then NotEquals
      else GreaterThanOrEqual
    case Priority3 =>
      if op == ">>" then RightShift
      else if op == "<<" then LeftShift
      else if op == "^" then Xor
      else if op == "&" then BitwiseAnd
      else if op == "and" || op == "&&" then And
      else if op == "or" || op == "||" then Or
      else BitwiseOr
  }

  /** One way to write each operator kind. */
  function Spelling(k: OpKind): string
  {
    match k
    case Pow => "**"
    case Mul => "*"
    case Div => "/"
    case Mod => "%"
    case Add => "+"
    case Sub => "-"
    case Equals => "=="
    case NotEquals => "!="
    case GreaterThan => ">"
    case LesserThan => "<"
    case GreaterThanOrEqual => ">="
    case LesserThanOrEqual => "<="
    case And => "and"
    case Or => "||"
    case BitwiseAnd => "&"
    case BitwiseOr => "|"
    case LeftShift => "<<"
    case RightShift => ">>"
    case Xor => "^"
    case _ => ""
  }

  /** Every kind a builder can make is reached by its spelling: no kind is dead code. */
  lemma KindSpelling(c: OpClass, k: OpKind)
    requires k in Kinds(c)
    ensures KindOf(c, Spelling(k)) == k
  {
    match c
    case Exponent =>
    case Priority1 =>
    case Priority2 =>
    case Comparison => ComparisonSpelling(k);
    case Priority3 => Priority3Spelling(k);
  }

  lemma ComparisonSpelling(k: OpKind)
    requires k in Kinds(Comparison)
    ensures KindOf(Comparison, Spelling(k)) == k
  {
    match k
    case Equals =>
    case GreaterThan =>
    case LesserThan =>
    case LesserThanOrEqual =>
    case NotEquals =>
    case GreaterThanOrEqual =>
  }

  lemma Priority3Spelling(k: OpKind)
    requires k in Kinds(Priority3)
    ensures KindOf(Priority3, Spelling(k)) == k
  {
    match k
    case RightShift =>
    case LeftShift =>
    case Xor =>
    case BitwiseAnd =>
    case And =>
    case Or =>
    case BitwiseOr =>
  }

  /** The operator text, read from token 1 by every builder but `exponentiation`. */
  function OperatorText(c: OpClass, ts: seq<Token>): (r: Attempt<string>)
    ensures r.Ok? <==> c == Exponent || |ts| > 1
    ensures r.Ok? && c != Exponent ==> r.value == ts[1].text
  {
    if c == Exponent then Ok(Spelling(Pow))
    else
      var t :- Get(ts, 1);
      Ok(t.text)
  }

  /** An operator builder: token 0 is the left operand, token 2 the right, token 1 picks the kind. */
  function Operation(c: OpClass, ts: seq<Token>): (r: Attempt<Node>)
    ensures r.Ok? <==> |ts| > 2 && ValueAt(ts, 0).Ok? && ValueAt(ts, 2).Ok?
    ensures r.Ok? ==> r.value.Operator? && r.value.inplace.None? &&
                      r.value.kind == KindOf(c, ts[1].text) &&
                      r.value.value1 == ts[0].obj.value && r.value.value2 == ts[2].obj.value
  {
    var op :- OperatorText(c, ts);
    var left :- ValueAt(ts, 0);
    var right :- ValueAt(ts, 2);
    Ok(Operator(KindOf(c, op), left, right, None))
  }

  // ---------------------------------------------------------------------
  // Statements
  // ---------------------------------------------------------------------

  /** `print`: prints the value of token 1. */
  function PrintStatement(ts: seq<Token>): (r: Attempt<Node>)
    ensures r.Ok? <==> ValueAt(ts, 1).Ok?
    ensures r.Ok? ==> r.value.Print? && r.value.message == ts[1].obj.value
  {
    var v :- ValueAt(ts, 1);
    Ok(Print(v))
  }

  /** The objects of the tokens, in order; a missing one cannot be added to a `Blocks`. */
  function Objects(ts: seq<Token>): (r: Attempt<seq<Node>>)
    ensures r.Ok? <==> forall i :: 0 <= i < |ts| ==> ts[i].obj.Some?
    ensures r.Ok? ==> |r.value| == |ts| && forall i :: 0 <= i < |ts| ==> r.value[i] == ts[i].obj.value
    ensures !r.Ok? ==> r == Threw(NullPointer)
  {
    if ts == [] then Ok([])
    else if ts[0].obj.None? then Threw(NullPointer)
    else
      var rest :- Objects(ts[1..]);
      Ok([ts[0].obj.value] + rest)
  }

  /** The separators `programs` drops. */
  function Separated(ts: seq<Token>): seq<Token>
  {
    Parser.Kept(Parser.Kept(ts, "SEMICOLON"), "NEWLINE")
  }

  /** `programs`: drops the separators and puts the remaining tokens' objects in a `Blocks`, in order. */
  function Programs(ts: seq<Token>): (r: Attempt<Node>)
    ensures var kept := Separated(ts);
            (r.Ok? <==> forall i :: 0 <= i < |kept| ==> kept[i].obj.Some?) &&
            (r.Ok? ==> r.value.Blocks? && |r.value.blocks| == |kept| &&
                       forall i :: 0 <= i < |kept| ==> r.value.blocks[i] == kept[i].obj.value)
    ensures var kept := Separated(ts);
            forall i :: 0 <= i < |kept| ==> kept[i].name != "SEMICOLON" && kept[i].name != "NEWLINE"
  {
    var kept := Separated(ts);
    KeptKeeps(Parser.Kept(ts, "SEMICOLON"), "NEWLINE", "SEMICOLON");
    var objs :- Objects(kept);
    Ok(Blocks(objs))
  }

  /** Dropping one name keeps the absence of another. */
  lemma {:induction false} KeptKeeps(ts: seq<Token>, name: string, other: string)
    requires forall i :: 0 <= i < |ts| ==> ts[i].name != other
    ensures forall i :: 0 <= i < |Parser.Kept(ts, name)| ==> Parser.Kept(ts, name)[i].name != other
  {
    if ts != [] {
      KeptKeeps(ts[1..], name, other);
    }
  }

  /** Dropping one name leaves the count of another. */
  lemma {:induction false} CountAfterKept(ts: seq<Token>, dropped: string, name: string)
    requires dropped != name
    ensures Parser.Count(Parser.Kept(ts, dropped), name) == Parser.Count(ts, name)
  {
    if ts != [] {
      CountAfterKept(ts[1..], dropped, name);
    }
  }

  /** A `Blocks` from `programs` has one block per token that is not a separator. */
  lemma ProgramsCount(ts: seq<Token>)
    requires Programs(ts).Ok?
    ensures |Programs(ts).value.blocks| == |ts| - Parser.Count(ts, "SEMICOLON") - Parser.Count(ts, "NEWLINE")
  {
    var k1 := Parser.Kept(ts, "SEMICOLON");
    Parser.RemoveCounts(ts, "SEMICOLON", 0);
    Parser.RemoveCounts(k1, "NEWLINE", 0);
    CountAfterKept(ts, "SEMICOLON", "NEWLINE");
  }

  /** `whileStatement`: the loop on token 1, with the program of token 3 as its body. */
  function WhileStatement(ts: seq<Token>): (r: Attempt<Node>)
    ensures r.Ok? <==> |ts| > 3 && ValueAt(ts, 1).Ok?
    ensures r.Ok? ==> r.value.While? && r.value.loopCondition == ts[1].obj.value &&
                      r.value.body.Blocks? && (ts[3].obj.None? ==> r.value.body == Blocks([]))
  {
    var t :- Get(ts, 3);
    var c :- ValueAt(ts, 1);
    Ok(While(c, Body(t.obj)))
  }

  // ---------------------------------------------------------------------
  // if / else if / else chains
  // ---------------------------------------------------------------------

  /** The `d`-th link of the chain from `n` (`n` itself at depth 0), when there is one. */
  function LinkAt(n: Node, d: nat): (r: Option<Node>)
    ensures r.Some? ==> r.value.If?
    ensures d == 0 && n.If? ==> r == Some(n)
    decreases n
  {
    if !n.If? then None
    else if d == 0 then Some(n)
    else
      match n.elseCode
      case Some(Blocks(bs)) => if |bs| == 1 then LinkAt(bs[0], d - 1) else None
      case _ => None
  }

  /** The condition and code of each link of the chain from `n`, down to depth `d`. */
  function Arms(n: Node, d: nat): (r: seq<(Node, Node)>)
    ensures |r| <= d + 1
    decreases n
  {
    if !n.If? then []
    else
      [(n.condition, n.code)] +
      if d == 0 then []
      else
        match n.elseCode
        case Some(Blocks(bs)) => if |bs| == 1 then Arms(bs[0], d - 1) else []
        case _ => []
  }

  /**
   * An `If` that heads a chain of `lastElseIf` links; while no `else` has
   * been seen the last link has no else code.
   */
  predicate WellChained(h: Node)
  {
    h.If? && LinkAt(h, h.lastElseIf).Some? &&
    (!h.hasElse ==> LinkAt(h, h.lastElseIf).value.elseCode.None?)
  }

  /** `lastElseIf.setElseCode(code)`: replaces the else code of the link at depth `d`. */
  function SetElseAt(n: Node, d: nat, code: Node): (m: Node)
    ensures m.If? <==> n.If?
    ensures n.If? ==> m.condition == n.condition && m.code == n.code &&
                      m.hasElse == n.hasElse && m.lastElseIf == n.lastElseIf
    decreases n
  {
    if !n.If? then n
    else if d == 0 then n.(elseCode := Some(AsBody(code)))
    else
      match n.elseCode
      case Some(Blocks(bs)) => if |bs| == 1 then n.(elseCode := Some(Blocks([SetElseAt(bs[0], d - 1, code)]))) else n
      case _ => n
  }

  /** The link at depth `d` gets the new else code; the head and the arms down to `d` are unchanged. */
  lemma {:induction false} SetElseAtLinks(n: Node, d: nat, code: Node)
    requires LinkAt(n, d).Some?
    ensures var m := SetElseAt(n, d, code);
            m.If? && m.condition == n.condition && m.code == n.code &&
            m.hasElse == n.hasElse && m.lastElseIf == n.lastElseIf &&
            Arms(m, d) == Arms(n, d) &&
            LinkAt(m, d) == Some(LinkAt(n, d).value.(elseCode := Some(AsBody(code))))
    decreases n
  {
    if d > 0 {
      var bs := n.elseCode.value.blocks;
      SetElseAtLinks(bs[0], d - 1, code);
      var m := SetElseAt(n, d, code);
      assert m.elseCode == Some(Blocks([SetElseAt(bs[0], d - 1, code)]));
    }
  }

  /** An `If` that is the only block of the else code of link `d` is link `d + 1`, and one arm more. */
  lemma {:induction false} LinkAfter(n: Node, d: nat, x: Node)
    requires LinkAt(n, d).Some? && LinkAt(n, d).value.elseCode == Some(Blocks([x])) && x.If?
    ensures LinkAt(n, d + 1) == Some(x)
    ensures Arms(n, d + 1) == Arms(n, d) + [(x.condition, x.code)]
    decreases n
  {
    if d > 0 {
      LinkAfter(n.elseCode.value.blocks[0], d - 1, x);
    }
  }

  /** Below the head, links and arms depend only on the head's condition, code and else code. */
  lemma SameBelow(a: Node, b: Node, d: nat)
    requires a.If? && b.If? && a.condition == b.condition && a.code == b.code && a.elseCode == b.elseCode
    ensures Arms(a, d) == Arms(b, d)
    ensures d > 0 ==> LinkAt(a, d) == LinkAt(b, d)
  {
  }

  /** `elseIfStatement` on a head: the new link goes below the last one and the head counts it. */
  function ExtendChain(h: Node, link: Node): Node
    requires h.If?
  {
    var m := SetElseAt(h, h.lastElseIf, link);
    m.(lastElseIf := h.lastElseIf + 1)
  }

  /** `elseStatement` on a head: the last link gets the else code and the head is marked. */
  function CloseChain(h: Node, code: Node): Node
    requires h.If?
  {
    var m := SetElseAt(h, h.lastElseIf, code);
    m.(hasElse := true)
  }

  /** An `else if` adds exactly one arm at the end and keeps the chain open. */
  lemma ExtendChainArms(h: Node, link: Node)
    requires WellChained(h) && !h.hasElse && link.If? && link.elseCode.None?
    ensures var r := ExtendChain(h, link);
            WellChained(r) && !r.hasElse && r.lastElseIf == h.lastElseIf + 1 &&
            r.condition == h.condition && r.code == h.code &&
            Arms(r, r.lastElseIf) == Arms(h, h.lastElseIf) + [(link.condition, link.code)]
  {
    var d := h.lastElseIf;
    var m := SetElseAt(h, d, link);
    SetElseAtLinks(h, d, link);
    assert AsBody(link) == Blocks([link]);
    LinkAfter(m, d, link);
    var r := ExtendChain(h, link);
    SameBelow(r, m, d + 1);
  }

  /** An `else` keeps the arms, gives the last link its else code and closes the chain. */
  lemma CloseChainArms(h: Node, code: Node)
    requires WellChained(h)
    ensures var r := CloseChain(h, code);
            WellChained(r) && r.hasElse && r.lastElseIf == h.lastElseIf &&
            r.condition == h.condition && r.code == h.code &&
            Arms(r, r.lastElseIf) == Arms(h, h.lastElseIf) &&
            LinkAt(r, r.lastElseIf).value.elseCode == Some(AsBody(code))
  {
    var d := h.lastElseIf;
    var m := SetElseAt(h, d, code);
    SetElseAtLinks(h, d, code);
    var r := CloseChain(h, code);
    SameBelow(r, m, d);
  }

  /** `ifStatement`: a one-arm chain on token 1, with the program of token 3 as its code. */
  function IfStatement(ts: seq<Token>): (r: Attempt<Node>)
    ensures r.Ok? <==> |ts| > 3 && ValueAt(ts, 1).Ok?
    ensures r.Ok? ==> WellChained(r.value) && !r.value.hasElse && r.value.lastElseIf == 0 &&
                      Arms(r.value, 0) == [(ts[1].obj.value, Body(ts[3].obj))]
  {
    var t :- Get(ts, 3);
    var c :- ValueAt(ts, 1);
    Ok(If(c, Body(t.obj), None, false, 0))
  }

  /** The object of the first token is an `If`. */
  predicate HeadIsIf(ts: seq<Token>)
  {
    |ts| > 0 && ts[0].obj.Some? && ts[0].obj.value.If?
  }

  /**
   * `elseIfStatement`: `program ELSEIF expression LEFT_BRACE (program)?
   * RIGHT_BRACE`. After an `if` it adds a link on token 2 with the program
   * of token 4; not after an `if`, or after an `else`, it reports an error
   * and gives no object.
   */
  function ElseIfStatement(ts: seq<Token>): (b: Parser.Built)
    ensures |ts| > 0 && !HeadIsIf(ts) ==> b == Parser.Built(Ok(None), Some(InvalidUseOfElseIfStatement(ts[0].line)))
    ensures HeadIsIf(ts) && |ts| > 4 && ts[0].obj.value.hasElse ==>
              b == Parser.Built(Ok(None), Some(UseOfElseIfAfterElse(ts[1].line)))
    ensures b.raised.None? && b.node.Ok? ==>
              HeadIsIf(ts) && |ts| > 4 && !ts[0].obj.value.hasElse && ValueAt(ts, 2).Ok? &&
              b.node.value == Some(ExtendChain(ts[0].obj.value, If(ts[2].obj.value, Body(ts[4].obj), None, false, 0)))
  {
    if |ts| == 0 then Parser.Built(Threw(IndexOutOfBounds), None)
    else if !HeadIsIf(ts) then Parser.Built(Ok(None), Some(InvalidUseOfElseIfStatement(ts[0].line)))
    else if |ts| < 5 then Parser.Built(Threw(IndexOutOfBounds), None)
    else
      var h := ts[0].obj.value;
      if h.hasElse then Parser.Built(Ok(None), Some(UseOfElseIfAfterElse(ts[1].line)))
      else
        match ValueAt(ts, 2)
        case Ok(c) => Parser.Built(Ok(Some(ExtendChain(h, If(c, Body(ts[4].obj), None, false, 0)))), None)
        case Threw(x) => Parser.Built(Threw(x), None)
        case OutOfFuel => Parser.Built(OutOfFuel, None)
  }

  /**
   * `elseStatement`: `program ELSE LEFT_BRACE (program)? RIGHT_BRACE`.
   * After an `if` it gives the last link the program of token 3 as else
   * code and marks the head; otherwise it reports an error.
   */
  function ElseStatement(ts: seq<Token>): (b: Parser.Built)
    ensures |ts| > 0 && !HeadIsIf(ts) ==> b == Parser.Built(Ok(None), Some(InvalidUseOfElseStatement(ts[0].line)))
    ensures b.raised.None? && b.node.Ok? ==>
              HeadIsIf(ts) && |ts| > 3 && b.node.value == Some(CloseChain(ts[0].obj.value, Body(ts[3].obj)))
  {
    if |ts| == 0 then Parser.Built(Threw(IndexOutOfBounds), None)
    else if !HeadIsIf(ts) then Parser.Built(Ok(None), Some(InvalidUseOfElseStatement(ts[0].line)))
    else if |ts| < 4 then Parser.Built(Threw(IndexOutOfBounds), None)
    else Parser.Built(Ok(Some(CloseChain(ts[0].obj.value, Body(ts[3].obj)))), None)
  }

  /** On an open chain, `else if` appends the arm of tokens 2 and 4 and keeps the chain well formed. */
  lemma ElseIfAppendsArm(ts: seq<Token>)
    requires HeadIsIf(ts) && WellChained(ts[0].obj.value) && !ts[0].obj.value.hasElse
    requires |ts| > 4 && ValueAt(ts, 2).Ok?
    ensures var b := ElseIfStatement(ts);
            var h := ts[0].obj.value;
            b.raised.None? && b.node.Ok? && b.node.value.Some? &&
            var r := b.node.value.value;
            WellChained(r) && !r.hasElse && r.lastElseIf == h.lastElseIf + 1 &&
            Arms(r, r.lastElseIf) == Arms(h, h.lastElseIf) + [(ts[2].obj.value, Body(ts[4].obj))]
  {
    var h := ts[0].obj.value;
    ExtendChainArms(h, If(ts[2].obj.value, Body(ts[4].obj), None, false, 0));
  }

  /** On a chain, `else` keeps the arms and makes the program of token 3 the final else code. */
  lemma ElseClosesChain(ts: seq<Token>)
    requires HeadIsIf(ts) && WellChained(ts[0].obj.value) && |ts| > 3
    ensures var b := ElseStatement(ts);
            var h := ts[0].obj.value;
            b.raised.None? && b.node.Ok? && b.node.value.Some? &&
            var r := b.node.value.value;
            WellChained(r) && r.hasElse && r.lastElseIf == h.lastElseIf &&
            Arms(r, r.lastElseIf) == Arms(h, h.lastElseIf) &&
            LinkAt(r, r.lastElseIf).value.elseCode == Some(Body(ts[3].obj))
  {
    CloseChainArms(ts[0].obj.value, Body(ts[3].obj));
  }

  /** Once a chain has its `else`, a further `else if` is an error and builds nothing. */
  lemma NoElseIfAfterElse(ts: seq<Token>)
    requires HeadIsIf(ts) && ts[0].obj.value.hasElse && |ts| > 4
    ensures ElseIfStatement(ts) == Parser.Built(Ok(None), Some(UseOfElseIfAfterElse(ts[1].line)))
  {
  }
}
