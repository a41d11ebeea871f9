/**
 * The syntax tree shared by the front end and the back end (`SyntaxTree`):
 * values (literals, variables, operators, calls), statements (assignment,
 * print, if, while, function, return, continue, break, class) and the
 * `Blocks` sequence. The extra-data annotations the tools attach to nodes
 * (`id`, `inplace`) are ordinary fields here; the structural annotations
 * (`locals`, `condition`, `args`) follow from the node kind.
 */
module SyntaxTree {
  import opened Base

  /** A number literal holds either a Java `double` or a `BigDecimal`, kept as its decimal text. */
  datatype NumPayload = DoubleNum(d: string) | DecimalNum(dec: string)

  /** The operator classes, one per generator method of `SyntaxTree.Generator`. */
  datatype OpKind =
    | Add | Sub | Mul | Div | Mod | Pow
    | Equals | NotEquals | LooksEquals
    | GreaterThan | LesserThan | GreaterThanOrEqual | LesserThanOrEqual
    | And | Or | BitwiseAnd | BitwiseOr | LeftShift | RightShift | Xor
    | Negative | Not | BitwiseNot

  datatype Node =
      // values
    | Number(num: NumPayload)
    | Text(str: string)
    | Boolean(b: bool)
    | Null
    | List(items: seq<Node>)
      /** A HashMap literal; `entries` lists it in iteration order, keys pairwise unequal. */
    | Map(entries: seq<Entry>)
    | Variable(name: string, instance: Option<Node>, id: Option<int>)
    | Operator(kind: OpKind, value1: Node, value2: Node, inplace: Option<string>)
    | CallFunction(callee: string, args: seq<Node>, receiver: Option<Node>)
      /** `new C(args)`; a null argument array generates like an empty one. */
    | New(className: string, newArgs: seq<Node>)
    | This
    | Super
      // statements
    | SetVariable(target: string, value: Node, declaration: bool, setInstance: Option<Node>, setId: Option<int>)
    | Print(message: Node)
      /** `lastElseIf` is how many `else if` links hang below this head; `hasElse` marks a final `else`. */
    | If(condition: Node, code: Node, elseCode: Option<Node>, hasElse: bool, lastElseIf: nat)
    | While(loopCondition: Node, body: Node)
    | Function(functionName: string, params: seq<string>, functionCode: Node)
    | Return(returned: Node)
    | Continue
    | Break
    | Blocks(blocks: seq<Node>)
      /** `ScopeTool.Free`: end of a local variable's life. */
    | Free(freeName: string, freeId: Option<int>)
    | Class(className: string, parentClass: Option<string>, content: seq<Node>)

  /** One key/value pair of a map literal. */
  datatype Entry = Entry(key: Node, val: Node)

  /** Subclasses of `SyntaxTree.Value`: the nodes that leave a result on the VM stack. */
  predicate IsValue(n: Node)
  {
    n.Number? || n.Text? || n.Boolean? || n.Null? || n.List? || n.Map? || n.Variable? ||
    n.Operator? || n.CallFunction? || n.New? || n.This? || n.Super?
  }

  /** Statement nodes that open a scope of their own (`locals` extra data). */
  predicate HasLocals(n: Node)
  {
    n.If? || n.While? || n.Function?
  }

  /** Scope openers whose first value is a condition evaluated outside the scope (`condition` extra data). */
  predicate HasCondition(n: Node)
  {
    n.If? || n.While?
  }

  /** `If`, `While` and `Function` bodies are always a `Blocks`; a lone statement is wrapped. */
  function AsBody(n: Node): (b: Node)
    ensures b.Blocks?
    ensures n.Blocks? ==> b == n
    ensures !n.Blocks? ==> b.blocks == [n]
  {
    if n.Blocks? then n else Blocks([n])
  }

  // ---------------------------------------------------------------------
  // Value data and equality (`Value.getData`, `Value.equals`, `Value.hashCode`)
  // ---------------------------------------------------------------------

  /** What `getData()` returns, for the nodes that set it. */
  datatype Data =
    | DNum(n: NumPayload)
    | DText(s: string)
    | DBool(b: bool)
    | DList(elems: seq<Option<Data>>)
    | DMap(m: map<Option<Data>, Option<Data>>)

  /**
   * `getData()`: literals, lists and maps carry data; `Null` and every value
   * that never calls `setData` (variables, operators, calls, ...) carry null.
   */
  function DataOf(v: Node): (d: Option<Data>)
    ensures v.Null? || v.Variable? || v.Operator? ==> d.None?
    ensures v.Number? ==> d == Some(DNum(v.num))
    ensures v.Text? ==> d == Some(DText(v.str))
    ensures v.Boolean? ==> d == Some(DBool(v.b))
    ensures d.Some? <==> v.Number? || v.Text? || v.Boolean? || v.List? || v.Map?
    ensures v.List? ==> d.Some? && d.value.DList? && |d.value.elems| == |v.items| &&
                        forall k :: 0 <= k < |v.items| ==> d.value.elems[k] == DataOf(v.items[k])
    ensures v.Map? ==> d.Some? && d.value.DMap? &&
                       forall key :: key in d.value.m <==> exists k :: 0 <= k < |v.entries| && DataOf(v.entries[k].key) == key
  {
    match v
    case Number(p) => Some(DNum(p))
    case Text(s) => Some(DText(s))
    case Boolean(b) => Some(DBool(b))
    case List(items) => Some(DList(ListData(items)))
    case Map(entries) => Some(DMap(MapData(entries)))
    case _ => None
  }

  /** A list's data: its elements' data, in the order given. */
  function ListData(items: seq<Node>): (ds: seq<Option<Data>>)
    ensures |ds| == |items|
    ensures forall k :: 0 <= k < |items| ==> ds[k] == DataOf(items[k])
    decreases items
  {
    if items == [] then [] else [DataOf(items[0])] + ListData(items[1..])
  }

  /** The HashMap's contents as a map from key data to value data (a later put wins). */
  function MapData(entries: seq<Entry>): (m: map<Option<Data>, Option<Data>>)
    ensures forall key :: key in m <==> exists k :: 0 <= k < |entries| && EntryData(entries[k]).0 == key
    decreases entries
  {
    if entries == [] then map[]
    else
      var init := entries[..|entries| - 1];
      var last := EntryData(entries[|entries| - 1]);
      assert forall k :: 0 <= k < |init| ==> init[k] == entries[k];
      MapData(init)[last.0 := last.1]
  }

  function EntryData(e: Entry): (Option<Data>, Option<Data>)
    decreases e
  {
    (DataOf(e.key), DataOf(e.val))
  }

  /** `a.equals(b)` for two values: their data are equal (null only equals null). */
  predicate ValueEquals(a: Node, b: Node)
  {
    DataOf(a) == DataOf(b)
  }

  /** `hashCode()`: the data's hash, 0 for null data; the data hash is a parameter. */
  function ValueHash(v: Node, dataHash: Data -> int): (h: int)
    ensures DataOf(v).None? ==> h == 0
  {
    match DataOf(v)
    case None => 0
    case Some(d) => dataHash(d)
  }

  /** Equal values hash alike, as `HashMap` needs. */
  lemma EqualValuesHashAlike(a: Node, b: Node, dataHash: Data -> int)
    requires ValueEquals(a, b)
    ensures ValueHash(a, dataHash) == ValueHash(b, dataHash)
  {
  }

  /** Every value with null data equals `Null`, so variables and operators compare equal to it. */
  lemma NullDataEqualsNull(v: Node)
    requires v.Variable? || v.Operator? || v.Null?
    ensures ValueEquals(v, Null)
  {
  }

  // ---------------------------------------------------------------------
  // HashMap literal construction (`new Map(HashMap)` after a series of puts)
  // ---------------------------------------------------------------------

  /** Position of the entry whose key equals `k`, if any. */
  function KeyIndex(entries: seq<Entry>, k: Node): (r: Option<nat>)
    ensures r.Some? ==> r.value < |entries| && ValueEquals(entries[r.value].key, k)
    ensures r.None? ==> forall i :: 0 <= i < |entries| ==> !ValueEquals(entries[i].key, k)
  {
    if entries == [] then None
    else if ValueEquals(entries[0].key, k) then Some(0)
    else match KeyIndex(entries[1..], k)
      case None => None
      case Some(i) => Some(i + 1)
  }

  /** `HashMap.put`: replaces the value of an equal key, else adds the entry. */
  function Put(entries: seq<Entry>, k: Node, v: Node): (r: seq<Entry>)
  {
    match KeyIndex(entries, k)
    case Some(i) => entries[i := Entry(entries[i].key, v)]
    case None => entries + [Entry(k, v)]
  }

  function PutAll(entries: seq<Entry>, puts: seq<Entry>): seq<Entry>
    decreases |puts|
  {
    if puts == [] then entries else PutAll(Put(entries, puts[0].key, puts[0].val), puts[1..])
  }

  /** Keys of a HashMap are pairwise unequal. */
  predicate DistinctKeys(entries: seq<Entry>)
  {
    forall i, j :: 0 <= i < j < |entries| ==> !ValueEquals(entries[i].key, entries[j].key)
  }

  /** `Put` keeps keys distinct, the key maps to the new value, and other keys keep theirs. */
  lemma PutSpec(entries: seq<Entry>, k: Node, v: Node)
    requires DistinctKeys(entries)
    ensures DistinctKeys(Put(entries, k, v))
    ensures exists i :: 0 <= i < |Put(entries, k, v)| && ValueEquals(Put(entries, k, v)[i].key, k) &&
                        Put(entries, k, v)[i].val == v
    ensures |Put(entries, k, v)| == |entries| + (if KeyIndex(entries, k).Some? then 0 else 1)
    ensures forall i :: 0 <= i < |entries| && !ValueEquals(entries[i].key, k) ==> Put(entries, k, v)[i] == entries[i]
  {
    var r := Put(entries, k, v);
    match KeyIndex(entries, k)
    case Some(i) =>
      assert r[i].val == v;
    case None =>
      assert r[|entries|].val == v;
      assert r[|entries|].key == k;
  }

  /** A map literal built by any series of puts has pairwise distinct keys. */
  lemma {:induction false} PutAllDistinct(entries: seq<Entry>, puts: seq<Entry>)
    requires DistinctKeys(entries)
    ensures DistinctKeys(PutAll(entries, puts))
    decreases |puts|
  {
    if puts != [] {
      PutSpec(entries, puts[0].key, puts[0].val);
      PutAllDistinct(Put(entries, puts[0].key, puts[0].val), puts[1..]);
    }
  }

  /** Two `Null` keys collapse into one entry holding the later value. */
  lemma NullKeysCollapse(v1: Node, v2: Node)
    ensures PutAll([], [Entry(Null, v1), Entry(Null, v2)]) == [Entry(Null, v2)]
  {
    var puts := [Entry(Null, v1), Entry(Null, v2)];
    assert Put([], Null, v1) == [Entry(Null, v1)];
    assert KeyIndex([Entry(Null, v1)], Null) == Some(0);
    assert Put([Entry(Null, v1)], Null, v2) == [Entry(Null, v2)];
    assert puts[1..] == [Entry(Null, v2)];
    assert puts[1..][1..] == [];
    assert PutAll([Entry(Null, v2)], []) == [Entry(Null, v2)];
  }

  // ---------------------------------------------------------------------
  // Dispatch (`Block.evaluate` calls exactly one generator method)
  // ---------------------------------------------------------------------

  /** The generator methods of `Generator`. */
  datatype GenMethod =
    | GenNumber | GenText | GenBoolean | GenNull | GenList | GenMap | GenVariable | GenSetVariable
    | GenOperator(op: OpKind) | GenCall | GenNew | GenThis | GenSuper
    | GenPrint | GenIf | GenWhile | GenFunc | GenReturn | GenContinue | GenBreak
    | GenBlocks | GenFree | GenClass

  /** The generator method `evaluate` dispatches to for each node class. */
  function EvaluateTarget(n: Node): (g: GenMethod)
    ensures n.Operator? <==> g.GenOperator?
    ensures n.Operator? ==> g.op == n.kind
  {
    match n
    case Number(_) => GenNumber
    case Text(_) => GenText
    case Boolean(_) => GenBoolean
    case Null => GenNull
    case List(_) => GenList
    case Map(_) => GenMap
    case Variable(_, _, _) => GenVariable
    case Operator(k, _, _, _) => GenOperator(k)
    case CallFunction(_, _, _) => GenCall
    case New(_, _) => GenNew
    case This => GenThis
    case Super => GenSuper
    case SetVariable(_, _, _, _, _) => GenSetVariable
    case Print(_) => GenPrint
    case If(_, _, _, _, _) => GenIf
    case While(_, _) => GenWhile
    case Function(_, _, _) => GenFunc
    case Return(_) => GenReturn
    case Continue => GenContinue
    case Break => GenBreak
    case Blocks(_) => GenBlocks
    case Free(_, _) => GenFree
    case Class(_, _, _) => GenClass
  }

  /** Dispatch is one-to-one: distinct node classes reach distinct generator methods. */
  lemma DispatchIsInjective(a: Node, b: Node)
    requires EvaluateTarget(a) == EvaluateTarget(b)
    ensures a.Operator? ==> b.Operator? && a.kind == b.kind
    ensures !a.Operator? ==> IsValue(a) == IsValue(b)
  {
  }

  // ---------------------------------------------------------------------
  // Children, in the order the tool walk visits them
  // ---------------------------------------------------------------------

  /** `getCodeBlocks()`: the statement children. */
  function CodeBlocks(n: Node): (cs: seq<Node>)
  {
    match n
    case Blocks(bs) => bs
    case If(_, c, e, _, _) => [c] + (if e.Some? then [e.value] else [])
    case While(_, c) => [c]
    case Function(_, _, c) => [c]
    case Class(_, _, ms) => ms
    case _ => []
  }

  /** `getValues()`: the value children. */
  function Values(n: Node): (vs: seq<Node>)
  {
    match n
    case List(items) => items
    case Map(entries) => MapValues(entries)
    case Variable(_, inst, _) => if inst.Some? then [inst.value] else []
    case Operator(_, v1, v2, _) => [v1, v2]
    case CallFunction(_, args, r) => args + (if r.Some? then [r.value] else [])
    case New(_, args) => args
    case SetVariable(_, v, _, inst, _) => (if inst.Some? then [inst.value] else []) + [v]
    case Print(m) => [m]
    case If(c, _, _, _, _) => [c]
    case While(c, _) => [c]
    case Return(v) => [v]
    case _ => []
  }

  function MapValues(entries: seq<Entry>): seq<Node>
  {
    if entries == [] then [] else [entries[0].key, entries[0].val] + MapValues(entries[1..])
  }

  /** Number of nodes in the tree below and including `n`. */
  function Size(n: Node): (s: nat)
    ensures s >= 1
    decreases n, 1
  {
    match n
    case List(items) => 1 + SizeList(items)
    case Map(entries) => 1 + SizeEntries(entries)
    case Variable(_, inst, _) => 1 + SizeOpt(inst)
    case Operator(_, v1, v2, _) => 1 + Size(v1) + Size(v2)
    case CallFunction(_, args, r) => 1 + SizeList(args) + SizeOpt(r)
    case New(_, args) => 1 + SizeList(args)
    case SetVariable(_, v, _, inst, _) => 1 + Size(v) + SizeOpt(inst)
    case Print(m) => 1 + Size(m)
    case If(c, code, e, _, _) => 1 + Size(c) + Size(code) + SizeOpt(e)
    case While(c, code) => 1 + Size(c) + Size(code)
    case Function(_, _, code) => 1 + Size(code)
    case Return(v) => 1 + Size(v)
    case Blocks(bs) => 1 + SizeList(bs)
    case Class(_, _, ms) => 1 + SizeList(ms)
    case _ => 1
  }

  function SizeOpt(o: Option<Node>): nat
    decreases o, 0
  {
    if o.Some? then Size(o.value) else 0
  }

  function SizeList(ns: seq<Node>): nat
    decreases ns, 0
  {
    if ns == [] then 0 else Size(ns[0]) + SizeList(ns[1..])
  }

  function SizeEntries(es: seq<Entry>): nat
    decreases es, 0
  {
    if es == [] then 0 else SizeEntry(es[0]) + SizeEntries(es[1..])
  }

  function SizeEntry(e: Entry): nat
    decreases e, 0
  {
    Size(e.key) + Size(e.val)
  }
}
