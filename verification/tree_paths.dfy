/**
 * Positions in a syntax tree, as the tool walk of `Generator.runTools`
 * sees them: a node's children are its code blocks followed by its values,
 * and a path lists the child indexes from the root. The `parent` extra
 * data the walk sets on every child before its hooks run is the path
 * without its last index.
 */
module TreePaths {
  import opened Base
  import opened SyntaxTree

  type Path = seq<nat>

  /** The children the walk visits, in order: `getCodeBlocks()` then `getValues()`. */
  function Children(n: Node): (cs: seq<Node>)
    ensures |cs| == |CodeBlocks(n)| + |Values(n)|
  {
    CodeBlocks(n) + Values(n)
  }

  /** The `parent` link of the node at `p`; the root has none. */
  function ParentOf(p: Path): (q: Option<Path>)
    ensures p == [] <==> q.None?
    ensures q.Some? ==> |q.value| + 1 == |p| && q.value == p[..|p| - 1]
    ensures q.Some? ==> p == q.value + [p[|p| - 1]]
  {
    if p == [] then None else Some(p[..|p| - 1])
  }

  /** The parent of a child's path is the path it was reached from. */
  lemma ParentOfChild(p: Path, i: nat)
    ensures ParentOf(p + [i]) == Some(p)
  {
    assert (p + [i])[..|p|] == p;
  }

  /** Child `i` of a node is code block `i`, or else value `i` minus the number of code blocks, or else no node. */
  lemma ChildAt(n: Node, i: nat)
    ensures At(n, [i]) == (if i < |CodeBlocks(n)| then Some(CodeBlocks(n)[i])
                           else if i < |CodeBlocks(n)| + |Values(n)| then Some(Values(n)[i - |CodeBlocks(n)|])
                           else None)
  {
    assert [i][1..] == [];
    var cbs, vs := CodeBlocks(n), Values(n);
    assert Children(n) == cbs + vs;
    if i < |cbs| + |vs| {
      IndexAppend(cbs, vs, i);
    }
  }

  lemma IndexAppend(a: seq<Node>, b: seq<Node>, i: nat)
    requires i < |a| + |b|
    ensures (a + b)[i] == if i < |a| then a[i] else b[i - |a|]
  {
  }

  /** The node at `p` below `n`, if `p` names one. */
  function At(n: Node, p: Path): (r: Option<Node>)
    ensures p == [] ==> r == Some(n)
    decreases |p|
  {
    if p == [] then Some(n)
    else if p[0] < |Children(n)| then At(Children(n)[p[0]], p[1..])
    else None
  }

  /** `At` on an extended path goes one child further. */
  lemma {:induction false} AtSnoc(n: Node, p: Path, i: nat)
    requires At(n, p).Some?
    ensures At(n, p + [i]) == (if i < |Children(At(n, p).value)| then Some(Children(At(n, p).value)[i]) else None)
    decreases |p|
  {
    if p == [] {
      assert p + [i] == [i];
      assert [i][1..] == [];
    } else {
      assert (p + [i])[1..] == p[1..] + [i];
      AtSnoc(Children(n)[p[0]], p[1..], i);
    }
  }

  /** Is the node at `p` one that opens a scope (`locals`)? */
  predicate LocalsAt(root: Node, p: Path)
  {
    At(root, p).Some? && HasLocals(At(root, p).value)
  }

  // ---------------------------------------------------------------------
  // Children are smaller than their parent, so walks over them terminate
  // ---------------------------------------------------------------------

  lemma {:induction false} SizeListAppend(a: seq<Node>, b: seq<Node>)
    ensures SizeList(a + b) == SizeList(a) + SizeList(b)
    decreases |a|
  {
    if a != [] {
      assert (a + b)[1..] == a[1..] + b;
      SizeListAppend(a[1..], b);
    } else {
      assert a + b == b;
    }
  }

  lemma {:induction false} SizeListElem(ns: seq<Node>, i: nat)
    requires i < |ns|
    ensures Size(ns[i]) <= SizeList(ns)
    decreases |ns|
  {
    if i > 0 {
      SizeListElem(ns[1..], i - 1);
    }
  }

  lemma {:induction false} SizeMapValues(es: seq<Entry>)
    ensures SizeList(MapValues(es)) == SizeEntries(es)
    decreases |es|
  {
    if es != [] {
      var head := [es[0].key, es[0].val];
      SizeListAppend(head, MapValues(es[1..]));
      assert head[1..] == [es[0].val];
      assert SizeList(head) == Size(es[0].key) + Size(es[0].val);
      SizeMapValues(es[1..]);
    }
  }

  lemma SizeListOpt(o: Option<Node>)
    ensures SizeList(if o.Some? then [o.value] else []) == SizeOpt(o)
  {
    if o.Some? {
      assert [o.value][1..] == [];
    }
  }

  lemma SizeListOne(a: Node)
    ensures SizeList([a]) == Size(a)
  {
    assert [a][1..] == [];
  }

  lemma SizeListPair(a: Node, b: Node)
    ensures SizeList([a, b]) == Size(a) + Size(b)
  {
    assert [a, b][1..] == [b];
    assert [b][1..] == [];
    assert SizeList([b]) == Size(b);
  }

  /** A node is one more than the sizes of its children. */
  lemma ChildrenSize(n: Node)
    ensures SizeList(Children(n)) + 1 == Size(n)
  {
    if n.Print? || n.If? || n.While? || n.Function? || n.Return? {
      StatementChildrenSize(n);
    } else {
      SizeListAppend(CodeBlocks(n), Values(n));
      match n
      case List(items) =>
      case Map(entries) => SizeMapValues(entries);
      case Variable(_, inst, _) => SizeListOpt(inst);
      case Operator(_, v1, v2, _) => SizeListPair(v1, v2);
      case CallFunction(_, args, r) =>
        SizeListOpt(r);
        SizeListAppend(args, if r.Some? then [r.value] else []);
      case New(_, args) =>
      case SetVariable(_, v, _, inst, _) =>
        SizeListOpt(inst);
        SizeListAppend(if inst.Some? then [inst.value] else [], [v]);
        assert [v][1..] == [];
      case Blocks(bs) =>
      case Class(_, _, ms) =>
      case _ =>
    }
  }

  /** `ChildrenSize` for the statements holding a body or a single value. */
  lemma StatementChildrenSize(n: Node)
    requires n.Print? || n.If? || n.While? || n.Function? || n.Return?
    ensures SizeList(Children(n)) + 1 == Size(n)
  {
    match n
    case Print(m) => SizeListOne(m);
    case If(c, code, e, _, _) => IfChildrenSize(n);
    case While(c, code) =>
      assert Children(n) == [code] + [c];
      SizeListAppend([code], [c]);
      SizeListOne(code);
      SizeListOne(c);
    case Function(_, _, code) => SizeListOne(code);
    case Return(v) => SizeListOne(v);
  }

  lemma IfChildrenSize(n: Node)
    requires n.If?
    ensures SizeList(Children(n)) + 1 == Size(n)
  {
    var opt := if n.elseCode.Some? then [n.elseCode.value] else [];
    assert Children(n) == ([n.code] + opt) + [n.condition];
    SizeListAppend([n.code] + opt, [n.condition]);
    SizeListOpt(n.elseCode);
    SizeListAppend([n.code], opt);
    SizeListOne(n.code);
    SizeListOne(n.condition);
  }

  /** Every child is strictly smaller than its parent. */
  lemma ChildSmaller(n: Node, i: nat)
    requires i < |Children(n)|
    ensures Size(Children(n)[i]) < Size(n)
  {
    ChildrenSize(n);
    SizeListElem(Children(n), i);
  }
}
