/**
 * `Generator.runTools` and `Generator.generate`: the tools walk the tree,
 * calling their hooks on every child (code blocks first, then values),
 * and then the backend turns the annotated tree into code.
 *
 * A walk is described by the sequence of hook calls it makes, each named
 * by the tool, the hook, the node's path and its `parent` link. As
 * written, `runTools` recurses into a child from inside the loop over
 * tools, so the whole subtree is walked again by every tool of every
 * ancestor; the corrected walk lets each tool walk the tree once.
 * The `Free` blocks a declaration appends are not listed: their hooks do
 * nothing in either tool and they have no children.
 */
module Generator {
  import opened Base
  import opened SyntaxTree
  import opened TreePaths
  import opened Errors
  import opened VMWrapper
  import Scope = ScopeTool
  import Opt = OptimizerTool
  import VM = VMByteCodeGenerator

  datatype ToolKind = Scoping | Optimizing

  /** The tools `VMByteCodeGenerator` registers, in order. */
  const Tools: seq<ToolKind> := [Scoping, Optimizing]

  datatype Hook = ProcessBlockCall | FinalizeBlockCall | ProcessValueCall | FinalizeValueCall

  /** One hook call: `tool.hook(node at path, parent)`. */
  datatype Event = Event(tool: ToolKind, hook: Hook, at: Path, parent: Option<Path>)

  predicate Opens(e: Event)
  {
    e.hook == ProcessBlockCall || e.hook == ProcessValueCall
  }

  // ---------------------------------------------------------------------
  // The walk
  // ---------------------------------------------------------------------

  /** Every hook call is one of tool `t`'s. */
  predicate ByTool(evs: seq<Event>, t: ToolKind)
  {
    forall k :: 0 <= k < |evs| ==> evs[k].tool == t
  }

  lemma ByToolConcat(a: seq<Event>, b: seq<Event>, t: ToolKind)
    requires ByTool(a, t) && ByTool(b, t)
    ensures ByTool(a + b, t)
  {
    forall k | 0 <= k < |a + b| ensures (a + b)[k].tool == t {
      if k >= |a| { assert (a + b)[k] == b[k - |a|]; }
    }
  }

  /** `runTools(block)` on the node `n` at `at`, as written. */
  function RunTools(n: Node, at: Path): seq<Event>
    decreases Size(n), 3, 0
  {
    ToolLoop(n, at, 0)
  }

  /** The `for (Tool tool : tools)` loop, from the k-th tool on. */
  function ToolLoop(n: Node, at: Path, k: nat): seq<Event>
    decreases Size(n), 2, |Tools| - k
  {
    if k >= |Tools| then [] else Pass(Tools[k], n, at, true) + ToolLoop(n, at, k + 1)
  }

  /**
   * One tool's turn at `n`: the root's own value hooks (only a root value
   * has them), then its children. `nested` is the code as written: each
   * child is followed by `runTools(child)` with all tools; otherwise the
   * same tool goes on into the child.
   */
  function Pass(t: ToolKind, n: Node, at: Path, nested: bool): seq<Event>
    decreases Size(n), 1, 0
  {
    var rootValue := at == [] && IsValue(n);
    ChildrenSize(n);
    (if rootValue then [Event(t, ProcessValueCall, [], None)] else [])
    + Visit(t, Children(n), |CodeBlocks(n)|, at, 0, nested)
    + (if rootValue then [Event(t, FinalizeValueCall, [], None)] else [])
  }

  /**
   * The children `cs` of the node at `at` from the i-th on, the first
   * `blocks` of them its code blocks; a value among the code blocks gets
   * the value hooks.
   */
  function Visit(t: ToolKind, cs: seq<Node>, blocks: nat, at: Path, i: nat, nested: bool): seq<Event>
    decreases SizeList(cs) + 1, 0, |cs| - i
  {
    if i >= |cs| then []
    else
      SizeListElem(cs, i);
      var p := at + [i];
      [OpenEvent(t, cs, blocks, at, i)] + ChildWalk(t, cs[i], p, nested) + [CloseEvent(t, cs, blocks, at, i)]
      + Visit(t, cs, blocks, at, i + 1, nested)
  }

  /** What follows a child's opening hook: `runTools(child)` as written, the same tool's walk otherwise. */
  function ChildWalk(t: ToolKind, c: Node, p: Path, nested: bool): seq<Event>
    decreases Size(c), 4, 0
  {
    if nested then RunTools(c, p) else Pass(t, c, p, false)
  }

  /** The hook opening the i-th child: the value hooks for a value, the block hooks otherwise. */
  function OpenEvent(t: ToolKind, cs: seq<Node>, blocks: nat, at: Path, i: nat): (e: Event)
    requires i < |cs|
    ensures e.at == at + [i] && e.parent == Some(at) && e.tool == t && Opens(e)
  {
    Event(t, if i >= blocks || IsValue(cs[i]) then ProcessValueCall else ProcessBlockCall, at + [i], Some(at))
  }

  function CloseEvent(t: ToolKind, cs: seq<Node>, blocks: nat, at: Path, i: nat): (e: Event)
    requires i < |cs|
    ensures e.at == at + [i] && e.parent == Some(at) && e.tool == t && !Opens(e)
  {
    Event(t, if i >= blocks || IsValue(cs[i]) then FinalizeValueCall else FinalizeBlockCall, at + [i], Some(at))
  }

  /** One step of `Visit`: the i-th child's hooks around its own walk, then the rest. */
  lemma VisitStep(t: ToolKind, cs: seq<Node>, blocks: nat, at: Path, i: nat, nested: bool)
    requires i < |cs|
    ensures Visit(t, cs, blocks, at, i, nested) ==
            [OpenEvent(t, cs, blocks, at, i)]
            + ChildWalk(t, cs[i], at + [i], nested)
            + [CloseEvent(t, cs, blocks, at, i)]
            + Visit(t, cs, blocks, at, i + 1, nested)
  {
  }

  /** `Visit` past the last child. */
  lemma VisitDone(t: ToolKind, cs: seq<Node>, blocks: nat, at: Path, i: nat, nested: bool)
    requires i >= |cs|
    ensures Visit(t, cs, blocks, at, i, nested) == []
  {
  }

  lemma EmptyEnds(v: seq<Event>)
    ensures [] + v + [] == v
  {
  }

  /** Below the root, or at a root that is not a value, a turn is just the children. */
  lemma PassChildren(t: ToolKind, n: Node, at: Path, nested: bool)
    requires at != [] || !IsValue(n)
    ensures Pass(t, n, at, nested) == Visit(t, Children(n), |CodeBlocks(n)|, at, 0, nested)
  {
    EmptyEnds(Visit(t, Children(n), |CodeBlocks(n)|, at, 0, nested));
  }

  /** `runTools` is the scope tool's turn, then the optimizer's. */
  lemma RunToolsBoth(n: Node, at: Path)
    ensures RunTools(n, at) == Pass(Scoping, n, at, true) + Pass(Optimizing, n, at, true)
  {
    OptimizerLast(n, at);
    assert Tools[0] == Scoping;
  }

  /** The last turn of the loop is the optimizer's. */
  lemma OptimizerLast(n: Node, at: Path)
    ensures ToolLoop(n, at, 1) == Pass(Optimizing, n, at, true)
  {
    assert Tools[1] == Optimizing;
    assert ToolLoop(n, at, 2) == [];
    assert ToolLoop(n, at, 1) == Pass(Optimizing, n, at, true) + [];
  }

  /** The hook calls of `runTools(root)` as written. */
  function AsWrittenTrace(root: Node): seq<Event>
  {
    RunTools(root, [])
  }

  /** The corrected walk: each tool, in order, walks the whole tree once. */
  function CorrectedTrace(root: Node): seq<Event>
  {
    ToolMajor(root, 0)
  }

  function ToolMajor(root: Node, k: nat): seq<Event>
    decreases |Tools| - k
  {
    if k >= |Tools| then [] else Pass(Tools[k], root, [], false) + ToolMajor(root, k + 1)
  }

  /** Every scope-tool call comes before every optimizer call. */
  predicate ScopeFirst(evs: seq<Event>)
  {
    forall a, b :: 0 <= a < b < |evs| && evs[a].tool == Optimizing ==> evs[b].tool == Optimizing
  }

  lemma OptimizerOnly(evs: seq<Event>)
    requires ByTool(evs, Optimizing)
    ensures ScopeFirst(evs)
  {
  }

  lemma ScopeFirstConcat(a: seq<Event>, b: seq<Event>)
    requires ByTool(a, Scoping) && ByTool(b, Optimizing)
    ensures ScopeFirst(a + b)
  {
    assert forall k :: 0 <= k < |a| ==> (a + b)[k] == a[k];
    forall i, j | 0 <= i < j < |a + b| && (a + b)[i].tool == Optimizing ensures (a + b)[j].tool == Optimizing {
      assert (a + b)[j] == b[j - |a|];
    }
  }

  // ---------------------------------------------------------------------
  // Shape of the walk
  // ---------------------------------------------------------------------

  /** A hook call names a node of the tree and that node's `parent` link. */
  predicate Anchored(root: Node, e: Event)
  {
    e.parent == ParentOf(e.at) && At(root, e.at).Some?
  }

  /** Every hook call of a walk started at `at` is anchored, below `at`, and made by the walking tool unless nested. */
  predicate WalkShape(root: Node, evs: seq<Event>, at: Path, t: ToolKind, nested: bool)
  {
    forall e | e in evs :: Anchored(root, e) && at <= e.at && (!nested ==> e.tool == t)
  }

  lemma WalkShapeJoin(root: Node, a: seq<Event>, b: seq<Event>, at: Path, t: ToolKind, nested: bool)
    requires WalkShape(root, a, at, t, nested) && WalkShape(root, b, at, t, nested)
    ensures WalkShape(root, a + b, at, t, nested)
  {
  }

  /** What keeps its shape below a child keeps it below the parent. */
  lemma WalkShapeParent(root: Node, evs: seq<Event>, at: Path, i: nat, t: ToolKind, nested: bool)
    requires WalkShape(root, evs, at + [i], t, nested)
    ensures WalkShape(root, evs, at, t, nested)
  {
    forall e | e in evs ensures at <= e.at {
      assert at + [i] <= e.at;
    }
  }

  lemma {:induction false} RunToolsShape(root: Node, n: Node, at: Path, t: ToolKind)
    requires At(root, at) == Some(n)
    ensures WalkShape(root, RunTools(n, at), at, t, true)
    decreases Size(n), 3, 0
  {
    ToolLoopShape(root, n, at, 0, t);
  }

  lemma {:induction false} ToolLoopShape(root: Node, n: Node, at: Path, k: nat, t: ToolKind)
    requires At(root, at) == Some(n)
    ensures WalkShape(root, ToolLoop(n, at, k), at, t, true)
    decreases Size(n), 2, |Tools| - k
  {
    if k < |Tools| {
      PassShape(root, Tools[k], n, at, true);
      ToolLoopShape(root, n, at, k + 1, t);
    }
  }

  lemma {:induction false} PassShape(root: Node, t: ToolKind, n: Node, at: Path, nested: bool)
    requires At(root, at) == Some(n)
    ensures WalkShape(root, Pass(t, n, at, nested), at, t, nested)
    decreases Size(n), 1, 0
  {
    ChildrenSize(n);
    var rootValue := at == [] && IsValue(n);
    var pre := if rootValue then [Event(t, ProcessValueCall, [], None)] else [];
    var post := if rootValue then [Event(t, FinalizeValueCall, [], None)] else [];
    var mid := Visit(t, Children(n), |CodeBlocks(n)|, at, 0, nested);
    assert Pass(t, n, at, nested) == pre + mid + post;
    RootValueShape(root, pre, at, t, nested);
    RootValueShape(root, post, at, t, nested);
    VisitShape(root, t, Children(n), |CodeBlocks(n)|, at, 0, nested);
    WalkShapeJoin(root, pre, mid, at, t, nested);
    WalkShapeJoin(root, pre + mid, post, at, t, nested);
  }

  /** The root value's own hook calls are anchored at the root. */
  lemma RootValueShape(root: Node, evs: seq<Event>, at: Path, t: ToolKind, nested: bool)
    requires At(root, at).Some?
    requires evs == [] || (at == [] && |evs| == 1 && evs[0].at == [] && evs[0].parent == None && evs[0].tool == t)
    ensures WalkShape(root, evs, at, t, nested)
  {
    if evs != [] {
      assert ParentOf([]) == None;
    }
  }

  /** The hook calls opening and closing the i-th child are anchored at it, and it is a node of the tree. */
  lemma VisitEndsShape(root: Node, t: ToolKind, cs: seq<Node>, blocks: nat, at: Path, i: nat, nested: bool)
    requires At(root, at).Some? && Children(At(root, at).value) == cs && i < |cs|
    ensures At(root, at + [i]) == Some(cs[i])
    ensures WalkShape(root, [OpenEvent(t, cs, blocks, at, i)], at, t, nested)
    ensures WalkShape(root, [CloseEvent(t, cs, blocks, at, i)], at, t, nested)
  {
    AtSnoc(root, at, i);
    ParentOfChild(at, i);
  }

  lemma WalkShapeJoin4(root: Node, a: seq<Event>, b: seq<Event>, c: seq<Event>, d: seq<Event>, at: Path, t: ToolKind, nested: bool)
    requires WalkShape(root, a, at, t, nested) && WalkShape(root, b, at, t, nested)
    requires WalkShape(root, c, at, t, nested) && WalkShape(root, d, at, t, nested)
    ensures WalkShape(root, a + b + c + d, at, t, nested)
  {
    WalkShapeJoin(root, a, b, at, t, nested);
    WalkShapeJoin(root, a + b, c, at, t, nested);
    WalkShapeJoin(root, a + b + c, d, at, t, nested);
  }

  lemma {:induction false} VisitShape(root: Node, t: ToolKind, cs: seq<Node>, blocks: nat, at: Path, i: nat, nested: bool)
    requires At(root, at).Some? && Children(At(root, at).value) == cs
    ensures WalkShape(root, Visit(t, cs, blocks, at, i, nested), at, t, nested)
    decreases SizeList(cs) + 1, 0, |cs| - i
  {
    if i < |cs| {
      SizeListElem(cs, i);
      var p := at + [i];
      var inner := ChildWalk(t, cs[i], p, nested);
      VisitStep(t, cs, blocks, at, i, nested);
      VisitEndsShape(root, t, cs, blocks, at, i, nested);
      if nested {
        RunToolsShape(root, cs[i], p, t);
      } else {
        PassShape(root, t, cs[i], p, false);
      }
      WalkShapeParent(root, inner, at, i, t, nested);
      VisitShape(root, t, cs, blocks, at, i + 1, nested);
      WalkShapeJoin4(root, [OpenEvent(t, cs, blocks, at, i)], inner, [CloseEvent(t, cs, blocks, at, i)],
                     Visit(t, cs, blocks, at, i + 1, nested), at, t, nested);
    }
  }

  /** Every hook call of both walks names a node of the tree with its true parent. */
  lemma WalksAnchored(root: Node)
    ensures forall e | e in AsWrittenTrace(root) :: Anchored(root, e)
    ensures forall e | e in CorrectedTrace(root) :: Anchored(root, e)
  {
    RunToolsShape(root, root, [], Scoping);
    ToolMajorShape(root, 0);
  }

  lemma {:induction false} ToolMajorShape(root: Node, k: nat)
    ensures forall e | e in ToolMajor(root, k) :: Anchored(root, e)
    decreases |Tools| - k
  {
    if k < |Tools| {
      PassShape(root, Tools[k], root, [], false);
      ToolMajorShape(root, k + 1);
    }
  }

  // ---------------------------------------------------------------------
  // The corrected walk visits each node once per tool, in preorder
  // ---------------------------------------------------------------------

  /** The paths below `at`, each child before its own subtree, code blocks before values. */
  function Preorder(n: Node, at: Path): seq<Path>
    decreases Size(n), 1, 0
  {
    ChildrenSize(n);
    PreorderFrom(Children(n), at, 0)
  }

  /** The preorder of the children `cs` of the node at `at`, from the i-th on. */
  function PreorderFrom(cs: seq<Node>, at: Path, i: nat): seq<Path>
    decreases SizeList(cs) + 1, 0, |cs| - i
  {
    if i >= |cs| then []
    else
      SizeListElem(cs, i);
      [at + [i]] + Preorder(cs[i], at + [i]) + PreorderFrom(cs, at, i + 1)
  }

  /** The paths of the opening hook calls (`processBlock`/`processValue`), in order. */
  function OpenPaths(evs: seq<Event>): seq<Path>
  {
    if evs == [] then [] else (if Opens(evs[0]) then [evs[0].at] else []) + OpenPaths(evs[1..])
  }

  lemma {:induction false} OpenPathsAppend(a: seq<Event>, b: seq<Event>)
    ensures OpenPaths(a + b) == OpenPaths(a) + OpenPaths(b)
    decreases |a|
  {
    if a == [] {
      assert a + b == b;
    } else {
      assert (a + b)[1..] == a[1..] + b;
      OpenPathsAppend(a[1..], b);
    }
  }

  lemma OpenPathsSingle(e: Event)
    ensures OpenPaths([e]) == if Opens(e) then [e.at] else []
  {
    assert [e][1..] == [];
  }

  lemma {:induction false} PassPreorder(t: ToolKind, n: Node, at: Path)
    ensures OpenPaths(Pass(t, n, at, false)) ==
            (if at == [] && IsValue(n) then [[]] else []) + Preorder(n, at)
    decreases Size(n), 1, 0
  {
    var rootValue := at == [] && IsValue(n);
    var pre: seq<Event> := if rootValue then [Event(t, ProcessValueCall, [], None)] else [];
    var post: seq<Event> := if rootValue then [Event(t, FinalizeValueCall, [], None)] else [];
    var mid := Visit(t, Children(n), |CodeBlocks(n)|, at, 0, false);
    ChildrenSize(n);
    assert Pass(t, n, at, false) == pre + mid + post;
    VisitPreorder(t, Children(n), |CodeBlocks(n)|, at, 0);
    OpenPathsAppend(pre + mid, post);
    OpenPathsAppend(pre, mid);
    if rootValue {
      OpenPathsSingle(Event(t, ProcessValueCall, [], None));
      OpenPathsSingle(Event(t, FinalizeValueCall, [], None));
    }
  }

  lemma {:induction false} VisitPreorder(t: ToolKind, cs: seq<Node>, blocks: nat, at: Path, i: nat)
    ensures OpenPaths(Visit(t, cs, blocks, at, i, false)) == PreorderFrom(cs, at, i)
    decreases SizeList(cs) + 1, 0, |cs| - i
  {
    if i < |cs| {
      SizeListElem(cs, i);
      var p := at + [i];
      var inner := Pass(t, cs[i], p, false);
      VisitStep(t, cs, blocks, at, i, false);
      OpenPathsFrame(OpenEvent(t, cs, blocks, at, i), inner, CloseEvent(t, cs, blocks, at, i), Visit(t, cs, blocks, at, i + 1, false));
      PassPreorder(t, cs[i], p);
      assert OpenPaths(inner) == Preorder(cs[i], p);
      VisitPreorder(t, cs, blocks, at, i + 1);
    }
  }

  /** The opening paths of a child's hooks around its walk, then the rest: the child's path, those of the walk, those of the rest. */
  lemma OpenPathsFrame(open: Event, inner: seq<Event>, close: Event, rest: seq<Event>)
    requires Opens(open) && !Opens(close)
    ensures OpenPaths([open] + inner + [close] + rest) == [open.at] + OpenPaths(inner) + OpenPaths(rest)
  {
    OpenPathsAppend([open] + inner + [close], rest);
    OpenPathsAppend([open] + inner, [close]);
    OpenPathsAppend([open], inner);
    OpenPathsSingle(open);
    OpenPathsSingle(close);
  }

  /** Every path of a preorder lies strictly below its start; those from the i-th child on pass through a child index of at least i. */
  lemma {:induction false} PreorderBelow(cs: seq<Node>, at: Path, i: nat)
    ensures forall q | q in PreorderFrom(cs, at, i) :: |q| > |at| && q[..|at|] == at && q[|at|] >= i
    decreases SizeList(cs) + 1, 0, |cs| - i
  {
    if i < |cs| {
      SizeListElem(cs, i);
      var p := at + [i];
      var sub := Preorder(cs[i], p);
      ChildrenSize(cs[i]);
      PreorderBelow(Children(cs[i]), p, 0);
      PreorderBelow(cs, at, i + 1);
      forall q | q in sub
        ensures |q| > |at| && q[..|at|] == at && q[|at|] == i
      {
        assert q[..|p|][..|at|] == q[..|at|];
        assert q[..|p|][|at|] == q[|at|];
      }
      assert PreorderFrom(cs, at, i) == [p] + sub + PreorderFrom(cs, at, i + 1);
    }
  }

  predicate Distinct(ps: seq<Path>)
  {
    forall a, b | 0 <= a < b < |ps| :: ps[a] != ps[b]
  }

  lemma DistinctAppend(x: seq<Path>, y: seq<Path>)
    requires Distinct(x) && Distinct(y)
    requires forall q | q in x :: q !in y
    ensures Distinct(x + y)
  {
    forall a, b | 0 <= a < b < |x + y|
      ensures (x + y)[a] != (x + y)[b]
    {
      if b >= |x| && a < |x| {
        assert (x + y)[a] in x;
        assert (x + y)[b] == y[b - |x|];
      } else if a >= |x| {
        assert (x + y)[a] == y[a - |x|] && (x + y)[b] == y[b - |x|];
      }
    }
  }

  /** One step of `PreorderFrom`: the i-th child, its subtree, then the rest. */
  lemma PreorderStep(cs: seq<Node>, at: Path, i: nat)
    requires i < |cs|
    ensures PreorderFrom(cs, at, i) == [at + [i]] + (PreorderFrom(Children(cs[i]), at + [i], 0) + PreorderFrom(cs, at, i + 1))
  {
  }

  /** A path below the i-th child is not the child itself and not below a later child. */
  lemma BelowChild(q: Path, at: Path, i: nat, rest: seq<Path>)
    requires |q| > |at| + 1 && q[..|at| + 1] == at + [i]
    requires forall r | r in rest :: |r| > |at| && r[|at|] >= i + 1
    ensures q !in rest && q != at + [i] && q[|at|] == i
  {
    assert q[..|at| + 1][|at|] == q[|at|];
  }

  /** No path occurs twice in a preorder. */
  lemma {:induction false} PreorderDistinct(cs: seq<Node>, at: Path, i: nat)
    ensures Distinct(PreorderFrom(cs, at, i))
    decreases SizeList(cs) + 1, 0, |cs| - i
  {
    if i < |cs| {
      SizeListElem(cs, i);
      ChildrenSize(cs[i]);
      var p := at + [i];
      var sub := PreorderFrom(Children(cs[i]), p, 0);
      var rest := PreorderFrom(cs, at, i + 1);
      assert Distinct(sub) && Distinct(rest) by {
        PreorderDistinct(Children(cs[i]), p, 0);
        PreorderDistinct(cs, at, i + 1);
      }
      assert p !in sub + rest && forall q | q in sub :: q !in rest by {
        PreorderBelow(Children(cs[i]), p, 0);
        PreorderBelow(cs, at, i + 1);
        forall q | q in sub
          ensures q !in rest && q != p
        {
          BelowChild(q, at, i, rest);
        }
        assert p[|at|] == i;
      }
      DistinctAppend(sub, rest);
      DistinctAppend([p], sub + rest);
      PreorderStep(cs, at, i);
    }
  }

  /**
   * In the corrected walk, one tool's opening hooks name every node of the
   * tree below the root exactly once, in preorder; a root value is opened
   * first.
   */
  lemma CorrectedVisitsOnce(t: ToolKind, root: Node)
    ensures OpenPaths(Pass(t, root, [], false)) == (if IsValue(root) then [[]] else []) + Preorder(root, [])
    ensures Distinct(Preorder(root, []))
  {
    PassPreorder(t, root, []);
    ChildrenSize(root);
    PreorderDistinct(Children(root), [], 0);
  }

  // ---------------------------------------------------------------------
  // Running the hooks
  // ---------------------------------------------------------------------

  /** The two tools' fields and the extra data they wrote; `tags` is the optimizer's `inplace`. */
  datatype ToolState = ToolState(scope: Scope.ScopeState, tags: map<Path, string>)

  /** `Stopped` once a hook threw. */
  datatype Run = Running(st: ToolState) | Stopped(st: ToolState)

  function Initial(e: ErrorState): ToolState
  {
    ToolState(Scope.Fresh(e), map[])
  }

  /** One hook call; `asWritten` picks the `finalizeBlock` of the source over the corrected one. */
  function Step(root: Node, st: ToolState, e: Event, asWritten: bool): (r: Run)
  {
    match e.tool
    case Scoping =>
      (match e.hook
       case ProcessBlockCall =>
         (match Scope.ProcessBlock(root, st.scope, e.at, e.parent)
          case Done(s) => Running(st.(scope := s))
          case Failed(s) => Stopped(st.(scope := s)))
       case FinalizeBlockCall =>
         Running(st.(scope := if asWritten then Scope.FinalizeBlockAsWritten(st.scope, e.at) else Scope.FinalizeBlock(st.scope, e.at)))
       case ProcessValueCall => Running(st.(scope := Scope.ProcessValue(root, st.scope, e.at, e.parent)))
       case FinalizeValueCall => Running(st))
    case Optimizing =>
      if e.hook == ProcessBlockCall then Running(st.(tags := Opt.ProcessBlock(root, st.tags, e.at))) else Running(st)
  }

  /** The hook calls one after another, stopping at the first that throws. */
  function Fold(root: Node, st: ToolState, evs: seq<Event>, asWritten: bool): (r: Run)
    decreases |evs|
  {
    if evs == [] then Running(st)
    else
      match Step(root, st, evs[0], asWritten)
      case Stopped(s) => Stopped(s)
      case Running(s) => Fold(root, s, evs[1..], asWritten)
  }

  lemma {:induction false} FoldAppend(root: Node, st: ToolState, a: seq<Event>, b: seq<Event>, asWritten: bool)
    ensures Fold(root, st, a + b, asWritten) ==
            match Fold(root, st, a, asWritten)
            case Stopped(s) => Stopped(s)
            case Running(s) => Fold(root, s, b, asWritten)
    decreases |a|
  {
    if a == [] {
      assert a + b == b;
    } else {
      assert (a + b)[1..] == a[1..] + b;
      match Step(root, st, a[0], asWritten)
      case Stopped(s) =>
      case Running(s) => FoldAppend(root, s, a[1..], b, asWritten);
    }
  }

  /** Three stretches of hook calls run one after another. */
  lemma FoldThree(root: Node, st0: ToolState, a: seq<Event>, st1: ToolState, b: seq<Event>, st2: ToolState,
                  c: seq<Event>, st3: ToolState, asWritten: bool)
    requires Fold(root, st0, a, asWritten) == Running(st1)
    requires Fold(root, st1, b, asWritten) == Running(st2)
    requires Fold(root, st2, c, asWritten) == Running(st3)
    ensures Fold(root, st0, a + b + c, asWritten) == Running(st3)
  {
    FoldAppend(root, st0, a + b, c, asWritten);
    FoldAppend(root, st0, a, b, asWritten);
  }

  /** One hook call folds to its own step. */
  lemma FoldOne(root: Node, st: ToolState, e: Event, asWritten: bool)
    ensures Fold(root, st, [e], asWritten) == Step(root, st, e, asWritten)
  {
    assert [e][1..] == [];
  }

  /** Hook calls that each leave the state as it is leave it as it is together. */
  lemma {:induction false} FoldIdle(root: Node, st: ToolState, evs: seq<Event>, asWritten: bool)
    requires forall e | e in evs :: Step(root, st, e, asWritten) == Running(st)
    ensures Fold(root, st, evs, asWritten) == Running(st)
    decreases |evs|
  {
    if evs != [] {
      assert evs[0] in evs;
      FoldIdle(root, st, evs[1..], asWritten);
    }
  }

  /** A tool's turn over the whole tree makes only that tool's hook calls. */
  lemma PassByTool(root: Node, t: ToolKind)
    ensures ByTool(Pass(t, root, [], false), t)
  {
    var evs := Pass(t, root, [], false);
    PassShape(root, t, root, [], false);
    forall k | 0 <= k < |evs| ensures evs[k].tool == t {
      assert evs[k] in evs;
    }
  }

  /**
   * The corrected order: every call of the scope tool's turn comes before
   * every call of the optimizer's, and from the second turn on all calls
   * are the optimizer's.
   */
  lemma {:induction false} ToolMajorOrder(root: Node, k: nat)
    ensures k >= 1 ==> ByTool(ToolMajor(root, k), Optimizing)
    ensures ScopeFirst(ToolMajor(root, k))
    decreases |Tools| - k
  {
    if k < |Tools| {
      var here, later := Pass(Tools[k], root, [], false), ToolMajor(root, k + 1);
      ToolMajorOrder(root, k + 1);
      PassByTool(root, Tools[k]);
      if k == 0 {
        ScopeFirstConcat(here, later);
      } else {
        ByToolConcat(here, later, Optimizing);
        OptimizerOnly(here + later);
      }
    }
  }

  // ---------------------------------------------------------------------
  // What each tool may change
  // ---------------------------------------------------------------------

  /** Among the calls is the scope tool's `processBlock`, the only hook that throws. */
  predicate HasScopeOpen(evs: seq<Event>)
  {
    exists k :: 0 <= k < |evs| && evs[k].tool == Scoping && evs[k].hook == ProcessBlockCall
  }

  lemma RaiseKeeps(e: ErrorState, r: Report)
    ensures Keeps(e, Raise(e, r))
  {
    assert Raise(e, r).reports[..|e.reports|] == e.reports;
  }

  /** An assignment's `processBlock` only adds to the error log. */
  lemma AssignKeeps(root: Node, s: Scope.ScopeState, at: Path, sv: Node, parent: Option<Path>,
                    scope: Option<Path>, pParent: Option<Path>)
    requires sv.SetVariable?
    ensures Keeps(s.errors, Scope.Assign(root, s, at, sv, parent, scope, pParent).state.errors)
  {
    if !(scope.None? && sv.declaration) && !sv.declaration && !Scope.Knows(s, pParent, sv.target) && sv.target !in s.globals {
      RaiseKeeps(s.errors, ModifiedUndefinedVariable(sv.target));
    }
  }

  /** The scope tool's `processBlock` only adds to the error log. */
  lemma ProcessBlockKeeps(root: Node, s: Scope.ScopeState, at: Path, parent: Option<Path>)
    ensures Keeps(s.errors, Scope.ProcessBlock(root, s, at, parent).state.errors)
  {
    var r := Scope.ProcessBlock(root, s, at, parent);
    match At(root, at)
    case None =>
    case Some(block) =>
      var (scope, pParent) := Scope.UpToLocals(root, parent, None);
      if block.SetVariable? {
        if block.setInstance.None? {
          assert r == Scope.Assign(root, s, at, block, parent, scope, pParent);
          AssignKeeps(root, s, at, block, parent, scope, pParent);
        }
      } else if block.Blocks? {
        assert r.state == Scope.OpenBlocks(root, s, at, scope, pParent);
      }
  }

  /** The scope tool's `processValue` only adds to the error log. */
  lemma ProcessValueKeeps(root: Node, s: Scope.ScopeState, at: Path, parent: Option<Path>)
    ensures Keeps(s.errors, Scope.ProcessValue(root, s, at, parent).errors)
  {
    if At(root, at).Some? && At(root, at).value.Variable? {
      RaiseKeeps(s.errors, AccessedUndefinedVariable(At(root, at).value.name));
    }
  }

  /**
   * One hook call: the optimizer neither throws nor touches the scope
   * tool's state, the scope tool leaves the optimizer's tags alone, only
   * the scope tool's `processBlock` throws and it raises the flag when it
   * does, and the error log only grows.
   */
  lemma StepEffects(root: Node, st: ToolState, e: Event, asWritten: bool)
    ensures var r := Step(root, st, e, asWritten);
            (e.tool == Optimizing ==> r.Running? && r.st.scope == st.scope) &&
            (e.tool == Scoping ==> r.st.tags == st.tags) &&
            (r.Stopped? ==> e.tool == Scoping && e.hook == ProcessBlockCall && WasThereAnError(r.st.scope.errors)) &&
            Keeps(st.scope.errors, r.st.scope.errors)
  {
    if e.tool == Scoping {
      if e.hook == ProcessBlockCall {
        ProcessBlockKeeps(root, st.scope, e.at, e.parent);
      } else if e.hook == ProcessValueCall {
        ProcessValueKeeps(root, st.scope, e.at, e.parent);
      }
    }
  }

  /** The effects of `StepEffects`, over a stretch of hook calls. */
  lemma {:induction false} FoldEffects(root: Node, st: ToolState, evs: seq<Event>, asWritten: bool)
    ensures var r := Fold(root, st, evs, asWritten);
            (ByTool(evs, Optimizing) ==> r.Running? && r.st.scope == st.scope) &&
            (ByTool(evs, Scoping) ==> r.st.tags == st.tags) &&
            (r.Stopped? ==> HasScopeOpen(evs) && WasThereAnError(r.st.scope.errors)) &&
            Keeps(st.scope.errors, r.st.scope.errors)
    decreases |evs|
  {
    if evs != [] {
      var e := evs[0];
      StepEffects(root, st, e, asWritten);
      var s := Step(root, st, e, asWritten);
      if s.Running? {
        var r := Fold(root, s.st, evs[1..], asWritten);
        FoldEffects(root, s.st, evs[1..], asWritten);
        assert Fold(root, st, evs, asWritten) == r;
        ByToolTail(evs, Optimizing);
        ByToolTail(evs, Scoping);
        if r.Stopped? {
          var k :| 0 <= k < |evs[1..]| && evs[1..][k].tool == Scoping && evs[1..][k].hook == ProcessBlockCall;
          assert evs[k + 1] == evs[1..][k];
        }
        KeepsTransitive(st.scope.errors, s.st.scope.errors, r.st.scope.errors);
      } else {
        assert evs[0].tool == Scoping && evs[0].hook == ProcessBlockCall;
      }
    }
  }

  lemma ByToolTail(evs: seq<Event>, t: ToolKind)
    requires evs != []
    ensures ByTool(evs, t) ==> evs[0].tool == t && ByTool(evs[1..], t)
  {
    if ByTool(evs, t) {
      forall k | 0 <= k < |evs[1..]| ensures evs[1..][k].tool == t {
        assert evs[1..][k] == evs[k + 1];
      }
    }
  }

  /**
   * In the corrected walk the optimizer's turn neither throws nor touches
   * the scope tool's state: whether `generate` stops, and the scope
   * state it ends in, are the scope tool's turn alone.
   */
  lemma CorrectedScopeAlone(root: Node, st: ToolState)
    ensures var whole := Fold(root, st, CorrectedTrace(root), false);
            var scope := Fold(root, st, Pass(Scoping, root, [], false), false);
            whole.Stopped? == scope.Stopped? && whole.st.scope == scope.st.scope
  {
    var a, b := Pass(Scoping, root, [], false), Pass(Optimizing, root, [], false);
    assert ToolMajor(root, 2) == [];
    assert CorrectedTrace(root) == a + b by {
      assert ToolMajor(root, 1) == b + [];
    }
    FoldAppend(root, st, a, b, false);
    var scope := Fold(root, st, a, false);
    if scope.Running? {
      PassByTool(root, Optimizing);
      FoldEffects(root, scope.st, b, false);
    }
  }

  // ---------------------------------------------------------------------
  // Writing the extra data back into the tree
  // ---------------------------------------------------------------------

  function StampOr(st: ToolState, at: Path, id: Option<int>): Option<int>
  {
    if at in st.scope.stamps then Some(st.scope.stamps[at]) else id
  }

  function TagOr(st: ToolState, at: Path, tag: Option<string>): Option<string>
  {
    if at in st.tags then Some(st.tags[at]) else tag
  }

  function FreeNodes(ms: seq<Scope.FreeMark>): (ns: seq<Node>)
    ensures |ns| == |ms|
    ensures forall k | 0 <= k < |ms| :: ns[k] == Free(ms[k].name, Some(ms[k].id))
  {
    if ms == [] then [] else [Free(ms[0].name, Some(ms[0].id))] + FreeNodes(ms[1..])
  }

  function FreesAt(st: ToolState, at: Path): seq<Node>
  {
    if at in st.scope.frees then FreeNodes(st.scope.frees[at]) else []
  }

  /**
   * The tree as the backend sees it after the walk: `id` on variables and
   * assignments, `inplace` on operators, and the `Free` blocks appended to
   * each `Blocks`.
   */
  function Annotate(n: Node, at: Path, st: ToolState): Node
    decreases n, 1
  {
    match n
    case List(items) => List(AnnotateList(items, at, 0, st))
    case Map(entries) => Map(AnnotateEntries(entries, at, 0, st))
    case Variable(name, inst, id) => Variable(name, AnnotateOpt(inst, at, 0, st), StampOr(st, at, id))
    case Operator(k, v1, v2, tag) => Operator(k, Annotate(v1, at + [0], st), Annotate(v2, at + [1], st), TagOr(st, at, tag))
    case CallFunction(f, args, r) => CallFunction(f, AnnotateList(args, at, 0, st), AnnotateOpt(r, at, |args|, st))
    case New(c, args) => New(c, AnnotateList(args, at, 0, st))
    case SetVariable(name, v, d, inst, id) =>
      SetVariable(name, Annotate(v, at + [if inst.Some? then 1 else 0], st), d, AnnotateOpt(inst, at, 0, st), StampOr(st, at, id))
    case Print(m) => Print(Annotate(m, at + [0], st))
    case If(c, code, e, h, l) =>
      If(Annotate(c, at + [if e.Some? then 2 else 1], st), Annotate(code, at + [0], st), AnnotateOpt(e, at, 1, st), h, l)
    case While(c, body) => While(Annotate(c, at + [1], st), Annotate(body, at + [0], st))
    case Function(name, ps, code) => Function(name, ps, Annotate(code, at + [0], st))
    case Return(v) => Return(Annotate(v, at + [0], st))
    case Blocks(bs) => Blocks(AnnotateList(bs, at, 0, st) + FreesAt(st, at))
    case Class(name, p, ms) => Class(name, p, AnnotateList(ms, at, 0, st))
    case _ => n
  }

  function AnnotateList(ns: seq<Node>, at: Path, offset: nat, st: ToolState): (r: seq<Node>)
    ensures |r| == |ns|
    decreases ns, 0
  {
    if ns == [] then [] else [Annotate(ns[0], at + [offset], st)] + AnnotateList(ns[1..], at, offset + 1, st)
  }

  function AnnotateEntries(es: seq<Entry>, at: Path, offset: nat, st: ToolState): (r: seq<Entry>)
    ensures |r| == |es|
    decreases es, 0
  {
    if es == [] then [] else [AnnotateEntry(es[0], at, offset, st)] + AnnotateEntries(es[1..], at, offset + 2, st)
  }

  /** A map entry's key and value are the children `offset` and `offset + 1`. */
  function AnnotateEntry(e: Entry, at: Path, offset: nat, st: ToolState): Entry
    decreases e, 0
  {
    Entry(Annotate(e.key, at + [offset], st), Annotate(e.val, at + [offset + 1], st))
  }

  function AnnotateOpt(o: Option<Node>, at: Path, index: nat, st: ToolState): Option<Node>
    decreases o, 0
  {
    if o.Some? then Some(Annotate(o.value, at + [index], st)) else None
  }

  /** Annotating joined children annotates each part at its own offset. */
  lemma {:induction false} AnnotateListAppend(a: seq<Node>, b: seq<Node>, at: Path, offset: nat, st: ToolState)
    ensures AnnotateList(a + b, at, offset, st) == AnnotateList(a, at, offset, st) + AnnotateList(b, at, offset + |a|, st)
    decreases |a|
  {
    if a == [] {
      assert a + b == b;
    } else {
      assert (a + b)[1..] == a[1..] + b;
      AnnotateListAppend(a[1..], b, at, offset + 1, st);
    }
  }

  /** A map's children, annotated entry by entry, are its children annotated one by one. */
  lemma {:induction false} AnnotateMapValues(es: seq<Entry>, at: Path, offset: nat, st: ToolState)
    ensures MapValues(AnnotateEntries(es, at, offset, st)) == AnnotateList(MapValues(es), at, offset, st)
    decreases |es|
  {
    if es != [] {
      var pair := [es[0].key, es[0].val];
      AnnotateMapValues(es[1..], at, offset + 2, st);
      AnnotateListAppend(pair, MapValues(es[1..]), at, offset, st);
      assert AnnotateList(pair, at, offset, st) == [Annotate(es[0].key, at + [offset], st), Annotate(es[0].val, at + [offset + 1], st)] by {
        assert pair[1..][1..] == [];
      }
    }
  }

  /** An optional child, annotated, as a list of at most one child. */
  lemma {:induction false} AnnotateOptList(o: Option<Node>, at: Path, index: nat, st: ToolState)
    ensures (var a := AnnotateOpt(o, at, index, st); if a.Some? then [a.value] else []) ==
            AnnotateList(if o.Some? then [o.value] else [], at, index, st)
  {
    if o.Some? {
      assert [o.value][1..] == [];
    }
  }

  /**
   * Annotating a node annotates each of its children at the child's own
   * path and keeps them in order; a `Blocks` also gets the `Free` blocks
   * recorded for it appended.
   */
  lemma {:induction false} AnnotateChildren(n: Node, at: Path, st: ToolState)
    ensures Children(Annotate(n, at, st)) == AnnotateList(Children(n), at, 0, st) + (if n.Blocks? then FreesAt(st, at) else [])
  {
    match n
    case Map(entries) => AnnotateMapChildren(entries, at, st);
    case Variable(name, inst, id) => AnnotateVariableChildren(name, inst, id, at, st);
    case Operator(k, v1, v2, tag) => AnnotateOperatorChildren(k, v1, v2, tag, at, st);
    case CallFunction(f, args, res) => AnnotateCallChildren(f, args, res, at, st);
    case SetVariable(name, v, d, inst, id) => AnnotateSetChildren(name, v, d, inst, id, at, st);
    case If(c, code, e, h, l) => AnnotateIfChildren(c, code, e, h, l, at, st);
    case While(c, body) => AnnotateWhileChildren(c, body, at, st);
    case Print(m) => AnnotateOneChild(n, m, at, st);
    case Function(name, ps, code) => AnnotateOneChild(n, code, at, st);
    case Return(v) => AnnotateOneChild(n, v, at, st);
    case Blocks(bs) => AnnotateBlocksChildren(bs, at, st);
    case List(items) => AnnotateListChildren(n, items, at, st);
    case New(c, args) => AnnotateListChildren(n, args, at, st);
    case Class(name, p, ms) => AnnotateClassChildren(name, p, ms, at, st);
    case _ => AnnotateLeaf(n, at, st);
  }

  /** A node without children comes back as it was. */
  lemma {:induction false} AnnotateLeaf(n: Node, at: Path, st: ToolState)
    requires n.Number? || n.Text? || n.Boolean? || n.Null? || n.This? || n.Super? || n.Continue? || n.Break? || n.Free?
    ensures Annotate(n, at, st) == n && Children(n) == [] && AnnotateList(Children(n), at, 0, st) == []
  {
    assert Children(n) == [] + [];
  }

  /** A node without code blocks has its values as children. */
  lemma {:induction false} ChildrenValues(n: Node)
    requires CodeBlocks(n) == []
    ensures Children(n) == Values(n)
  {
    assert [] + Values(n) == Values(n);
  }

  /** A node without values has its code blocks as children. */
  lemma {:induction false} ChildrenCode(n: Node)
    requires Values(n) == []
    ensures Children(n) == CodeBlocks(n)
  {
    assert CodeBlocks(n) + [] == CodeBlocks(n);
  }

  lemma {:induction false} AnnotateListOne(x: Node, at: Path, offset: nat, st: ToolState)
    ensures AnnotateList([x], at, offset, st) == [Annotate(x, at + [offset], st)]
  {
    assert [x][1..] == [];
  }

  lemma {:induction false} AnnotateListTwo(x: Node, y: Node, at: Path, st: ToolState)
    ensures AnnotateList([x, y], at, 0, st) == [Annotate(x, at + [0], st), Annotate(y, at + [1], st)]
  {
    assert [x, y][1..] == [y];
    AnnotateListOne(y, at, 1, st);
  }

  lemma {:induction false} AnnotateListThree(x: Node, y: Node, z: Node, at: Path, st: ToolState)
    ensures AnnotateList([x, y, z], at, 0, st) ==
            [Annotate(x, at + [0], st), Annotate(y, at + [1], st), Annotate(z, at + [2], st)]
  {
    assert [x, y, z][1..] == [y, z];
    assert [y, z][1..] == [z];
    AnnotateListOne(z, at, 2, st);
  }

  /** Annotating one more child at the end. */
  lemma {:induction false} AnnotateListSnoc(args: seq<Node>, last: Node, at: Path, st: ToolState)
    ensures AnnotateList(args + [last], at, 0, st) == AnnotateList(args, at, 0, st) + [Annotate(last, at + [|args|], st)]
  {
    AnnotateListAppend(args, [last], at, 0, st);
    AnnotateListOne(last, at, |args|, st);
  }

  lemma {:induction false} AnnotateMapChildren(entries: seq<Entry>, at: Path, st: ToolState)
    ensures Children(Annotate(Map(entries), at, st)) == AnnotateList(Children(Map(entries)), at, 0, st)
  {
    var r := AnnotateEntries(entries, at, 0, st);
    assert Annotate(Map(entries), at, st) == Map(r);
    ChildrenValues(Map(entries));
    ChildrenValues(Map(r));
    AnnotateMapValues(entries, at, 0, st);
  }

  lemma {:induction false} AnnotateVariableChildren(name: string, inst: Option<Node>, id: Option<int>, at: Path, st: ToolState)
    ensures var n := Variable(name, inst, id);
            Children(Annotate(n, at, st)) == AnnotateList(Children(n), at, 0, st)
  {
    var n := Variable(name, inst, id);
    var r := Annotate(n, at, st);
    ChildrenValues(n);
    ChildrenValues(r);
    if inst.Some? {
      AnnotateListOne(inst.value, at, 0, st);
    }
  }

  lemma {:induction false} AnnotateOperatorChildren(k: OpKind, v1: Node, v2: Node, tag: Option<string>, at: Path, st: ToolState)
    ensures var n := Operator(k, v1, v2, tag);
            Children(Annotate(n, at, st)) == AnnotateList(Children(n), at, 0, st)
  {
    var n := Operator(k, v1, v2, tag);
    ChildrenValues(n);
    ChildrenValues(Annotate(n, at, st));
    AnnotateListTwo(v1, v2, at, st);
  }

  lemma {:induction false} AnnotateCallChildren(f: string, args: seq<Node>, res: Option<Node>, at: Path, st: ToolState)
    ensures var n := CallFunction(f, args, res);
            Children(Annotate(n, at, st)) == AnnotateList(Children(n), at, 0, st)
  {
    var front := AnnotateList(args, at, 0, st);
    CallChildren(f, args, res);
    if res.Some? {
      var r := Annotate(res.value, at + [|args|], st);
      CallChildren(f, front, Some(r));
      AnnotateListSnoc(args, res.value, at, st);
    } else {
      CallChildren(f, front, None);
      assert args + [] == args;
    }
  }

  lemma {:induction false} CallChildren(f: string, args: seq<Node>, res: Option<Node>)
    ensures Children(CallFunction(f, args, res)) == args + (if res.Some? then [res.value] else [])
  {
    ChildrenValues(CallFunction(f, args, res));
  }

  lemma {:induction false} AnnotateSetChildren(name: string, v: Node, d: bool, inst: Option<Node>, id: Option<int>, at: Path, st: ToolState)
    ensures var n := SetVariable(name, v, d, inst, id);
            Children(Annotate(n, at, st)) == AnnotateList(Children(n), at, 0, st)
  {
    var n := SetVariable(name, v, d, inst, id);
    var r := Annotate(n, at, st);
    ChildrenValues(n);
    ChildrenValues(r);
    if inst.Some? {
      var ai, av := Annotate(inst.value, at + [0], st), Annotate(v, at + [1], st);
      assert AnnotateOpt(inst, at, 0, st) == Some(ai);
      assert at + [if inst.Some? then 1 else 0] == at + [1];
      assert r == SetVariable(name, av, d, Some(ai), StampOr(st, at, id));
      assert Values(n) == [inst.value] + [v] == [inst.value, v];
      assert Values(r) == [ai] + [av] == [ai, av];
      AnnotateListTwo(inst.value, v, at, st);
    } else {
      var av := Annotate(v, at + [0], st);
      assert AnnotateOpt(inst, at, 0, st) == None;
      assert at + [if inst.Some? then 1 else 0] == at + [0];
      assert r == SetVariable(name, av, d, None, StampOr(st, at, id));
      assert Values(n) == [] + [v] == [v];
      assert Values(r) == [] + [av] == [av];
      AnnotateListOne(v, at, 0, st);
    }
  }

  lemma {:induction false} AnnotateIfChildren(c: Node, code: Node, e: Option<Node>, h: bool, l: nat, at: Path, st: ToolState)
    ensures var n := If(c, code, e, h, l);
            Children(Annotate(n, at, st)) == AnnotateList(Children(n), at, 0, st)
  {
    var n := If(c, code, e, h, l);
    var r := Annotate(n, at, st);
    if e.Some? {
      var ac, ab, ae := Annotate(c, at + [2], st), Annotate(code, at + [0], st), Annotate(e.value, at + [1], st);
      assert AnnotateOpt(e, at, 1, st) == Some(ae);
      assert at + [if e.Some? then 2 else 1] == at + [2];
      assert r == If(ac, ab, Some(ae), h, l);
      assert Children(n) == ([code] + [e.value]) + [c] == [code, e.value, c];
      assert Children(r) == ([ab] + [ae]) + [ac] == [ab, ae, ac];
      AnnotateListThree(code, e.value, c, at, st);
    } else {
      var ac, ab := Annotate(c, at + [1], st), Annotate(code, at + [0], st);
      assert AnnotateOpt(e, at, 1, st) == None;
      assert at + [if e.Some? then 2 else 1] == at + [1];
      assert r == If(ac, ab, None, h, l);
      assert Children(n) == ([code] + []) + [c] == [code, c];
      assert Children(r) == ([ab] + []) + [ac] == [ab, ac];
      AnnotateListTwo(code, c, at, st);
    }
  }

  lemma {:induction false} AnnotateWhileChildren(c: Node, body: Node, at: Path, st: ToolState)
    ensures var n := While(c, body);
            Children(Annotate(n, at, st)) == AnnotateList(Children(n), at, 0, st)
  {
    assert Children(While(c, body)) == [body, c];
    assert Children(Annotate(While(c, body), at, st)) == [Annotate(body, at + [0], st), Annotate(c, at + [1], st)];
    AnnotateListTwo(body, c, at, st);
  }

  /** A `Blocks` keeps its statements, annotated, and gets its `Free` blocks after them. */
  lemma {:induction false} AnnotateBlocksChildren(bs: seq<Node>, at: Path, st: ToolState)
    ensures Children(Annotate(Blocks(bs), at, st)) == AnnotateList(Children(Blocks(bs)), at, 0, st) + FreesAt(st, at)
  {
    ChildrenCode(Blocks(bs));
    ChildrenCode(Annotate(Blocks(bs), at, st));
  }

  /** `List` and `New`: their children are one list of values. */
  lemma {:induction false} AnnotateListChildren(n: Node, cs: seq<Node>, at: Path, st: ToolState)
    requires n == List(cs) || (n.New? && n.newArgs == cs)
    ensures Children(Annotate(n, at, st)) == AnnotateList(Children(n), at, 0, st)
  {
    ChildrenValues(n);
    ChildrenValues(Annotate(n, at, st));
  }

  /** A `Class`: its members are its children. */
  lemma {:induction false} AnnotateClassChildren(name: string, p: Option<string>, ms: seq<Node>, at: Path, st: ToolState)
    ensures Children(Annotate(Class(name, p, ms), at, st)) == AnnotateList(Children(Class(name, p, ms)), at, 0, st)
  {
    ChildrenCode(Class(name, p, ms));
    ChildrenCode(Annotate(Class(name, p, ms), at, st));
  }

  /** `Print`, `Function` and `Return`: one child, at index 0. */
  lemma {:induction false} AnnotateOneChild(n: Node, child: Node, at: Path, st: ToolState)
    requires n == Print(child) || n == Return(child) || (n.Function? && n.functionCode == child)
    ensures Children(Annotate(n, at, st)) == AnnotateList(Children(n), at, 0, st)
  {
    assert Children(n) == [child];
    assert Children(Annotate(n, at, st)) == [Annotate(child, at + [0], st)];
    AnnotateListOne(child, at, 0, st);
  }

  /** A state that wrote nothing. */
  predicate Quiet(st: ToolState)
  {
    st.scope.stamps == map[] && st.scope.frees == map[] && st.tags == map[]
  }

  /** With nothing written, the tree comes back as it was. */
  lemma {:induction false} AnnotateQuiet(n: Node, at: Path, st: ToolState)
    requires Quiet(st)
    ensures Annotate(n, at, st) == n
    decreases n, 1
  {
    match n
    case List(items) => AnnotateListQuiet(items, at, 0, st);
    case Map(entries) => AnnotateEntriesQuiet(entries, at, 0, st);
    case Variable(name, inst, id) => AnnotateOptQuiet(inst, at, 0, st);
    case Operator(k, v1, v2, tag) =>
      AnnotateQuiet(v1, at + [0], st);
      AnnotateQuiet(v2, at + [1], st);
    case CallFunction(f, args, r) =>
      AnnotateListQuiet(args, at, 0, st);
      AnnotateOptQuiet(r, at, |args|, st);
    case New(c, args) => AnnotateListQuiet(args, at, 0, st);
    case SetVariable(name, v, d, inst, id) =>
      AnnotateQuiet(v, at + [if inst.Some? then 1 else 0], st);
      AnnotateOptQuiet(inst, at, 0, st);
    case Print(m) => AnnotateQuiet(m, at + [0], st);
    case If(c, code, e, h, l) =>
      AnnotateQuiet(c, at + [if e.Some? then 2 else 1], st);
      AnnotateQuiet(code, at + [0], st);
      AnnotateOptQuiet(e, at, 1, st);
    case While(c, body) =>
      AnnotateQuiet(c, at + [1], st);
      AnnotateQuiet(body, at + [0], st);
    case Function(name, ps, code) => AnnotateQuiet(code, at + [0], st);
    case Return(v) => AnnotateQuiet(v, at + [0], st);
    case Blocks(bs) =>
      AnnotateListQuiet(bs, at, 0, st);
      assert AnnotateList(bs, at, 0, st) + FreesAt(st, at) == bs;
    case Class(name, p, ms) => AnnotateListQuiet(ms, at, 0, st);
    case _ =>
  }

  lemma {:induction false} AnnotateListQuiet(ns: seq<Node>, at: Path, offset: nat, st: ToolState)
    requires Quiet(st)
    ensures AnnotateList(ns, at, offset, st) == ns
    decreases ns, 0
  {
    if ns != [] {
      AnnotateQuiet(ns[0], at + [offset], st);
      AnnotateListQuiet(ns[1..], at, offset + 1, st);
    }
  }

  lemma {:induction false} AnnotateEntriesQuiet(es: seq<Entry>, at: Path, offset: nat, st: ToolState)
    requires Quiet(st)
    ensures AnnotateEntries(es, at, offset, st) == es
    decreases es, 0
  {
    if es != [] {
      AnnotateEntryQuiet(es[0], at, offset, st);
      AnnotateEntriesQuiet(es[1..], at, offset + 2, st);
    }
  }

  lemma {:induction false} AnnotateEntryQuiet(e: Entry, at: Path, offset: nat, st: ToolState)
    requires Quiet(st)
    ensures AnnotateEntry(e, at, offset, st) == e
    decreases e, 0
  {
    AnnotateQuiet(e.key, at + [offset], st);
    AnnotateQuiet(e.val, at + [offset + 1], st);
  }

  lemma {:induction false} AnnotateOptQuiet(o: Option<Node>, at: Path, index: nat, st: ToolState)
    requires Quiet(st)
    ensures AnnotateOpt(o, at, index, st) == o
    decreases o, 0
  {
    if o.Some? {
      AnnotateQuiet(o.value, at + [index], st);
    }
  }

  // ---------------------------------------------------------------------
  // generate
  // ---------------------------------------------------------------------

  /** The code `generate` returns (none when a hook threw) and the error flag afterwards. */
  datatype Generated = Generated(code: Option<seq<Slot>>, errors: ErrorState)

  function Finish(root: Node, run: Run, cfg: VM.Config): (g: Generated)
    ensures g.errors == run.st.scope.errors
    ensures g.code.Some? <==> run.Running?
  {
    Generated(if run.Stopped? then None else Some(VM.GenerateRoot(Annotate(root, [], run.st), cfg)), run.st.scope.errors)
  }

  /**
   * `generate(root)` with the tools walking as written, followed by the
   * corrected back end of `VM.GenerateRoot` (with `INPLACE_POW`, in-place
   * stores only for the compound operators, widening by `sizeof`, and
   * recording kept on), so that only the walk differs from `Generate`.
   */
  function GenerateAsWritten(root: Node, cfg: VM.Config, e: ErrorState): (g: Generated)
    ensures Keeps(e, g.errors)
    ensures g.code.None? ==> WasThereAnError(g.errors)
  {
    FoldEffects(root, Initial(e), AsWrittenTrace(root), true);
    Finish(root, Fold(root, Initial(e), AsWrittenTrace(root), true), cfg)
  }

  /** `generate(root)` with each tool walking once and the corrected `finalizeBlock`. */
  function Generate(root: Node, cfg: VM.Config, e: ErrorState): (g: Generated)
    ensures Keeps(e, g.errors)
    ensures g.code.None? ==> WasThereAnError(g.errors)
    ensures g.errors == Fold(root, Initial(e), Pass(Scoping, root, [], false), false).st.scope.errors
  {
    FoldEffects(root, Initial(e), CorrectedTrace(root), false);
    CorrectedScopeAlone(root, Initial(e));
    Finish(root, Fold(root, Initial(e), CorrectedTrace(root), false), cfg)
  }

  // ---------------------------------------------------------------------
  // A tree without variables passes through the tools untouched
  // ---------------------------------------------------------------------

  /** No variable read or assignment anywhere in the tree. */
  predicate NoVariables(n: Node)
    decreases Size(n)
  {
    !n.Variable? && !n.SetVariable? &&
    forall i | 0 <= i < |Children(n)| :: ChildSmaller(n, i); NoVariables(Children(n)[i])
  }

  lemma {:induction false} NoVariablesAt(n: Node, p: Path)
    requires NoVariables(n)
    requires At(n, p).Some?
    ensures NoVariables(At(n, p).value)
    decreases |p|
  {
    if p != [] {
      NoVariablesAt(Children(n)[p[0]], p[1..]);
    }
  }

  /** A hook call on a node that is not a variable leaves the written extra data and the error flag alone. */
  lemma QuietStep(root: Node, st: ToolState, e: Event, asWritten: bool)
    requires Quiet(st)
    requires At(root, e.at).Some? && !At(root, e.at).value.Variable? && !At(root, e.at).value.SetVariable?
    ensures Step(root, st, e, asWritten).Running?
    ensures Quiet(Step(root, st, e, asWritten).st)
    ensures Step(root, st, e, asWritten).st.scope.errors == st.scope.errors
  {
    var n := At(root, e.at).value;
    match e.tool
    case Optimizing =>
      Opt.TagIff(root, st.tags, e.at);
    case Scoping =>
      match e.hook
      case ProcessBlockCall =>
        if n.Blocks? {
          var (scope, pParent) := Scope.UpToLocals(root, e.parent, None);
          assert Scope.ProcessBlock(root, st.scope, e.at, e.parent) == Scope.Done(Scope.OpenBlocks(root, st.scope, e.at, scope, pParent));
        } else {
          assert Scope.ProcessBlock(root, st.scope, e.at, e.parent) == Scope.Done(st.scope);
        }
      case FinalizeBlockCall =>
      case ProcessValueCall =>
        assert Scope.ProcessValue(root, st.scope, e.at, e.parent) == st.scope;
      case FinalizeValueCall =>
  }

  lemma {:induction false} QuietFold(root: Node, st: ToolState, evs: seq<Event>, asWritten: bool)
    requires Quiet(st) && NoVariables(root)
    requires forall e | e in evs :: Anchored(root, e)
    ensures Fold(root, st, evs, asWritten).Running?
    ensures Quiet(Fold(root, st, evs, asWritten).st)
    ensures Fold(root, st, evs, asWritten).st.scope.errors == st.scope.errors
    decreases |evs|
  {
    if evs != [] {
      assert Anchored(root, evs[0]) by { assert evs[0] in evs; }
      NoVariablesAt(root, evs[0].at);
      QuietStep(root, st, evs[0], asWritten);
      QuietFold(root, Step(root, st, evs[0], asWritten).st, evs[1..], asWritten);
    }
  }

  /**
   * Without variables the tools change nothing: both walks leave the tree
   * as it was and the error flag as it was, and the code is what the
   * backend makes of the tree itself.
   */
  lemma ToolsIdleWithoutVariables(root: Node, cfg: VM.Config, e: ErrorState)
    requires NoVariables(root)
    ensures Generate(root, cfg, e) == Generated(Some(VM.GenerateRoot(root, cfg)), e)
    ensures GenerateAsWritten(root, cfg, e) == Generate(root, cfg, e)
  {
    WalksAnchored(root);
    QuietFold(root, Initial(e), CorrectedTrace(root), false);
    QuietFold(root, Initial(e), AsWrittenTrace(root), true);
    AnnotateQuiet(root, [], Fold(root, Initial(e), CorrectedTrace(root), false).st);
    AnnotateQuiet(root, [], Fold(root, Initial(e), AsWrittenTrace(root), true).st);
  }
}
