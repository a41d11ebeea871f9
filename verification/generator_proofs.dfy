/**
 * The walk of `Generator.runTools` on the first branch of the namespace
 * test, `if true { var msg = "Hello" }`, step by step. As written, the
 * declaration is processed by the scope tool once for each tool walking
 * the `If`, so the body gets two `Free` blocks and frees slot 0 twice;
 * with each tool walking the tree once it gets one.
 */
module GeneratorProofs {
  import opened Base
  import opened SyntaxTree
  import opened TreePaths
  import Errors
  import opened VMWrapper
  import opened Generator
  import Scope = ScopeTool
  import Opt = OptimizerTool
  import VM = VMByteCodeGenerator

  function Declaration(): Node
  {
    SetVariable("msg", Text("Hello"), true, None, None)
  }

  function Body(): Node
  {
    Blocks([Declaration()])
  }

  /** `if true { var msg = "Hello" }`. */
  function Namespace(): Node
  {
    If(Boolean(true), Body(), None, false, 0)
  }

  /** The children each node of the example is walked through. */
  lemma Kids()
    ensures Children(Namespace()) == [Body(), Boolean(true)] && |CodeBlocks(Namespace())| == 1
    ensures Children(Body()) == [Declaration()] && |CodeBlocks(Body())| == 1
    ensures Children(Declaration()) == [Text("Hello")] && |CodeBlocks(Declaration())| == 0
    ensures Children(Text("Hello")) == [] && Children(Boolean(true)) == []
  {
    assert Children(Namespace()) == [Body()] + [Boolean(true)];
    assert Children(Declaration()) == [] + [Text("Hello")];
  }

  /** Where each node of the example sits. */
  lemma Shape()
    ensures At(Namespace(), [0]) == Some(Body()) && At(Namespace(), [1]) == Some(Boolean(true))
    ensures At(Namespace(), [0, 0]) == Some(Declaration())
    ensures At(Namespace(), [0, 0, 0]) == Some(Text("Hello"))
  {
    var root := Namespace();
    Kids();
    assert [0, 0][1..] == [0];
    assert [0, 0, 0][1..] == [0, 0];
    assert [0][1..] == [];
    assert [1][1..] == [];
    assert At(root, [0, 0]) == At(Body(), [0]) == At(Declaration(), []);
    assert At(root, [0, 0, 0]) == At(Body(), [0, 0]) == At(Declaration(), [0]) == At(Text("Hello"), []);
  }

  /** A leaf below the root has no hook calls of its own. */
  lemma LeafWalk(t: ToolKind, n: Node, p: Path, nested: bool)
    requires Children(n) == [] && p != []
    ensures Pass(t, n, p, nested) == [] && RunTools(n, p) == []
  {
    forall t': ToolKind, b: bool
      ensures Pass(t', n, p, b) == []
    {
      PassChildren(t', n, p, b);
      VisitDone(t', [], |CodeBlocks(n)|, p, 0, b);
    }
    RunToolsBoth(n, p);
  }

  function PV(t: ToolKind, at: Path, parent: Path): Event { Event(t, ProcessValueCall, at, Some(parent)) }
  function FV(t: ToolKind, at: Path, parent: Path): Event { Event(t, FinalizeValueCall, at, Some(parent)) }
  function PB(t: ToolKind, at: Path, parent: Path): Event { Event(t, ProcessBlockCall, at, Some(parent)) }
  function FB(t: ToolKind, at: Path, parent: Path): Event { Event(t, FinalizeBlockCall, at, Some(parent)) }

  // ---------------------------------------------------------------------
  // The hook calls, level by level
  // ---------------------------------------------------------------------

  lemma DeclarationWalk(t: ToolKind, nested: bool)
    ensures Pass(t, Declaration(), [0, 0], nested) == [PV(t, [0, 0, 0], [0, 0]), FV(t, [0, 0, 0], [0, 0])]
  {
    Kids();
    var cs := [Text("Hello")];
    PassChildren(t, Declaration(), [0, 0], nested);
    VisitStep(t, cs, 0, [0, 0], 0, nested);
    VisitDone(t, cs, 0, [0, 0], 1, nested);
    assert [0, 0] + [0] == [0, 0, 0];
    LeafWalk(t, Text("Hello"), [0, 0, 0], nested);
    var inner := ChildWalk(t, Text("Hello"), [0, 0, 0], nested);
    assert inner == [];
    assert OpenEvent(t, cs, 0, [0, 0], 0) == PV(t, [0, 0, 0], [0, 0]);
    assert CloseEvent(t, cs, 0, [0, 0], 0) == FV(t, [0, 0, 0], [0, 0]);
  }

  lemma DeclarationTools()
    ensures RunTools(Declaration(), [0, 0]) ==
            [PV(Scoping, [0, 0, 0], [0, 0]), FV(Scoping, [0, 0, 0], [0, 0]),
             PV(Optimizing, [0, 0, 0], [0, 0]), FV(Optimizing, [0, 0, 0], [0, 0])]
  {
    DeclarationWalk(Scoping, true);
    DeclarationWalk(Optimizing, true);
    RunToolsBoth(Declaration(), [0, 0]);
  }

  lemma BodyWalk(t: ToolKind, nested: bool)
    ensures Pass(t, Body(), [0], nested) ==
            [PB(t, [0, 0], [0])]
            + ChildWalk(t, Declaration(), [0, 0], nested)
            + [FB(t, [0, 0], [0])]
  {
    Kids();
    var cs := [Declaration()];
    PassChildren(t, Body(), [0], nested);
    VisitStep(t, cs, 1, [0], 0, nested);
    VisitDone(t, cs, 1, [0], 1, nested);
    assert [0] + [0] == [0, 0];
  }

  /** The condition's hooks: a leaf value. */
  lemma ConditionWalk(t: ToolKind, nested: bool)
    ensures Visit(t, [Body(), Boolean(true)], 1, [], 1, nested) == [PV(t, [1], []), FV(t, [1], [])]
  {
    Kids();
    var cs := [Body(), Boolean(true)];
    VisitStep(t, cs, 1, [], 1, nested);
    VisitDone(t, cs, 1, [], 2, nested);
    assert [] + [1] == [1];
    LeafWalk(t, Boolean(true), [1], nested);
    var cond := ChildWalk(t, Boolean(true), [1], nested);
    assert cond == [];
    assert OpenEvent(t, cs, 1, [], 1) == PV(t, [1], []);
    assert CloseEvent(t, cs, 1, [], 1) == FV(t, [1], []);
  }

  lemma NamespaceVisit(t: ToolKind, nested: bool, inner: seq<Event>)
    requires inner == ChildWalk(t, Body(), [0], nested)
    ensures Visit(t, [Body(), Boolean(true)], 1, [], 0, nested) == [PB(t, [0], [])] + inner + Tail(t)
  {
    var cs := [Body(), Boolean(true)];
    VisitStep(t, cs, 1, [], 0, nested);
    BodyHooks(t, cs);
    ConditionWalk(t, nested);
    TailSplit(t);
    AppendFour([PB(t, [0], [])], inner, [FB(t, [0], [])], [PV(t, [1], []), FV(t, [1], [])]);
  }

  lemma TailSplit(t: ToolKind)
    ensures [FB(t, [0], [])] + [PV(t, [1], []), FV(t, [1], [])] == Tail(t)
  {
  }

  lemma AppendFour<T>(a: seq<T>, b: seq<T>, c: seq<T>, d: seq<T>)
    ensures a + b + c + d == a + b + (c + d)
  {
  }

  /** The hooks around the body, the first child of the `If`. */
  lemma BodyHooks(t: ToolKind, cs: seq<Node>)
    requires cs == [Body(), Boolean(true)]
    ensures OpenEvent(t, cs, 1, [], 0) == PB(t, [0], []) && CloseEvent(t, cs, 1, [], 0) == FB(t, [0], [])
    ensures cs[0] == Body() && [] + [0] == [0]
  {
    assert [] + [0] == [0];
  }

  lemma NamespaceWalk(t: ToolKind, nested: bool)
    ensures Pass(t, Namespace(), [], nested) ==
            [PB(t, [0], [])]
            + ChildWalk(t, Body(), [0], nested)
            + Tail(t)
  {
    Kids();
    PassChildren(t, Namespace(), [], nested);
    NamespaceVisit(t, nested, ChildWalk(t, Body(), [0], nested));
  }

  // ---------------------------------------------------------------------
  // Hook calls that change nothing
  // ---------------------------------------------------------------------

  /** Both tools' value hooks on the declaration's `"Hello"` do nothing. */
  lemma DeclarationQuiet(st: ToolState, aw: bool)
    ensures Fold(Namespace(), st, RunTools(Declaration(), [0, 0]), aw) == Running(st)
    ensures forall t :: Fold(Namespace(), st, Pass(t, Declaration(), [0, 0], false), aw) == Running(st)
    ensures forall t, nested :: Fold(Namespace(), st, ChildWalk(t, Declaration(), [0, 0], nested), aw) == Running(st)
  {
    Shape();
    DeclarationTools();
    assert Scope.ProcessValue(Namespace(), st.scope, [0, 0, 0], Some([0, 0])) == st.scope;
    var evs := RunTools(Declaration(), [0, 0]);
    FoldIdle(Namespace(), st, evs, aw);
    forall t
      ensures Fold(Namespace(), st, Pass(t, Declaration(), [0, 0], false), aw) == Running(st)
    {
      DeclarationWalk(t, false);
      FoldIdle(Namespace(), st, Pass(t, Declaration(), [0, 0], false), aw);
    }
  }

  /** The optimizer's block hooks find no self-update, and its value hooks do nothing. */
  lemma OptimizerIdle(st: ToolState, aw: bool, e: Event)
    requires e.tool == Optimizing && (e.hook == ProcessBlockCall ==> e.at == [0] || e.at == [0, 0])
    ensures Step(Namespace(), st, e, aw) == Running(st)
  {
    if e.hook == ProcessBlockCall {
      Shape();
      assert !Opt.SelfUpdate(Body()) && !Opt.SelfUpdate(Declaration());
      Opt.TagIff(Namespace(), st.tags, e.at);
    }
  }

  /** The optimizer finds no self-update in the body, and the nested walk below it changes nothing. */
  lemma OptimizerBodyQuiet(st: ToolState, aw: bool, nested: bool)
    ensures Fold(Namespace(), st, Pass(Optimizing, Body(), [0], nested), aw) == Running(st)
  {
    BodyWalk(Optimizing, nested);
    DeclarationQuiet(st, aw);
    var inner := ChildWalk(Optimizing, Declaration(), [0, 0], nested);
    OptimizerIdle(st, aw, PB(Optimizing, [0, 0], [0]));
    OptimizerIdle(st, aw, FB(Optimizing, [0, 0], [0]));
    FoldOne(Namespace(), st, PB(Optimizing, [0, 0], [0]), aw);
    FoldOne(Namespace(), st, FB(Optimizing, [0, 0], [0]), aw);
    FoldThree(Namespace(), st, [PB(Optimizing, [0, 0], [0])], st, inner, st, [FB(Optimizing, [0, 0], [0])], st, aw);
  }

  /** The tail of a tool's turn at the top: leaving the body, then the condition's hooks. */
  function Tail(t: ToolKind): seq<Event>
  {
    [FB(t, [0], []), PV(t, [1], []), FV(t, [1], [])]
  }

  lemma OptimizerTailQuiet(st: ToolState, aw: bool)
    ensures Fold(Namespace(), st, Tail(Optimizing), aw) == Running(st)
  {
    OptimizerIdle(st, aw, FB(Optimizing, [0], []));
    OptimizerIdle(st, aw, PV(Optimizing, [1], []));
    OptimizerIdle(st, aw, FV(Optimizing, [1], []));
    FoldIdle(Namespace(), st, Tail(Optimizing), aw);
  }

  /** The optimizer's turn at the top of the corrected walk changes nothing. */
  lemma OptimizerQuiet(st: ToolState, aw: bool)
    ensures Fold(Namespace(), st, Pass(Optimizing, Namespace(), [], false), aw) == Running(st)
  {
    NamespaceWalk(Optimizing, false);
    OptimizerBodyQuiet(st, aw, false);
    OptimizerIdle(st, aw, PB(Optimizing, [0], []));
    FoldOne(Namespace(), st, PB(Optimizing, [0], []), aw);
    OptimizerTailQuiet(st, aw);
    FoldThree(Namespace(), st, [PB(Optimizing, [0], [])], st, Pass(Optimizing, Body(), [0], false), st, Tail(Optimizing), st, aw);
  }

  // ---------------------------------------------------------------------
  // The scope tool's steps
  // ---------------------------------------------------------------------

  /** Opening the body in a state with no map for it or for the null key. */
  lemma OpenBody(s: Scope.ScopeState)
    requires None !in s.info && Some([0]) !in s.info
    ensures Scope.ProcessBlock(Namespace(), s, [0], Some([])) == Scope.Done(s.(info := s.info[Some([0]) := map[]]))
  {
    Shape();
    var root := Namespace();
    assert Scope.UpToLocals(root, Some([]), None) == (Some([]), None);
    assert Scope.ArgsAt(root, []) == [];
    var withArgs: map<string, int> := map[] + Scope.ParamIds([]);
    assert withArgs == map[];
    assert Scope.Inherit(root, s.info, Some([]), None, withArgs) == map[];
  }

  /** The declaration takes `nextId()` in the body's scope and appends a `Free` to the body. */
  lemma Declare(s: Scope.ScopeState)
    ensures Scope.ProcessBlock(Namespace(), s, [0, 0], Some([0])) ==
            Scope.Assign(Namespace(), s, [0, 0], Declaration(), Some([0]), Some([]), Some([0]))
  {
    Shape();
    var root := Namespace();
    assert ParentOf([0]) == Some([]);
    assert !LocalsAt(root, [0]) && LocalsAt(root, []);
    assert Scope.UpToLocals(root, Some([0]), None) == (Some([]), Some([0]));
  }

  /** Finalizing the declaration itself: it has no map and no ids. */
  lemma FinalizeDeclaration(s: Scope.ScopeState)
    requires Some([0, 0]) !in s.info && Some([0, 0]) !in s.declared
    ensures Scope.FinalizeBlock(s, [0, 0]) == s && Scope.FinalizeBlockAsWritten(s, [0, 0]) == s
  {
    assert s.info - {Some([0, 0])} == s.info;
    assert s.declared - {Some([0, 0])} == s.declared;
    assert s.freeIds + {} == s.freeIds;
  }

  function Mark(): Scope.FreeMark { Scope.FreeMark("msg", 0) }

  /** After opening the body from a fresh tool: an empty map for the body's scope. */
  function Opened(e: Errors.ErrorState): Scope.ScopeState
  {
    Scope.Fresh(e).(info := map[Some([0]) := map[]])
  }

  /** After opening the body and declaring `msg` from a fresh tool. */
  function Declared(e: Errors.ErrorState): Scope.ScopeState
  {
    Scope.ScopeState(1, {}, map[Some([0]) := map["msg" := 0]], {}, map[[0, 0] := 0],
                     map[[0] := [Mark()]], map[Some([0]) := {0}], e)
  }

  lemma StepOpen(e: Errors.ErrorState, aw: bool)
    ensures Step(Namespace(), Initial(e), PB(Scoping, [0], []), aw) == Running(ToolState(Opened(e), map[]))
  {
    OpenBody(Scope.Fresh(e));
  }

  lemma FirstDeclaration(e: Errors.ErrorState)
    ensures Scope.ProcessBlock(Namespace(), Opened(e), [0, 0], Some([0])) == Scope.Done(Declared(e))
  {
    var s1 := Opened(e);
    Declare(s1);
    Shape();
    assert Scope.BlocksAt(Namespace(), [0]);
    assert Scope.NextId(s1) == (0, s1.(counter := 1));
    assert {} + {0} == {0};
    assert Scope.AddFree(map[], [0], Mark()) == map[[0] := [Mark()]] by {
      assert [] + [Mark()] == [Mark()];
    }
    var r := Scope.Assign(Namespace(), s1, [0, 0], Declaration(), Some([0]), Some([]), Some([0]));
    assert r.state.declared == map[Some([0]) := {0}];
    assert r.state.frees == map[[0] := [Mark()]];
  }

  lemma StepDeclare(e: Errors.ErrorState, aw: bool)
    ensures Step(Namespace(), ToolState(Opened(e), map[]), PB(Scoping, [0, 0], [0]), aw) == Running(ToolState(Declared(e), map[]))
  {
    FirstDeclaration(e);
  }

  /**
   * The scope tool's pass over the body, in a walk as written or corrected:
   * the declaration's block hook takes `s` to `s'`, and nothing else below
   * the body changes the state.
   */
  lemma ScopeBody(s: Scope.ScopeState, s': Scope.ScopeState, aw: bool, nested: bool)
    requires Step(Namespace(), ToolState(s, map[]), PB(Scoping, [0, 0], [0]), aw) == Running(ToolState(s', map[]))
    requires Some([0, 0]) !in s'.info && Some([0, 0]) !in s'.declared
    ensures Fold(Namespace(), ToolState(s, map[]), Pass(Scoping, Body(), [0], nested), aw) == Running(ToolState(s', map[]))
  {
    var root := Namespace();
    var st := ToolState(s, map[]);
    var st' := ToolState(s', map[]);
    BodyWalk(Scoping, nested);
    FoldOne(root, st, PB(Scoping, [0, 0], [0]), aw);
    DeclarationQuiet(st', aw);
    FinalizeDeclaration(s');
    assert Step(root, st', FB(Scoping, [0, 0], [0]), aw) == Running(st');
    FoldOne(root, st', FB(Scoping, [0, 0], [0]), aw);
    FoldThree(root, st, [PB(Scoping, [0, 0], [0])], st', ChildWalk(Scoping, Declaration(), [0, 0], nested), st',
              [FB(Scoping, [0, 0], [0])], st', aw);
  }

  /** Leaving the body with `finalize`, then the condition's hooks, which read no variable. */
  lemma ScopeTail(s: Scope.ScopeState, s': Scope.ScopeState, aw: bool)
    requires s' == if aw then Scope.FinalizeBlockAsWritten(s, [0]) else Scope.FinalizeBlock(s, [0])
    ensures Fold(Namespace(), ToolState(s, map[]), Tail(Scoping), aw) == Running(ToolState(s', map[]))
  {
    var root := Namespace();
    var st := ToolState(s, map[]);
    var st' := ToolState(s', map[]);
    Shape();
    assert Step(root, st, FB(Scoping, [0], []), aw) == Running(st');
    assert Scope.ProcessValue(root, s', [1], Some([])) == s';
    assert Step(root, st', PV(Scoping, [1], []), aw) == Running(st');
    FoldOne(root, st, FB(Scoping, [0], []), aw);
    FoldOne(root, st', PV(Scoping, [1], []), aw);
    FoldOne(root, st', FV(Scoping, [1], []), aw);
    FoldThree(root, st, [FB(Scoping, [0], [])], st', [PV(Scoping, [1], [])], st', [FV(Scoping, [1], [])], st', aw);
    assert [FB(Scoping, [0], [])] + [PV(Scoping, [1], [])] + [FV(Scoping, [1], [])] == Tail(Scoping);
  }

  // ---------------------------------------------------------------------
  // The corrected walk
  // ---------------------------------------------------------------------

  /** After the corrected walk: `msg` has slot 0, the body one `Free`, and slot 0 is free again. */
  function CorrectedFinal(e: Errors.ErrorState): Scope.ScopeState
  {
    Declared(e).(freeIds := {0}, info := map[], declared := map[])
  }

  lemma CorrectedLeave(e: Errors.ErrorState)
    ensures Scope.FinalizeBlock(Declared(e), [0]) == CorrectedFinal(e)
  {
    assert {} + {0} == {0};
    assert Declared(e).info - {Some([0])} == map[];
    assert Declared(e).declared - {Some([0])} == map[];
  }

  lemma CorrectedScopePass(e: Errors.ErrorState)
    ensures Fold(Namespace(), Initial(e), Pass(Scoping, Namespace(), [], false), false) == Running(ToolState(CorrectedFinal(e), map[]))
  {
    var root := Namespace();
    var b := ChildWalk(Scoping, Body(), [0], false);
    NamespaceWalk(Scoping, false);
    StepOpen(e, false);
    FoldOne(root, Initial(e), PB(Scoping, [0], []), false);
    StepDeclare(e, false);
    ScopeBody(Opened(e), Declared(e), false, false);
    assert b == Pass(Scoping, Body(), [0], false);
    CorrectedLeave(e);
    ScopeTail(Declared(e), CorrectedFinal(e), false);
    FoldThree(root, Initial(e), [PB(Scoping, [0], [])], ToolState(Opened(e), map[]), b, ToolState(Declared(e), map[]),
              Tail(Scoping), ToolState(CorrectedFinal(e), map[]), false);
  }

  /** The corrected walk of `if true { var msg = "Hello" }`. */
  lemma CorrectedRun(e: Errors.ErrorState)
    ensures Fold(Namespace(), Initial(e), CorrectedTrace(Namespace()), false) == Running(ToolState(CorrectedFinal(e), map[]))
  {
    var root := Namespace();
    CorrectedScopePass(e);
    OptimizerQuiet(ToolState(CorrectedFinal(e), map[]), false);
    assert CorrectedTrace(root) == Pass(Scoping, root, [], false) + (Pass(Optimizing, root, [], false) + []);
    FoldAppend(root, Initial(e), Pass(Scoping, root, [], false), Pass(Optimizing, root, [], false) + [], false);
    assert Pass(Optimizing, root, [], false) + [] == Pass(Optimizing, root, [], false);
  }

  // ---------------------------------------------------------------------
  // The walk as written
  // ---------------------------------------------------------------------

  /** After the scope tool's turn at the top: the body's map is gone and slot 0 is free, but its ids stay recorded. */
  function AsWrittenMiddle(e: Errors.ErrorState): Scope.ScopeState
  {
    Declared(e).(freeIds := {0}, info := map[])
  }

  /** After the whole walk: `msg` was declared again, so the body has two `Free`s for slot 0. */
  function AsWrittenFinal(e: Errors.ErrorState): Scope.ScopeState
  {
    Declared(e).(frees := map[[0] := [Mark(), Mark()]])
  }

  lemma AsWrittenLeave(e: Errors.ErrorState)
    ensures Scope.FinalizeBlockAsWritten(Declared(e), [0]) == AsWrittenMiddle(e)
  {
    var m := map["msg" := 0];
    assert "msg" in m && m["msg"] == 0;
    forall v | v in m.Values
      ensures v == 0
    {
      var k :| k in m && m[k] == v;
    }
    assert m.Values == {0};
    assert {} + {0} == {0};
    assert Declared(e).info - {Some([0])} == map[];
  }

  /** The nested `runTools(body)` under the scope tool's turn: the scope tool declares `msg`, the optimizer changes nothing. */
  lemma NestedBody(s: Scope.ScopeState, s': Scope.ScopeState)
    requires Step(Namespace(), ToolState(s, map[]), PB(Scoping, [0, 0], [0]), true) == Running(ToolState(s', map[]))
    requires Some([0, 0]) !in s'.info && Some([0, 0]) !in s'.declared
    ensures forall t :: Fold(Namespace(), ToolState(s, map[]), ChildWalk(t, Body(), [0], true), true) == Running(ToolState(s', map[]))
  {
    var root := Namespace();
    RunToolsBoth(Body(), [0]);
    ScopeBody(s, s', true, true);
    OptimizerBodyQuiet(ToolState(s', map[]), true, true);
    FoldAppend(root, ToolState(s, map[]), Pass(Scoping, Body(), [0], true), Pass(Optimizing, Body(), [0], true), true);
  }

  lemma AsWrittenScopePass(e: Errors.ErrorState)
    ensures Fold(Namespace(), Initial(e), Pass(Scoping, Namespace(), [], true), true) == Running(ToolState(AsWrittenMiddle(e), map[]))
  {
    var root := Namespace();
    NamespaceWalk(Scoping, true);
    StepOpen(e, true);
    FoldOne(root, Initial(e), PB(Scoping, [0], []), true);
    StepDeclare(e, true);
    NestedBody(Opened(e), Declared(e));
    AsWrittenLeave(e);
    ScopeTail(Declared(e), AsWrittenMiddle(e), true);
    FoldThree(root, Initial(e), [PB(Scoping, [0], [])], ToolState(Opened(e), map[]), ChildWalk(Scoping, Body(), [0], true),
              ToolState(Declared(e), map[]), Tail(Scoping), ToolState(AsWrittenMiddle(e), map[]), true);
  }

  /** The second declaration of `msg`, inside the optimizer's turn: slot 0 again, and a second `Free`. */
  lemma Redeclare(e: Errors.ErrorState)
    ensures Scope.ProcessBlock(Namespace(), AsWrittenMiddle(e), [0, 0], Some([0])) == Scope.Done(AsWrittenFinal(e))
  {
    Declare(AsWrittenMiddle(e));
    RedeclareAssign(e);
  }

  /** The freed slot 0 is handed out again. */
  lemma MiddleNextId(e: Errors.ErrorState)
    ensures Scope.NextId(AsWrittenMiddle(e)) == (0, AsWrittenMiddle(e).(freeIds := {}))
  {
    assert Scope.Least({0}) == 0;
    assert {0} - {0} == {};
  }

  lemma RedeclareAssign(e: Errors.ErrorState)
    ensures Scope.Assign(Namespace(), AsWrittenMiddle(e), [0, 0], Declaration(), Some([0]), Some([]), Some([0])) ==
            Scope.Done(AsWrittenFinal(e))
  {
    var s := AsWrittenMiddle(e);
    Shape();
    assert Scope.BlocksAt(Namespace(), [0]);
    MiddleNextId(e);
    assert {0} + {0} == {0};
    assert Scope.AddFree(map[[0] := [Mark()]], [0], Mark()) == map[[0] := [Mark(), Mark()]] by {
      assert [Mark()] + [Mark()] == [Mark(), Mark()];
    }
    var r := Scope.Assign(Namespace(), s, [0, 0], Declaration(), Some([0]), Some([]), Some([0]));
    assert r.state.frees == map[[0] := [Mark(), Mark()]];
    assert r.state.declared == map[Some([0]) := {0}];
    assert r.state.info == map[Some([0]) := map["msg" := 0]];
  }

  lemma StepRedeclare(e: Errors.ErrorState)
    ensures Step(Namespace(), ToolState(AsWrittenMiddle(e), map[]), PB(Scoping, [0, 0], [0]), true) ==
            Running(ToolState(AsWrittenFinal(e), map[]))
  {
    Redeclare(e);
  }

  /** In the optimizer's turn, the body's nested block declares `msg` again. */
  lemma AsWrittenOptimizerBody(e: Errors.ErrorState)
    ensures Fold(Namespace(), ToolState(AsWrittenMiddle(e), map[]), ChildWalk(Optimizing, Body(), [0], true), true) ==
            Running(ToolState(AsWrittenFinal(e), map[]))
  {
    StepRedeclare(e);
    NestedBody(AsWrittenMiddle(e), AsWrittenFinal(e));
  }

  lemma AsWrittenOptimizerPass(e: Errors.ErrorState)
    ensures Fold(Namespace(), ToolState(AsWrittenMiddle(e), map[]), Pass(Optimizing, Namespace(), [], true), true) ==
            Running(ToolState(AsWrittenFinal(e), map[]))
  {
    var root := Namespace();
    var stm := ToolState(AsWrittenMiddle(e), map[]);
    var stf := ToolState(AsWrittenFinal(e), map[]);
    NamespaceWalk(Optimizing, true);
    OptimizerIdle(stm, true, PB(Optimizing, [0], []));
    FoldOne(root, stm, PB(Optimizing, [0], []), true);
    AsWrittenOptimizerBody(e);
    OptimizerTailQuiet(stf, true);
    FoldThree(root, stm, [PB(Optimizing, [0], [])], stm, ChildWalk(Optimizing, Body(), [0], true), stf,
              Tail(Optimizing), stf, true);
  }

  /** The walk as written of `if true { var msg = "Hello" }`. */
  lemma AsWrittenRun(e: Errors.ErrorState)
    ensures Fold(Namespace(), Initial(e), AsWrittenTrace(Namespace()), true) == Running(ToolState(AsWrittenFinal(e), map[]))
  {
    var root := Namespace();
    AsWrittenScopePass(e);
    AsWrittenOptimizerPass(e);
    RunToolsBoth(root, []);
    FoldAppend(root, Initial(e), Pass(Scoping, root, [], true), Pass(Optimizing, root, [], true), true);
  }

  // ---------------------------------------------------------------------
  // The annotated trees and their code
  // ---------------------------------------------------------------------

  function SlotZero(): Node
  {
    SetVariable("msg", Text("Hello"), true, None, Some(0))
  }

  /** `Free(msg)` with slot 0: the body's `DELVAR 0`. */
  function FreeZero(): Node
  {
    Free("msg", Some(0))
  }

  lemma AnnotateDeclaration(st: ToolState)
    requires [0, 0] in st.scope.stamps && st.scope.stamps[[0, 0]] == 0
    ensures AnnotateList([Declaration()], [0], 0, st) == [SlotZero()]
  {
    assert Annotate(Text("Hello"), [0, 0, 0], st) == Text("Hello");
    assert [0, 0] + [0] == [0, 0, 0];
    assert StampOr(st, [0, 0], None) == Some(0);
    assert Annotate(Declaration(), [0, 0], st) == SlotZero();
    assert [0] + [0] == [0, 0];
    assert [Declaration()][1..] == [];
  }

  lemma AnnotateWith(s: Scope.ScopeState, frees: seq<Scope.FreeMark>)
    requires s.stamps == map[[0, 0] := 0] && s.frees == map[[0] := frees]
    ensures Annotate(Namespace(), [], ToolState(s, map[])) ==
            If(Boolean(true), Blocks([SlotZero()] + FreeNodes(frees)), None, false, 0)
  {
    var st := ToolState(s, map[]);
    AnnotateDeclaration(st);
    assert FreesAt(st, [0]) == FreeNodes(frees);
    assert Annotate(Body(), [0], st) == Blocks([SlotZero()] + FreeNodes(frees));
    assert Annotate(Boolean(true), [1], st) == Boolean(true);
    assert [] + [0] == [0] && [] + [1] == [1];
  }

  /**
   * As written, the body of `if true { var msg = "Hello" }` gets two
   * `Free` blocks for slot 0, so its code deletes the variable twice;
   * the namespace test expects one `DELVAR 0`.
   */
  lemma AsWrittenWalkFreesTwice(cfg: VM.Config, e: Errors.ErrorState)
    ensures GenerateAsWritten(Namespace(), cfg, e) ==
            Generated(Some(VM.GenerateRoot(If(Boolean(true), Blocks([SlotZero(), FreeZero(), FreeZero()]), None, false, 0), cfg)), e)
    ensures VM.GenStatements([SlotZero(), FreeZero(), FreeZero()], cfg, VM.TopLevel) ==
            VM.Gen(SlotZero(), cfg, VM.TopLevel) + [Op(DELVAR), VM.VariableOperand("msg", Some(0)), Op(DELVAR), VM.VariableOperand("msg", Some(0))]
  {
    AsWrittenRun(e);
    AsWrittenTree(e);
    Statements(cfg);
  }

  /** The tree the as-written walk leaves: the declaration and two `Free`s of slot 0. */
  lemma AsWrittenTree(e: Errors.ErrorState)
    ensures Annotate(Namespace(), [], ToolState(AsWrittenFinal(e), map[])) ==
            If(Boolean(true), Blocks([SlotZero(), FreeZero(), FreeZero()]), None, false, 0)
  {
    AnnotateWith(AsWrittenFinal(e), [Mark(), Mark()]);
    assert FreeNodes([Mark(), Mark()]) == [FreeZero(), FreeZero()];
    assert [SlotZero()] + [FreeZero(), FreeZero()] == [SlotZero(), FreeZero(), FreeZero()];
  }

  /** Each tool walking once: one `Free`, one `DELVAR 0`, and the error flag untouched. */
  lemma CorrectedWalkFreesOnce(cfg: VM.Config, e: Errors.ErrorState)
    ensures Generate(Namespace(), cfg, e) ==
            Generated(Some(VM.GenerateRoot(If(Boolean(true), Blocks([SlotZero(), FreeZero()]), None, false, 0), cfg)), e)
    ensures VM.GenStatements([SlotZero(), FreeZero()], cfg, VM.TopLevel) ==
            VM.Gen(SlotZero(), cfg, VM.TopLevel) + [Op(DELVAR), VM.VariableOperand("msg", Some(0))]
  {
    CorrectedRun(e);
    CorrectedTree(e);
    Statements(cfg);
  }

  /** The tree the corrected walk leaves: the declaration and one `Free` of slot 0. */
  lemma CorrectedTree(e: Errors.ErrorState)
    ensures Annotate(Namespace(), [], ToolState(CorrectedFinal(e), map[])) ==
            If(Boolean(true), Blocks([SlotZero(), FreeZero()]), None, false, 0)
  {
    AnnotateWith(CorrectedFinal(e), [Mark()]);
    assert FreeNodes([Mark()]) == [FreeZero()];
    assert [SlotZero()] + [FreeZero()] == [SlotZero(), FreeZero()];
  }

  lemma Statements(cfg: VM.Config)
    ensures VM.GenStatements([SlotZero(), FreeZero(), FreeZero()], cfg, VM.TopLevel) ==
            VM.Gen(SlotZero(), cfg, VM.TopLevel) + [Op(DELVAR), VM.VariableOperand("msg", Some(0)), Op(DELVAR), VM.VariableOperand("msg", Some(0))]
    ensures VM.GenStatements([SlotZero(), FreeZero()], cfg, VM.TopLevel) ==
            VM.Gen(SlotZero(), cfg, VM.TopLevel) + [Op(DELVAR), VM.VariableOperand("msg", Some(0))]
  {
    var del := VM.GenStatement(FreeZero(), cfg, VM.TopLevel);
    assert del == [Op(DELVAR), VM.VariableOperand("msg", Some(0))];
    assert VM.GenStatements([FreeZero()], cfg, VM.TopLevel) == del + VM.GenStatements([], cfg, VM.TopLevel);
    assert [FreeZero(), FreeZero()][1..] == [FreeZero()];
    assert [SlotZero(), FreeZero(), FreeZero()][1..] == [FreeZero(), FreeZero()];
    assert [SlotZero(), FreeZero()][1..] == [FreeZero()];
    assert [FreeZero()][1..] == [];
  }
}
