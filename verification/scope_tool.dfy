/**
 * `ScopeTool`: the tool that gives every local variable a numeric slot id.
 * Declarations take the least free id (or a fresh one from a counter), a
 * `Free` marker is appended to the enclosing `Blocks` for each of them,
 * function parameters are bound to -1, -2, ..., reads and assignments are
 * resolved through the scope maps, and leaving a scope returns its ids to
 * the free set. Nodes are named by their path from the root; the extra
 * data the tool writes (`id`, the appended `Free`s) is kept in the state.
 */
module ScopeTool {
  import opened Base
  import opened SyntaxTree
  import opened TreePaths
  import opened Errors

  /** A `Free(name)` block with its `id`, appended to a `Blocks` by a declaration. */
  datatype FreeMark = FreeMark(name: string, id: int)

  /**
   * The fields of a `ScopeTool` (`idCounter`, `ids`, `info` keyed by block
   * with `None` for Java's null key, `globals`) and the effects of its hooks:
   * `stamps` is the `id` extra data of each node, `frees` the `Free` blocks
   * appended to each `Blocks`, `errors` the global error flag. `declared`
   * records which ids a scope allocated itself; only the corrected
   * finalizer reads it.
   */
  datatype ScopeState = ScopeState(
    counter: int,
    freeIds: set<int>,
    info: map<Option<Path>, map<string, int>>,
    globals: set<string>,
    stamps: map<Path, int>,
    frees: map<Path, seq<FreeMark>>,
    declared: map<Option<Path>, set<int>>,
    errors: ErrorState)

  /** A fresh tool; the error flag is whatever it was. */
  function Fresh(e: ErrorState): (s: ScopeState)
    ensures s.counter == 0 && s.freeIds == {} && s.info == map[] && s.globals == {}
    ensures s.stamps == map[] && s.frees == map[] && s.declared == map[] && s.errors == e
  {
    ScopeState(0, {}, map[], {}, map[], map[], map[], e)
  }

  /**
   * What a hook did. `Failed` is the path that reports
   * `modifiedUndefinedVariable` and then dereferences a missing map entry:
   * the Java code throws there, so the walk stops.
   */
  datatype Outcome = Done(state: ScopeState) | Failed(state: ScopeState)

  // ---------------------------------------------------------------------
  // nextId
  // ---------------------------------------------------------------------

  /** A non-empty set has an element. */
  lemma Inhabited(s: set<int>)
    requires s != {}
    ensures exists y :: y in s
  {
    if forall y :: y !in s {
      assert false;
    }
  }

  lemma LeastExists(s: set<int>)
    requires s != {}
    ensures exists m :: m in s && forall x :: x in s ==> m <= x
    decreases |s|
  {
    Inhabited(s);
    var y :| y in s;
    if s != {y} {
      LeastExists(s - {y});
      var m :| m in s - {y} && forall x :: x in s - {y} ==> m <= x;
      var least := if y < m then y else m;
      forall x | x in s
        ensures least <= x
      {
        if x != y {
          assert x in s - {y};
        }
      }
    } else {
      assert forall x :: x in s ==> y <= x;
    }
  }

  /** The least element of a non-empty set of ids (`ids.stream().min(...)`). */
  function Least(s: set<int>): (m: int)
    requires s != {}
    ensures m in s && forall x :: x in s ==> m <= x
  {
    LeastExists(s);
    var m :| m in s && forall x :: x in s ==> m <= x;
    m
  }

  /** `nextId()`: the least free id, removed from the set; with none free, the counter, then incremented. */
  function NextId(s: ScopeState): (r: (int, ScopeState))
    ensures s.freeIds == {} ==> r.0 == s.counter && r.1 == s.(counter := s.counter + 1)
    ensures s.freeIds != {} ==> r.0 in s.freeIds && (forall x :: x in s.freeIds ==> r.0 <= x)
    ensures s.freeIds != {} ==> r.1 == s.(freeIds := s.freeIds - {r.0})
  {
    if s.freeIds == {} then (s.counter, s.(counter := s.counter + 1))
    else
      var id := Least(s.freeIds);
      (id, s.(freeIds := s.freeIds - {id}))
  }

  /** `nextId()` as the Java code computes it: scan the set for its minimum. */
  method NextIdScan(counter: int, ids: set<int>) returns (id: int, counter': int, ids': set<int>)
    ensures ids == {} ==> id == counter && counter' == counter + 1 && ids' == {}
    ensures ids != {} ==> id in ids && (forall x :: x in ids ==> id <= x)
    ensures ids != {} ==> ids' == ids - {id} && counter' == counter
  {
    if ids == {} {
      return counter, counter + 1, ids;
    }
    Inhabited(ids);
    id :| id in ids;
    var rest := ids - {id};
    while rest != {}
      invariant rest <= ids && id in ids
      invariant forall x :: x in ids && x !in rest ==> id <= x
      decreases |rest|
    {
      Inhabited(rest);
      var y :| y in rest;
      if y < id {
        id := y;
      }
      rest := rest - {y};
    }
    ids' := ids - {id};
    counter' := counter;
  }

  /** The scan and the functional `NextId` pick the same id. */
  lemma NextIdScanAgrees(s: ScopeState)
    requires s.freeIds != {}
    ensures forall id :: id in s.freeIds && (forall x :: x in s.freeIds ==> id <= x) ==> id == NextId(s).0
  {
  }

  // ---------------------------------------------------------------------
  // Climbing `parent` links
  // ---------------------------------------------------------------------

  /**
   * The first loop of both hooks: climb from `parent` until a node with
   * `locals` (or the top); `pParent` is the last node passed on the way.
   */
  function UpToLocals(root: Node, parent: Option<Path>, pParent: Option<Path>): (r: (Option<Path>, Option<Path>))
    ensures r.0.Some? ==> LocalsAt(root, r.0.value)
    ensures parent.None? ==> r == (parent, pParent)
    ensures parent.Some? && LocalsAt(root, parent.value) ==> r == (parent, pParent)
    decreases if parent.Some? then |parent.value| + 1 else 0
  {
    if parent.None? || LocalsAt(root, parent.value) then (parent, pParent)
    else UpToLocals(root, ParentOf(parent.value), parent)
  }

  /** The scope opener's parameter names (`args` extra data). */
  function ArgsAt(root: Node, p: Path): seq<string>
  {
    if At(root, p).Some? && At(root, p).value.Function? then At(root, p).value.params else []
  }

  predicate BlocksAt(root: Node, p: Path)
  {
    At(root, p).Some? && At(root, p).value.Blocks?
  }

  predicate ValueAt(root: Node, p: Path)
  {
    At(root, p).Some? && IsValue(At(root, p).value)
  }

  predicate ConditionAt(root: Node, p: Path)
  {
    At(root, p).Some? && HasCondition(At(root, p).value)
  }

  /** `info.get(scope).containsKey(name)`, false when the scope has no map. */
  predicate Knows(s: ScopeState, scope: Option<Path>, name: string)
  {
    scope in s.info && name in s.info[scope]
  }

  // ---------------------------------------------------------------------
  // Parameters
  // ---------------------------------------------------------------------

  /** The parameters put one after another as `arg -> --i`: the k-th gets -(k+1), a repeated name its last. */
  function ParamIds(ps: seq<string>): (m: map<string, int>)
    ensures m.Keys == set k | 0 <= k < |ps| :: ps[k]
    decreases |ps|
  {
    if ps == [] then map[]
    else ParamIds(ps[..|ps| - 1])[ps[|ps| - 1] := -|ps|]
  }

  /** With distinct names, parameter k is bound to -(k+1). */
  lemma {:induction false} ParamIdsOrdinal(ps: seq<string>, k: nat)
    requires k < |ps|
    requires forall i, j :: 0 <= i < j < |ps| ==> ps[i] != ps[j]
    ensures ps[k] in ParamIds(ps) && ParamIds(ps)[ps[k]] == -(k + 1)
    decreases |ps|
  {
    if k < |ps| - 1 {
      var init := ps[..|ps| - 1];
      assert init[k] == ps[k];
      ParamIdsOrdinal(init, k);
    }
  }

  /** Every parameter id is negative. */
  lemma {:induction false} ParamIdsNegative(ps: seq<string>)
    ensures forall x :: x in ParamIds(ps) ==> ParamIds(ps)[x] < 0
    decreases |ps|
  {
    if ps != [] {
      ParamIdsNegative(ps[..|ps| - 1]);
    }
  }

  // ---------------------------------------------------------------------
  // processBlock
  // ---------------------------------------------------------------------

  /**
   * The `while (parent != null)` loop of a `Blocks`: for every scope opener
   * on the way up, the map of the node below it is copied in, later (outer)
   * maps overwriting earlier ones.
   */
  function Inherit(root: Node, info: map<Option<Path>, map<string, int>>, parent: Option<Path>,
                   pParent: Option<Path>, acc: map<string, int>): (m: map<string, int>)
    ensures acc.Keys <= m.Keys
    decreases if parent.Some? then |parent.value| + 1 else 0
  {
    if parent.None? then acc
    else
      var acc' := if LocalsAt(root, parent.value) && pParent in info then acc + info[pParent] else acc;
      Inherit(root, info, ParentOf(parent.value), parent, acc')
  }

  /** `processBlock` on a `Blocks`: its scope map, holding the parameters and the enclosing scopes' names. */
  function OpenBlocks(root: Node, s: ScopeState, at: Path, scope: Option<Path>, pParent: Option<Path>): (s': ScopeState)
    ensures Some(at) in s'.info
    ensures s' == s.(info := s'.info)
    ensures forall k :: k != Some(at) ==> (k in s'.info <==> k in s.info)
    ensures forall k :: k != Some(at) && k in s.info ==> s'.info[k] == s.info[k]
  {
    var own := if Some(at) in s.info then s.info[Some(at)] else map[];
    var withArgs := if scope.Some? then own + ParamIds(ArgsAt(root, scope.value)) else own;
    s.(info := s.info[Some(at) := Inherit(root, s.info, scope, pParent, withArgs)])
  }

  /** `processBlock` on a `SetVariable` without a receiver. */
  function Assign(root: Node, s: ScopeState, at: Path, sv: Node, parent: Option<Path>,
                  scope: Option<Path>, pParent: Option<Path>): (r: Outcome)
    requires sv.SetVariable?
  {
    var name := sv.target;
    if scope.None? && sv.declaration then Done(s.(globals := s.globals + {name}))
    else if !sv.declaration && !Knows(s, pParent, name) then
      if name in s.globals then Done(s)
      else Failed(s.(errors := Raise(s.errors, ModifiedUndefinedVariable(name))))
    else if sv.declaration then
      var (id, s1) := NextId(s);
      var scopeMap := if pParent in s1.info then s1.info[pParent] else map[];
      var mine := if pParent in s1.declared then s1.declared[pParent] else {};
      var frees := if parent.Some? && BlocksAt(root, parent.value) then AddFree(s1.frees, parent.value, FreeMark(name, id)) else s1.frees;
      Done(s1.(info := s1.info[pParent := scopeMap[name := id]], stamps := s1.stamps[at := id],
               frees := frees, declared := s1.declared[pParent := mine + {id}]))
    else
      Done(s.(stamps := s.stamps[at := s.info[pParent][name]]))
  }

  function AddFree(frees: map<Path, seq<FreeMark>>, p: Path, f: FreeMark): (r: map<Path, seq<FreeMark>>)
    ensures p in r && r[p] == (if p in frees then frees[p] else []) + [f]
    ensures forall q :: q != p ==> (q in r <==> q in frees) && (q in frees ==> r[q] == frees[q])
  {
    frees[p := (if p in frees then frees[p] else []) + [f]]
  }

  /** `ScopeTool.processBlock(block, parent)` for the block at `at`. */
  function ProcessBlock(root: Node, s: ScopeState, at: Path, parent: Option<Path>): (r: Outcome)
    ensures At(root, at).Some? && At(root, at).value.SetVariable? && At(root, at).value.setInstance.Some? ==> r == Done(s)
    ensures At(root, at).None? || !(At(root, at).value.SetVariable? || At(root, at).value.Blocks?) ==> r == Done(s)
    ensures r.Failed? ==> r.state.errors.flag
  {
    match At(root, at)
    case None => Done(s)
    case Some(block) =>
      var (scope, pParent) := UpToLocals(root, parent, None);
      if block.SetVariable? then
        if block.setInstance.Some? then Done(s)
        else Assign(root, s, at, block, parent, scope, pParent)
      else if block.Blocks? then Done(OpenBlocks(root, s, at, scope, pParent))
      else Done(s)
  }

  // ---------------------------------------------------------------------
  // processValue
  // ---------------------------------------------------------------------

  /** The scope a variable read is looked up in: a condition's reads climb past its own `If`/`While`. */
  function ReadScope(root: Node, parent: Option<Path>): (r: Option<Path>)
  {
    var (scope, pParent) := UpToLocals(root, parent, None);
    if scope.Some? && ConditionAt(root, scope.value) && (pParent.None? || ValueAt(root, pParent.value)) then
      UpToLocals(root, ParentOf(scope.value), scope).1
    else pParent
  }

  /** `ScopeTool.processValue(value, parent)` for the value at `at`. */
  function ProcessValue(root: Node, s: ScopeState, at: Path, parent: Option<Path>): (s': ScopeState)
    ensures s'.counter == s.counter && s'.freeIds == s.freeIds && s'.info == s.info && s'.globals == s.globals
    ensures s'.frees == s.frees && s'.declared == s.declared
    ensures forall p :: p != at ==> (p in s'.stamps <==> p in s.stamps) && (p in s.stamps ==> s'.stamps[p] == s.stamps[p])
    ensures !s.errors.flag && s'.errors.flag ==>
              At(root, at).Some? && At(root, at).value.Variable? && At(root, at).value.name !in s.globals
  {
    match At(root, at)
    case None => s
    case Some(v) =>
      if !v.Variable? || v.instance.Some? then s
      else
        var scope := ReadScope(root, parent);
        if Knows(s, scope, v.name) then s.(stamps := s.stamps[at := s.info[scope][v.name]])
        else if v.name in s.globals then s
        else s.(errors := Raise(s.errors, AccessedUndefinedVariable(v.name)))
  }

  // ---------------------------------------------------------------------
  // finalizeBlock, as written and corrected
  // ---------------------------------------------------------------------

  /** `ScopeTool.finalizeBlock` as written: every id in the block's map, inherited or a parameter's, becomes free. */
  function FinalizeBlockAsWritten(s: ScopeState, at: Path): (s': ScopeState)
    ensures Some(at) !in s'.info
    ensures Some(at) in s.info ==> s'.freeIds == s.freeIds + s.info[Some(at)].Values
    ensures Some(at) !in s.info ==> s' == s
  {
    if Some(at) in s.info then
      s.(freeIds := s.freeIds + s.info[Some(at)].Values, info := s.info - {Some(at)})
    else s
  }

  /** `finalizeBlock` as intended: only the ids the block's own declarations took become free. */
  function FinalizeBlock(s: ScopeState, at: Path): (s': ScopeState)
    ensures Some(at) !in s'.info && Some(at) !in s'.declared
    ensures s'.freeIds == s.freeIds + (if Some(at) in s.declared then s.declared[Some(at)] else {})
    ensures s'.counter == s.counter && s'.stamps == s.stamps && s'.frees == s.frees && s'.globals == s.globals
  {
    var mine := if Some(at) in s.declared then s.declared[Some(at)] else {};
    s.(freeIds := s.freeIds + mine, info := s.info - {Some(at)}, declared := s.declared - {Some(at)})
  }

  // ---------------------------------------------------------------------
  // Properties
  // ---------------------------------------------------------------------

  /** A declaration with no scope opener above it makes a global: no id, no `Free`. */
  lemma GlobalDeclaration(root: Node, s: ScopeState, at: Path, parent: Option<Path>)
    requires At(root, at).Some? && At(root, at).value.SetVariable?
    requires At(root, at).value.declaration && At(root, at).value.setInstance.None?
    requires UpToLocals(root, parent, None).0.None?
    ensures ProcessBlock(root, s, at, parent) == Done(s.(globals := s.globals + {At(root, at).value.target}))
  {
  }

  /**
   * A local declaration takes `nextId()`, stamps it on the node, records it
   * in the scope map, and appends a `Free` with the same id to its `Blocks`.
   */
  lemma LocalDeclaration(root: Node, s: ScopeState, at: Path, parent: Path)
    requires At(root, at).Some? && At(root, at).value.SetVariable?
    requires At(root, at).value.declaration && At(root, at).value.setInstance.None?
    requires UpToLocals(root, Some(parent), None).0.Some?
    requires BlocksAt(root, parent)
    ensures var r := ProcessBlock(root, s, at, Some(parent));
            var id := NextId(s).0;
            var pParent := UpToLocals(root, Some(parent), None).1;
            var x := At(root, at).value.target;
            r.Done? && r.state.stamps == s.stamps[at := id] &&
            pParent in r.state.info && r.state.info[pParent][x] == id &&
            r.state.frees[parent] == (if parent in s.frees then s.frees[parent] else []) + [FreeMark(x, id)] &&
            r.state.globals == s.globals
  {
  }

  /** A declaration followed by a read in the same scope: the read gets the declaration's id. */
  lemma DeclareThenRead(root: Node, s: ScopeState, decl: Path, read: Path, parent: Path, readParent: Option<Path>)
    requires At(root, decl).Some? && At(root, decl).value.SetVariable?
    requires At(root, decl).value.declaration && At(root, decl).value.setInstance.None?
    requires At(root, read).Some? && At(root, read).value.Variable? && At(root, read).value.instance.None?
    requires At(root, read).value.name == At(root, decl).value.target
    requires UpToLocals(root, Some(parent), None).0.Some?
    requires ReadScope(root, readParent) == UpToLocals(root, Some(parent), None).1
    ensures var r := ProcessBlock(root, s, decl, Some(parent));
            r.Done? && ProcessValue(root, r.state, read, readParent).stamps[read] == r.state.stamps[decl]
  {
  }

  /** An assignment to a name neither in scope nor global reports the error and stops the walk. */
  lemma UndefinedAssignmentFails(root: Node, s: ScopeState, at: Path, parent: Option<Path>)
    requires At(root, at).Some? && At(root, at).value.SetVariable?
    requires !At(root, at).value.declaration && At(root, at).value.setInstance.None?
    requires !Knows(s, UpToLocals(root, parent, None).1, At(root, at).value.target)
    ensures var r := ProcessBlock(root, s, at, parent);
            (At(root, at).value.target in s.globals ==> r == Done(s)) &&
            (At(root, at).value.target !in s.globals ==>
               r.Failed? && r.state.errors.reports == s.errors.reports + [ModifiedUndefinedVariable(At(root, at).value.target)])
  {
  }

  /** A read resolves to its scope's id, is left alone when global, and is reported otherwise. */
  lemma ReadResolution(root: Node, s: ScopeState, at: Path, parent: Option<Path>)
    requires At(root, at).Some? && At(root, at).value.Variable? && At(root, at).value.instance.None?
    ensures var x := At(root, at).value.name;
            var scope := ReadScope(root, parent);
            var s' := ProcessValue(root, s, at, parent);
            (Knows(s, scope, x) ==> s'.stamps[at] == s.info[scope][x] && s'.errors == s.errors) &&
            (!Knows(s, scope, x) && x in s.globals ==> s' == s) &&
            (!Knows(s, scope, x) && x !in s.globals ==>
               s'.errors.reports == s.errors.reports + [AccessedUndefinedVariable(x)] && s'.errors.flag && s'.stamps == s.stamps)
  {
  }

  /** Receiver-qualified reads and assignments are never resolved. */
  lemma QualifiedNamesUntouched(root: Node, s: ScopeState, at: Path, parent: Option<Path>)
    requires At(root, at).Some?
    requires (At(root, at).value.Variable? && At(root, at).value.instance.Some?) ||
             (At(root, at).value.SetVariable? && At(root, at).value.setInstance.Some?)
    ensures ProcessBlock(root, s, at, parent) == Done(s)
    ensures ProcessValue(root, s, at, parent) == s
  {
  }

  /** A function body's map binds the k-th parameter to -(k+1) when no enclosing scope rebinds it. */
  lemma FunctionBodyBindsParameters(root: Node, s: ScopeState, fn: Path, k: nat)
    requires At(root, fn).Some? && At(root, fn).value.Function?
    requires var ps := At(root, fn).value.params;
             k < |ps| && forall i, j :: 0 <= i < j < |ps| ==> ps[i] != ps[j]
    requires At(root, fn + [0]).Some? && At(root, fn + [0]).value.Blocks?
    requires ParentOf(fn).Some? ==> NoScopeAbove(root, ParentOf(fn).value)
    requires None !in s.info
    ensures var r := ProcessBlock(root, s, fn + [0], Some(fn));
            var body := Some(fn + [0]);
            r.Done? && body in r.state.info &&
            At(root, fn).value.params[k] in r.state.info[body] &&
            r.state.info[body][At(root, fn).value.params[k]] == -(k + 1)
  {
    var ps := At(root, fn).value.params;
    var own := if Some(fn + [0]) in s.info then s.info[Some(fn + [0])] else map[];
    FunctionBodyOpens(root, s, fn);
    FunctionBodyScope(root, s, fn);
    ParamIdsOrdinal(ps, k);
    assert (own + ParamIds(ps))[ps[k]] == -(k + 1);
  }

  /** A function's body is a `Blocks` whose scope is the function itself. */
  lemma FunctionBodyOpens(root: Node, s: ScopeState, fn: Path)
    requires At(root, fn).Some? && At(root, fn).value.Function?
    requires At(root, fn + [0]).Some? && At(root, fn + [0]).value.Blocks?
    ensures ProcessBlock(root, s, fn + [0], Some(fn)) == Done(OpenBlocks(root, s, fn + [0], Some(fn), None))
  {
    assert UpToLocals(root, Some(fn), None) == (Some(fn), None);
  }

  /** The scope map a function body opens with: what the body already had, with the parameters' ids on top. */
  lemma FunctionBodyScope(root: Node, s: ScopeState, fn: Path)
    requires At(root, fn).Some? && At(root, fn).value.Function?
    requires ParentOf(fn).Some? ==> NoScopeAbove(root, ParentOf(fn).value)
    requires None !in s.info
    ensures var own := if Some(fn + [0]) in s.info then s.info[Some(fn + [0])] else map[];
            OpenBlocks(root, s, fn + [0], Some(fn), None).info[Some(fn + [0])] == own + ParamIds(At(root, fn).value.params)
  {
    var own := if Some(fn + [0]) in s.info then s.info[Some(fn + [0])] else map[];
    InheritFromFunction(root, s.info, fn, own + ParamIds(At(root, fn).value.params));
  }

  /** Climbing from a function with no scope above it, and no global scope map, copies nothing in. */
  lemma InheritFromFunction(root: Node, info: map<Option<Path>, map<string, int>>, fn: Path, acc: map<string, int>)
    requires At(root, fn).Some? && At(root, fn).value.Function?
    requires ParentOf(fn).Some? ==> NoScopeAbove(root, ParentOf(fn).value)
    requires None !in info
    ensures Inherit(root, info, Some(fn), None, acc) == acc
  {
    InheritWithoutScopes(root, info, ParentOf(fn), Some(fn), acc);
  }

  /** Neither the node at `p` nor any node above it opens a scope. */
  predicate NoScopeAbove(root: Node, p: Path)
    decreases |p|
  {
    !LocalsAt(root, p) && (p != [] ==> NoScopeAbove(root, p[..|p| - 1]))
  }

  /** Climbing through nodes none of which opens a scope copies nothing in. */
  lemma {:induction false} InheritWithoutScopes(root: Node, info: map<Option<Path>, map<string, int>>,
                                               parent: Option<Path>, pParent: Option<Path>, acc: map<string, int>)
    requires parent.Some? ==> NoScopeAbove(root, parent.value)
    ensures Inherit(root, info, parent, pParent, acc) == acc
    decreases if parent.Some? then |parent.value| + 1 else 0
  {
    if parent.Some? {
      InheritWithoutScopes(root, info, ParentOf(parent.value), parent, acc);
    }
  }

  /** Leaving a scope hands its own ids back, so the next declaration reuses the least of them. */
  lemma LeavingScopeRecyclesIds(s: ScopeState, at: Path)
    requires s.freeIds == {}
    requires Some(at) in s.declared && s.declared[Some(at)] != {}
    ensures var s' := FinalizeBlock(s, at);
            NextId(s').0 == Least(s.declared[Some(at)]) && NextId(s').1.counter == s.counter
  {
  }

  // ---------------------------------------------------------------------
  // Ids stay non-negative under the corrected finalizer
  // ---------------------------------------------------------------------

  /** No free id and no id a scope allocated is negative, and the counter is not either. */
  predicate IdsNonNegative(s: ScopeState)
  {
    s.counter >= 0 &&
    (forall x :: x in s.freeIds ==> x >= 0) &&
    (forall k, x :: k in s.declared && x in s.declared[k] ==> x >= 0)
  }

  /** `nextId()` never hands out a negative id while the invariant holds. */
  lemma NextIdNonNegative(s: ScopeState)
    requires IdsNonNegative(s)
    ensures NextId(s).0 >= 0 && IdsNonNegative(NextId(s).1)
  {
  }

  lemma AssignKeepsIds(root: Node, s: ScopeState, at: Path, sv: Node, parent: Option<Path>,
                       scope: Option<Path>, pParent: Option<Path>)
    requires sv.SetVariable?
    requires IdsNonNegative(s)
    ensures IdsNonNegative(Assign(root, s, at, sv, parent, scope, pParent).state)
  {
    NextIdNonNegative(s);
    var r := Assign(root, s, at, sv, parent, scope, pParent);
    if sv.declaration && !(scope.None? && sv.declaration) {
      var (id, s1) := NextId(s);
      assert r.state.declared.Keys == s1.declared.Keys + {pParent};
      forall k, x | k in r.state.declared && x in r.state.declared[k]
        ensures x >= 0
      {
        if k != pParent {
          assert r.state.declared[k] == s1.declared[k];
        }
      }
    }
  }

  lemma ProcessBlockKeepsIds(root: Node, s: ScopeState, at: Path, parent: Option<Path>)
    requires IdsNonNegative(s)
    ensures IdsNonNegative(ProcessBlock(root, s, at, parent).state)
  {
    var r := ProcessBlock(root, s, at, parent);
    match At(root, at)
    case None =>
    case Some(block) =>
      var (scope, pParent) := UpToLocals(root, parent, None);
      if block.SetVariable? {
        if block.setInstance.None? {
          assert r == Assign(root, s, at, block, parent, scope, pParent);
          AssignKeepsIds(root, s, at, block, parent, scope, pParent);
        }
      } else if block.Blocks? {
        var s' := OpenBlocks(root, s, at, scope, pParent);
        assert r.state == s';
        assert s'.counter == s.counter && s'.freeIds == s.freeIds && s'.declared == s.declared;
      }
  }

  lemma FinalizeBlockKeepsIds(s: ScopeState, at: Path)
    requires IdsNonNegative(s)
    ensures IdsNonNegative(FinalizeBlock(s, at))
  {
  }

  // ---------------------------------------------------------------------
  // The as-written finalizer frees a parameter's slot
  // ---------------------------------------------------------------------

  /** `func f(a) { var x = 0 }` followed by `func g() { var y = 0 }`. */
  function TwoFunctions(): Node
  {
    Blocks([
      Function("f", ["a"], Blocks([SetVariable("x", Null, true, None, None)])),
      Function("g", [], Blocks([SetVariable("y", Null, true, None, None)]))])
  }

  /** Where the two function bodies and their declarations sit, and the scopes their hooks climb to. */
  lemma TwoFunctionsShape(k: nat)
    requires k < 2
    ensures var root := TwoFunctions();
            var fn := root.blocks[k];
            At(root, [k]) == Some(fn) && At(root, [k, 0]) == Some(fn.functionCode) &&
            At(root, [k, 0, 0]) == Some(fn.functionCode.blocks[0]) &&
            UpToLocals(root, Some([k]), None) == (Some([k]), None) &&
            UpToLocals(root, Some([k, 0]), None) == (Some([k]), Some([k, 0])) &&
            ArgsAt(root, [k]) == fn.params && BlocksAt(root, [k, 0])
  {
    var root := TwoFunctions();
    var fn := root.blocks[k];
    assert Children(root) == root.blocks;
    assert Children(fn) == [fn.functionCode];
    assert Children(fn.functionCode) == fn.functionCode.blocks;
    assert [k, 0][1..] == [0];
    assert [k, 0, 0][1..] == [0, 0];
    assert [0, 0][1..] == [0];
    assert At(root, [k]) == At(fn, []);
    assert At(root, [k, 0]) == At(fn, [0]) == At(fn.functionCode, []);
    assert At(root, [k, 0, 0]) == At(fn, [0, 0]) == At(fn.functionCode, [0]) == At(fn.functionCode.blocks[0], []);
    assert [k, 0][..1] == [k];
    assert ParentOf([k, 0]) == Some([k]);
    assert !LocalsAt(root, [k, 0]) && LocalsAt(root, [k]);
  }

  /** Opening a body in a state without a null-keyed map: its map is exactly the parameters. */
  lemma OpenBody(s: ScopeState, k: nat)
    requires k < 2 && None !in s.info && Some([k, 0]) !in s.info
    ensures var root := TwoFunctions();
            ProcessBlock(root, s, [k, 0], Some([k])) ==
              Done(s.(info := s.info[Some([k, 0]) := ParamIds(root.blocks[k].params)]))
  {
    var root := TwoFunctions();
    TwoFunctionsShape(k);
    var withArgs := map[] + ParamIds(root.blocks[k].params);
    assert withArgs == ParamIds(root.blocks[k].params);
    assert ParentOf([k]) == Some([]);
    assert !LocalsAt(root, []);
    assert Inherit(root, s.info, Some([]), Some([k]), withArgs) == withArgs;
    assert Inherit(root, s.info, Some([k]), None, withArgs) == withArgs;
  }

  /** Declaring the body's variable records `nextId()` in the body's map, on the node and as the body's own id. */
  lemma DeclareInBody(s: ScopeState, k: nat)
    requires k < 2 && Some([k, 0]) in s.info
    ensures var root := TwoFunctions();
            var name := root.blocks[k].functionCode.blocks[0].target;
            var (id, s1) := NextId(s);
            var r := ProcessBlock(root, s, [k, 0, 0], Some([k, 0]));
            r.Done? && r.state.stamps == s.stamps[[k, 0, 0] := id] &&
            r.state.info == s.info[Some([k, 0]) := s.info[Some([k, 0])][name := id]] &&
            r.state.freeIds == s1.freeIds && r.state.counter == s1.counter &&
            r.state.declared == s.declared[Some([k, 0]) := (if Some([k, 0]) in s.declared then s.declared[Some([k, 0])] else {}) + {id}]
  {
    var root := TwoFunctions();
    TwoFunctionsShape(k);
    var sv := root.blocks[k].functionCode.blocks[0];
    assert sv.SetVariable? && sv.declaration && sv.setInstance.None?;
    assert ProcessBlock(root, s, [k, 0, 0], Some([k, 0])) == Assign(root, s, [k, 0, 0], sv, Some([k, 0]), Some([k]), Some([k, 0]));
  }

  lemma TwoEntryValues(a: string, b: string, va: int, vb: int)
    requires a != b
    ensures map[a := va, b := vb].Values == {va, vb}
  {
    var m := map[a := va, b := vb];
    assert m[a] == va && m[b] == vb;
    forall v | v in m.Values
      ensures v in {va, vb}
    {
      var key :| key in m && m[key] == v;
    }
  }

  /** Opening `f`'s body binds the parameter `a` to -1. */
  lemma OpenF() returns (s1: ScopeState)
    ensures ProcessBlock(TwoFunctions(), Fresh(Cleared()), [0, 0], Some([0])) == Done(s1)
    ensures s1 == Fresh(Cleared()).(info := map[Some([0, 0]) := map["a" := -1]])
  {
    OpenBody(Fresh(Cleared()), 0);
    assert ParamIds(["a"]) == map["a" := -1];
    s1 := Fresh(Cleared()).(info := map[Some([0, 0]) := map["a" := -1]]);
  }

  /** Declaring `x` in `f`'s body gives it slot 0, next to `a`'s -1. */
  lemma DeclareX(s1: ScopeState) returns (s2: ScopeState)
    requires s1 == Fresh(Cleared()).(info := map[Some([0, 0]) := map["a" := -1]])
    ensures ProcessBlock(TwoFunctions(), s1, [0, 0, 0], Some([0, 0])) == Done(s2)
    ensures s2.info == map[Some([0, 0]) := map["a" := -1, "x" := 0]]
    ensures s2.freeIds == {} && s2.counter == 1 && s2.declared == map[Some([0, 0]) := {0}]
  {
    DeclareInBody(s1, 0);
    assert NextId(s1) == (0, s1.(counter := 1));
    s2 := ProcessBlock(TwoFunctions(), s1, [0, 0, 0], Some([0, 0])).state;
    assert s2.info == s1.info[Some([0, 0]) := s1.info[Some([0, 0])]["x" := 0]];
    assert s2.freeIds == {};
    assert s2.counter == 1;
    assert s2.declared == map[Some([0, 0]) := {} + {0}];
    assert {} + {0} == {0};
  }

  /** Opening `g`'s body and declaring `y` takes the least free id. */
  lemma GDeclares(s3: ScopeState) returns (s4: ScopeState, s5: ScopeState)
    requires s3.freeIds != {} && s3.info == map[]
    ensures ProcessBlock(TwoFunctions(), s3, [1, 0], Some([1])) == Done(s4)
    ensures ProcessBlock(TwoFunctions(), s4, [1, 0, 0], Some([1, 0])) == Done(s5)
    ensures [1, 0, 0] in s5.stamps && s5.stamps[[1, 0, 0]] == Least(s3.freeIds)
  {
    OpenBody(s3, 1);
    s4 := s3.(info := s3.info[Some([1, 0]) := ParamIds(TwoFunctions().blocks[1].params)]);
    assert Some([1, 0]) in s4.info && s4.freeIds == s3.freeIds;
    DeclareInBody(s4, 1);
    s5 := ProcessBlock(TwoFunctions(), s4, [1, 0, 0], Some([1, 0])).state;
    assert NextId(s4).0 == Least(s3.freeIds);
  }

  /** Running `f`'s body: `a` is bound to -1 and `x` takes slot 0. */
  lemma RunF() returns (s1: ScopeState, s2: ScopeState)
    ensures ProcessBlock(TwoFunctions(), Fresh(Cleared()), [0, 0], Some([0])) == Done(s1)
    ensures ProcessBlock(TwoFunctions(), s1, [0, 0, 0], Some([0, 0])) == Done(s2)
    ensures s2.info == map[Some([0, 0]) := map["a" := -1, "x" := 0]] && s2.freeIds == {}
    ensures s2.declared == map[Some([0, 0]) := {0}]
  {
    s1 := OpenF();
    s2 := DeclareX(s1);
  }

  /** Leaving `f`'s body as written frees -1 and 0, and `y` in `g` then takes -1. */
  lemma AsWrittenRunG(s2: ScopeState) returns (s4: ScopeState, s5: ScopeState)
    requires s2.info == map[Some([0, 0]) := map["a" := -1, "x" := 0]] && s2.freeIds == {}
    ensures ProcessBlock(TwoFunctions(), FinalizeBlockAsWritten(s2, [0, 0]), [1, 0], Some([1])) == Done(s4)
    ensures ProcessBlock(TwoFunctions(), s4, [1, 0, 0], Some([1, 0])) == Done(s5)
    ensures FinalizeBlockAsWritten(s2, [0, 0]).freeIds == {-1, 0}
    ensures [1, 0, 0] in s5.stamps && s5.stamps[[1, 0, 0]] == -1
  {
    var s3 := FinalizeBlockAsWritten(s2, [0, 0]);
    TwoEntryValues("a", "x", -1, 0);
    assert s3.freeIds == {-1, 0};
    assert s3.info == map[];
    s4, s5 := GDeclares(s3);
    assert Least(s3.freeIds) == -1;
  }

  /** Leaving `f`'s body with the corrected finalizer frees only 0, which `y` then takes. */
  lemma RunG(s2: ScopeState) returns (s4: ScopeState, s5: ScopeState)
    requires s2.info == map[Some([0, 0]) := map["a" := -1, "x" := 0]] && s2.freeIds == {}
    requires s2.declared == map[Some([0, 0]) := {0}]
    ensures ProcessBlock(TwoFunctions(), FinalizeBlock(s2, [0, 0]), [1, 0], Some([1])) == Done(s4)
    ensures ProcessBlock(TwoFunctions(), s4, [1, 0, 0], Some([1, 0])) == Done(s5)
    ensures FinalizeBlock(s2, [0, 0]).freeIds == {0}
    ensures [1, 0, 0] in s5.stamps && s5.stamps[[1, 0, 0]] == 0
  {
    var s3 := FinalizeBlock(s2, [0, 0]);
    assert s2.declared[Some([0, 0])] == {0};
    assert s3.freeIds == {} + {0} == {0};
    assert s3.info == s2.info - {Some([0, 0])};
    assert s3.info == map[];
    s4, s5 := GDeclares(s3);
    assert Least(s3.freeIds) == 0;
  }

  /**
   * `func f(a) { var x = 0 }` then `func g() { var y = 0 }` with the
   * finalizer as written: leaving `f`'s body frees the parameter's id -1
   * along with `x`'s 0, so `y` is given -1, a parameter ordinal, which the
   * generator reads back with `GETPARAM 1`.
   */
  lemma AsWrittenFinalizeGivesLocalParameterSlot() returns (s1: ScopeState, s2: ScopeState, s4: ScopeState, s5: ScopeState)
    ensures ProcessBlock(TwoFunctions(), Fresh(Cleared()), [0, 0], Some([0])) == Done(s1)
    ensures ProcessBlock(TwoFunctions(), s1, [0, 0, 0], Some([0, 0])) == Done(s2)
    ensures ProcessBlock(TwoFunctions(), FinalizeBlockAsWritten(s2, [0, 0]), [1, 0], Some([1])) == Done(s4)
    ensures ProcessBlock(TwoFunctions(), s4, [1, 0, 0], Some([1, 0])) == Done(s5)
    ensures FinalizeBlockAsWritten(s2, [0, 0]).freeIds == {-1, 0}
    ensures [1, 0, 0] in s5.stamps && s5.stamps[[1, 0, 0]] == -1
  {
    s1, s2 := RunF();
    s4, s5 := AsWrittenRunG(s2);
  }

  /** The same program with the corrected finalizer: `y` is given slot 0. */
  lemma FinalizeGivesLocalFreshSlot() returns (s1: ScopeState, s2: ScopeState, s4: ScopeState, s5: ScopeState)
    ensures ProcessBlock(TwoFunctions(), Fresh(Cleared()), [0, 0], Some([0])) == Done(s1)
    ensures ProcessBlock(TwoFunctions(), s1, [0, 0, 0], Some([0, 0])) == Done(s2)
    ensures ProcessBlock(TwoFunctions(), FinalizeBlock(s2, [0, 0]), [1, 0], Some([1])) == Done(s4)
    ensures ProcessBlock(TwoFunctions(), s4, [1, 0, 0], Some([1, 0])) == Done(s5)
    ensures FinalizeBlock(s2, [0, 0]).freeIds == {0}
    ensures [1, 0, 0] in s5.stamps && s5.stamps[[1, 0, 0]] == 0
  {
    s1, s2 := RunF();
    s4, s5 := RunG(s2);
  }
}
