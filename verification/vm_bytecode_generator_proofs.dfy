/**
 * What the byte-code back end guarantees about the code it lays out:
 * every operand is present and every recorded loop jump is followed by the
 * slot back-patching fills in; the back-patching of a nested loop lands
 * every `continue` on the condition and every `break` past the loop; an
 * `if` jumps over exactly the branch it guards; operators and assignments
 * walk to the instructions the virtual machine expects.
 */
module VMByteCodeGeneratorProofs {
  import opened Base
  import opened SyntaxTree
  import opened VMWrapper
  import opened VMByteCodeGenerator
  import Scope = ScopeTool

  // ---------------------------------------------------------------------
  // Well-formed code
  // ---------------------------------------------------------------------

  /** A `continue` or `break` opcode, before back-patching. */
  predicate IsJump(s: Slot)
  {
    s == Op(CONTINUE) || s == Op(BREAK)
  }

  /** Every loop jump is followed by the null slot back-patching overwrites. */
  predicate JumpsPlaceheld(s: seq<Slot>)
  {
    forall i :: 0 <= i < |s| && IsJump(s[i]) ==> i + 1 < |s| && s[i + 1] == NullArg
  }

  /** Code the walk splits cleanly; recorded code also keeps a placeholder after each jump. */
  predicate WellFormed(s: seq<Slot>, mode: Mode)
  {
    OperandsPresent(s) && (mode == Recording ==> JumpsPlaceheld(s))
  }

  lemma WellFormedConcat(a: seq<Slot>, b: seq<Slot>, mode: Mode)
    requires WellFormed(a, mode) && WellFormed(b, mode)
    ensures WellFormed(a + b, mode)
  {
    OperandsPresentConcat(a, b);
    if mode == Recording {
      var s := a + b;
      forall i | 0 <= i < |s| && IsJump(s[i])
        ensures i + 1 < |s| && s[i + 1] == NullArg
      {
        if i < |a| {
          assert s[i] == a[i];
          assert s[i + 1] == a[i + 1];
        } else {
          assert s[i] == b[i - |a|];
        }
      }
    }
  }

  lemma WellFormedConcat3(a: seq<Slot>, b: seq<Slot>, c: seq<Slot>, mode: Mode)
    requires WellFormed(a, mode) && WellFormed(b, mode) && WellFormed(c, mode)
    ensures WellFormed(a + b + c, mode)
  {
    WellFormedConcat(a, b, mode);
    WellFormedConcat(a + b, c, mode);
  }

  /** An opcode with its operand. */
  lemma WellFormedPair(op: Byte, arg: Slot, mode: Mode)
    requires !arg.Op? && !IsJump(Op(op))
    ensures WellFormed([Op(op), arg], mode)
  {
    var s := [Op(op), arg];
    assert forall i :: 0 <= i < |s| && s[i].Op? ==> i == 0;
  }

  /** A parameterless opcode. */
  lemma WellFormedSingle(op: Byte, mode: Mode)
    requires !NeedsParameter(op as int) && !IsJump(Op(op))
    ensures WellFormed([Op(op)], mode)
  {
  }

  /** The code of every node is well formed in the mode it is generated in, provided the pop sequence is. */
  lemma {:induction false} GenWellFormed(n: Node, cfg: Config, mode: Mode)
    requires WellFormed(cfg.pop, Recording)
    ensures WellFormed(Gen(n, cfg, mode), mode)
    decreases n, 1
  {
    if n.If? {
      IfWellFormed(n, cfg, mode);
    } else if n.While? {
      WhileWellFormed(n, cfg, mode);
    } else if n.Class? {
      ClassWellFormed(n, cfg, mode);
    } else if n.Function? {
      GenFunctionWellFormed(n.functionName, n.params, n.functionCode, cfg, mode);
    } else if n.Blocks? {
      GenStatementsWellFormed(n.blocks, cfg, mode);
    } else if n.SetVariable? {
      SetVariableWellFormed(n, cfg, mode);
    } else if n.List? || n.Map? {
      CollectionWellFormed(n, cfg, mode);
    } else if n.Operator? {
      OperatorWellFormed(n, cfg, mode);
    } else if n.CallFunction? || n.New? {
      CallWellFormed(n, cfg, mode);
    } else if n.Variable? {
      VariableWellFormed(n, cfg, mode);
    } else if n.Print? || n.Return? {
      WrappedWellFormed(n, cfg, mode);
    } else if n.Number? || n.Text? || n.Boolean? || n.Null? {
      LiteralWellFormed(n, cfg, mode);
    } else {
      LeafWellFormed(n, cfg, mode);
    }
  }

  /** Literals: `PUT` with the value. */
  lemma LiteralWellFormed(n: Node, cfg: Config, mode: Mode)
    requires n.Number? || n.Text? || n.Boolean? || n.Null?
    ensures WellFormed(Gen(n, cfg, mode), mode)
  {
    var arg := match n
      case Number(p) => if p.DoubleNum? then DoubleArg(p.d) else DecimalArg(p.dec)
      case Text(s) => StrArg(s)
      case Boolean(b) => BoolArg(b)
      case Null => NullArg;
    assert Gen(n, cfg, mode) == [Op(PUT), arg];
    WellFormedPair(PUT, arg, mode);
  }

  /** Other nodes without children. */
  lemma LeafWellFormed(n: Node, cfg: Config, mode: Mode)
    requires n.This? || n.Super? || n.Continue? || n.Break? || n.Free?
    ensures WellFormed(Gen(n, cfg, mode), mode)
  {
    if n.This? || n.Super? {
      SelfWellFormed(n, cfg, mode);
    } else if n.Free? {
      assert Gen(n, cfg, mode) == [Op(DELVAR), VariableOperand(n.freeName, n.freeId)];
      WellFormedPair(DELVAR, VariableOperand(n.freeName, n.freeId), mode);
    } else {
      JumpWellFormed(n, cfg, mode);
    }
  }

  lemma SelfWellFormed(n: Node, cfg: Config, mode: Mode)
    requires n.This? || n.Super?
    ensures WellFormed(Gen(n, cfg, mode), mode)
  {
    var s := if n.This? then [Op(THIS)] else [Op(THIS), Op(PUT), BoolArg(true), Op(GET)];
    assert Gen(n, cfg, mode) == s;
    assert forall i :: 0 <= i < |s| && s[i].Op? && NeedsParameter(s[i].code as int) ==> i == 1;
  }

  /** `continue` and `break` carry a placeholder when recorded. */
  lemma JumpWellFormed(n: Node, cfg: Config, mode: Mode)
    requires n.Continue? || n.Break?
    ensures WellFormed(Gen(n, cfg, mode), mode)
  {
    var op := if n.Continue? then CONTINUE else BREAK;
    var s := if mode == Recording then [Op(op), NullArg] else [Op(op)];
    assert Gen(n, cfg, mode) == s;
    assert forall i :: 0 <= i < |s| && s[i].Op? ==> i == 0;
  }

  /** Variable reads: through the instance, as a parameter, or by scope id or name. */
  lemma {:induction false} VariableWellFormed(n: Node, cfg: Config, mode: Mode)
    requires n.Variable? && WellFormed(cfg.pop, Recording)
    ensures WellFormed(Gen(n, cfg, mode), mode)
    decreases n, 0
  {
    var name, inst, id := n.name, n.instance, n.id;
    if inst.Some? {
      var i := inst.value;
      GenWellFormed(i, cfg, mode);
      WellFormedPair(PUT, StrArg(name), mode);
      WellFormedSingle(GET, mode);
      WellFormedConcat3(Gen(i, cfg, mode), [Op(PUT), StrArg(name)], [Op(GET)], mode);
      assert Gen(n, cfg, mode) == Gen(i, cfg, mode) + [Op(PUT), StrArg(name)] + [Op(GET)];
    } else if id.Some? && id.value < 0 {
      assert Gen(n, cfg, mode) == [Op(GETPARAM), IntArg(-id.value)];
      WellFormedPair(GETPARAM, IntArg(-id.value), mode);
    } else {
      assert Gen(n, cfg, mode) == [Op(GETVAR), VariableOperand(name, id)];
      WellFormedPair(GETVAR, VariableOperand(name, id), mode);
    }
  }

  /** `print` and `return`: the child followed by one opcode. */
  lemma {:induction false} WrappedWellFormed(n: Node, cfg: Config, mode: Mode)
    requires n.Print? || n.Return?
    requires WellFormed(cfg.pop, Recording)
    ensures WellFormed(Gen(n, cfg, mode), mode)
    decreases n, 0
  {
    match n
    case Print(m) =>
      GenWellFormed(m, cfg, mode);
      WellFormedPair(CALLFUNC, NullArg, mode);
      assert Gen(n, cfg, mode) == Gen(m, cfg, mode) + [Op(CALLFUNC), NullArg];
      WellFormedConcat(Gen(m, cfg, mode), [Op(CALLFUNC), NullArg], mode);
    case Return(v) =>
      GenWellFormed(v, cfg, mode);
      WellFormedSingle(RETURN, mode);
      assert Gen(n, cfg, mode) == Gen(v, cfg, mode) + [Op(RETURN)];
      WellFormedConcat(Gen(v, cfg, mode), [Op(RETURN)], mode);
  }

  /** Lists and maps: the elements, then the opcode that collects them. */
  lemma {:induction false} CollectionWellFormed(n: Node, cfg: Config, mode: Mode)
    requires n.List? || n.Map?
    requires WellFormed(cfg.pop, Recording)
    ensures WellFormed(Gen(n, cfg, mode), mode)
    decreases n, 0
  {
    match n
    case List(items) =>
      GenReversedWellFormed(items, cfg, mode);
      WellFormedPair(CREATE_ARR, IntArg(|items|), mode);
      assert Gen(n, cfg, mode) == GenReversed(items, cfg, mode) + [Op(CREATE_ARR), IntArg(|items|)];
      WellFormedConcat(GenReversed(items, cfg, mode), [Op(CREATE_ARR), IntArg(|items|)], mode);
    case Map(entries) =>
      GenEntriesWellFormed(entries, cfg, mode);
      WellFormedPair(CREATE_MAP, IntArg(|entries|), mode);
      assert Gen(n, cfg, mode) == GenEntries(entries, cfg, mode) + [Op(CREATE_MAP), IntArg(|entries|)];
      WellFormedConcat(GenEntries(entries, cfg, mode), [Op(CREATE_MAP), IntArg(|entries|)], mode);
  }

  lemma {:induction false} OperatorWellFormed(n: Node, cfg: Config, mode: Mode)
    requires n.Operator? && WellFormed(cfg.pop, Recording)
    ensures WellFormed(Gen(n, cfg, mode), mode)
    decreases n, 0
  {
    var k, v1, v2, tag := n.kind, n.value1, n.value2, n.inplace;
    GenWellFormed(v2, cfg, mode);
    if InplaceOpcode(k).Some? && tag.Some? {
      var tail := [Op(InplaceOpcode(k).value), StrArg(tag.value)];
      assert Gen(n, cfg, mode) == Gen(v2, cfg, mode) + tail;
      WellFormedPair(InplaceOpcode(k).value, StrArg(tag.value), mode);
      WellFormedConcat(Gen(v2, cfg, mode), tail, mode);
    } else {
      GenWellFormed(v1, cfg, mode);
      assert Gen(n, cfg, mode) == Gen(v1, cfg, mode) + Gen(v2, cfg, mode) + [Op(OpcodeOf(k))];
      WellFormedSingle(OpcodeOf(k), mode);
      WellFormedConcat3(Gen(v1, cfg, mode), Gen(v2, cfg, mode), [Op(OpcodeOf(k))], mode);
    }
  }

  /** Calls and `new`: the arguments, then the call. */
  lemma {:induction false} CallWellFormed(n: Node, cfg: Config, mode: Mode)
    requires n.CallFunction? || n.New?
    requires WellFormed(cfg.pop, Recording)
    ensures WellFormed(Gen(n, cfg, mode), mode)
    decreases n, 0
  {
    match n
    case CallFunction(f, args, r) =>
      GenSeqWellFormed(args, cfg, mode);
      if r.Some? {
        GenOptWellFormed(r, cfg, mode);
        var tail := GenOpt(r, cfg, mode) + [Op(CALLMETHOD), StrArg("#" + f)];
        assert Gen(n, cfg, mode) == GenSeq(args, cfg, mode) + tail;
        WellFormedPair(CALLMETHOD, StrArg("#" + f), mode);
        WellFormedConcat(GenOpt(r, cfg, mode), [Op(CALLMETHOD), StrArg("#" + f)], mode);
        WellFormedConcat(GenSeq(args, cfg, mode), tail, mode);
      } else {
        assert Gen(n, cfg, mode) == GenSeq(args, cfg, mode) + [Op(CALLFUNC), StrArg(f)];
        WellFormedPair(CALLFUNC, StrArg(f), mode);
        WellFormedConcat(GenSeq(args, cfg, mode), [Op(CALLFUNC), StrArg(f)], mode);
      }
    case New(c, args) =>
      GenSeqWellFormed(args, cfg, mode);
      assert Gen(n, cfg, mode) == GenSeq(args, cfg, mode) + [Op(CREATE_INSTANCE), StrArg(c)];
      WellFormedPair(CREATE_INSTANCE, StrArg(c), mode);
      WellFormedConcat(GenSeq(args, cfg, mode), [Op(CREATE_INSTANCE), StrArg(c)], mode);
  }

  lemma {:induction false} SetVariableWellFormed(n: Node, cfg: Config, mode: Mode)
    requires n.SetVariable? && WellFormed(cfg.pop, Recording)
    ensures WellFormed(Gen(n, cfg, mode), mode)
    decreases n, 0
  {
    var v := n.value;
    GenWellFormed(v, cfg, mode);
    if n.setInstance.Some? {
      var inst := n.setInstance;
      GenOptWellFormed(inst, cfg, mode);
      WellFormedPair(PUT, StrArg(n.target), mode);
      var tail := [Op(SET), Op(POP)];
      assert WellFormed(tail, mode) by {
        assert forall i :: 0 <= i < |tail| ==> !NeedsParameter(tail[i].code as int) && !IsJump(tail[i]);
      }
      WellFormedConcat3(GenOpt(inst, cfg, mode), [Op(PUT), StrArg(n.target)], Gen(v, cfg, mode), mode);
      WellFormedConcat(GenOpt(inst, cfg, mode) + [Op(PUT), StrArg(n.target)] + Gen(v, cfg, mode), tail, mode);
    } else if StoresInPlace(v) {
      assert Gen(n, cfg, mode) == Gen(v, cfg, mode) + [];
    } else {
      WellFormedPair(SETVAR, VariableOperand(n.target, n.setId), mode);
      WellFormedConcat(Gen(v, cfg, mode), [Op(SETVAR), VariableOperand(n.target, n.setId)], mode);
    }
  }

  lemma {:induction false} IfWellFormed(n: Node, cfg: Config, mode: Mode)
    requires n.If? && WellFormed(cfg.pop, Recording)
    ensures WellFormed(Gen(n, cfg, mode), mode)
    decreases n, 0
  {
    var cond, code := Gen(n.condition, cfg, mode), Gen(n.code, cfg, mode);
    GenWellFormed(n.condition, cfg, mode);
    GenWellFormed(n.code, cfg, mode);
    var e := if n.elseCode.Some? then Some(Gen(n.elseCode.value, cfg, mode)) else None;
    if n.elseCode.Some? {
      GenWellFormed(n.elseCode.value, cfg, mode);
    }
    assert Gen(n, cfg, mode) == IfLayout(cond, code, e, mode);
    IfLayoutWellFormed(cond, code, e, mode);
  }

  lemma IfLayoutWellFormed(cond: seq<Slot>, code: seq<Slot>, e: Option<seq<Slot>>, mode: Mode)
    requires WellFormed(cond, mode) && WellFormed(code, mode) && (e.Some? ==> WellFormed(e.value, mode))
    ensures WellFormed(IfLayout(cond, code, e, mode), mode)
  {
    var jump := [Op(SKIPIFN), IntArg(if e.None? then Sizeof(code, mode)
                                     else Sizeof(code, mode) + Sizeof([Op(SKIP), IntArg(Sizeof(e.value, mode))], mode))];
    WellFormedPair(SKIPIFN, jump[1], mode);
    WellFormedConcat3(cond, jump, code, mode);
    if e.Some? {
      var skip := [Op(SKIP), IntArg(Sizeof(e.value, mode))];
      WellFormedPair(SKIP, skip[1], mode);
      WellFormedConcat3(cond + jump + code, skip, e.value, mode);
    }
  }

  lemma {:induction false} WhileWellFormed(n: Node, cfg: Config, mode: Mode)
    requires n.While? && WellFormed(cfg.pop, Recording)
    ensures WellFormed(Gen(n, cfg, mode), mode)
    decreases n, 0
  {
    GenWellFormed(n.body, cfg, Recording);
    GenWellFormed(n.loopCondition, cfg, Recording);
    if mode == Recording {
      RecordedWhileWellFormed(n.loopCondition, n.body, cfg);
    } else {
      TopLevelWhileWellFormed(n.loopCondition, n.body, cfg);
    }
  }

  lemma RecordedWhileWellFormed(c: Node, body: Node, cfg: Config)
    requires WellFormed(Gen(body, cfg, Recording), Recording) && WellFormed(Gen(c, cfg, Recording), Recording)
    ensures WellFormed(Gen(While(c, body), cfg, Recording), Recording)
  {
    var code, cond := Gen(body, cfg, Recording), Gen(c, cfg, Recording);
    var raw := NestedWhileLayout(code, cond);
    assert Gen(While(c, body), cfg, Recording) == Patch(raw, |cond|);
    LayoutWellFormed(code, cond);
    PatchWellFormed(raw, |cond|);
  }

  lemma TopLevelWhileWellFormed(c: Node, body: Node, cfg: Config)
    requires WellFormed(Gen(body, cfg, Recording), Recording) && WellFormed(Gen(c, cfg, Recording), Recording)
    ensures WellFormed(Gen(While(c, body), cfg, TopLevel), TopLevel)
  {
    var code, cond := Gen(body, cfg, Recording), Gen(c, cfg, Recording);
    assert Gen(While(c, body), cfg, TopLevel) == [Op(REC)] + code + [Op(END)] + [Op(REC)] + cond + [Op(END)] + [Op(WHILE)];
    TopLevelLoopWellFormed(code, cond);
  }

  lemma TopLevelLoopWellFormed(code: seq<Slot>, cond: seq<Slot>)
    requires WellFormed(code, TopLevel) && WellFormed(cond, TopLevel)
    ensures WellFormed([Op(REC)] + code + [Op(END)] + [Op(REC)] + cond + [Op(END)] + [Op(WHILE)], TopLevel)
  {
    WellFormedSingle(REC, TopLevel);
    WellFormedSingle(END, TopLevel);
    WellFormedSingle(WHILE, TopLevel);
    WellFormedConcat3([Op(REC)], code, [Op(END)], TopLevel);
    WellFormedConcat3([Op(REC)] + code + [Op(END)], [Op(REC)], cond, TopLevel);
    WellFormedConcat3([Op(REC)] + code + [Op(END)] + [Op(REC)] + cond, [Op(END)], [Op(WHILE)], TopLevel);
  }

  lemma {:induction false} ClassWellFormed(n: Node, cfg: Config, mode: Mode)
    requires n.Class? && WellFormed(cfg.pop, Recording)
    ensures WellFormed(Gen(n, cfg, mode), mode)
    decreases n, 0
  {
    var (code, items) := GenMembers(n.content, n.className, cfg, mode);
    GenMembersWellFormed(n.content, n.className, cfg, mode);
    var parentPart := if n.parentClass.Some? then [Op(PUT), BoolArg(false), Op(PUT), StrArg(n.parentClass.value)] else [];
    var count := items + (if n.parentClass.Some? then 1 else 0);
    assert Gen(n, cfg, mode) == code + parentPart + [Op(CREATE_MAP), IntArg(count), Op(CREATE_CLASS), StrArg(n.className)];
    ClassLayoutWellFormed(code, n.parentClass, count, n.className, mode);
  }

  lemma ClassLayoutWellFormed(code: seq<Slot>, parent: Option<string>, count: int, name: string, mode: Mode)
    requires WellFormed(code, mode)
    ensures var parentPart := if parent.Some? then [Op(PUT), BoolArg(false), Op(PUT), StrArg(parent.value)] else [];
            WellFormed(code + parentPart + [Op(CREATE_MAP), IntArg(count), Op(CREATE_CLASS), StrArg(name)], mode)
  {
    var parentPart := if parent.Some? then [Op(PUT), BoolArg(false), Op(PUT), StrArg(parent.value)] else [];
    if parent.Some? {
      WellFormedPair(PUT, BoolArg(false), mode);
      WellFormedPair(PUT, StrArg(parent.value), mode);
      WellFormedConcat([Op(PUT), BoolArg(false)], [Op(PUT), StrArg(parent.value)], mode);
    }
    WellFormedPair(CREATE_MAP, IntArg(count), mode);
    WellFormedPair(CREATE_CLASS, StrArg(name), mode);
    WellFormedConcat([Op(CREATE_MAP), IntArg(count)], [Op(CREATE_CLASS), StrArg(name)], mode);
    WellFormedConcat3(code, parentPart, [Op(CREATE_MAP), IntArg(count)] + [Op(CREATE_CLASS), StrArg(name)], mode);
    assert [Op(CREATE_MAP), IntArg(count)] + [Op(CREATE_CLASS), StrArg(name)] == [Op(CREATE_MAP), IntArg(count), Op(CREATE_CLASS), StrArg(name)];
  }

  lemma {:induction false} GenFunctionWellFormed(name: string, params: seq<string>, body: Node, cfg: Config, mode: Mode)
    requires WellFormed(cfg.pop, Recording)
    ensures WellFormed(GenFunction(name, params, body, cfg), mode)
    decreases body, 2
  {
    GenWellFormed(body, cfg, Recording);
    var tail := [Op(END), Op(PUT), IntArg(|params|), Op(MKFUNC), StrArg(name)];
    assert WellFormed(tail, Recording) by {
      assert forall i :: 0 <= i < |tail| && tail[i].Op? && NeedsParameter(tail[i].code as int) ==> i == 1 || i == 3;
    }
    WellFormedSingle(REC, Recording);
    WellFormedConcat3([Op(REC)], Gen(body, cfg, Recording), tail, Recording);
  }

  lemma {:induction false} GenOptWellFormed(o: Option<Node>, cfg: Config, mode: Mode)
    requires WellFormed(cfg.pop, Recording)
    ensures WellFormed(GenOpt(o, cfg, mode), mode)
    decreases o, 0
  {
    if o.Some? {
      GenWellFormed(o.value, cfg, mode);
    }
  }

  lemma {:induction false} GenSeqWellFormed(ns: seq<Node>, cfg: Config, mode: Mode)
    requires WellFormed(cfg.pop, Recording)
    ensures WellFormed(GenSeq(ns, cfg, mode), mode)
    decreases ns, 0
  {
    if ns != [] {
      GenWellFormed(ns[0], cfg, mode);
      GenSeqWellFormed(ns[1..], cfg, mode);
      WellFormedConcat(Gen(ns[0], cfg, mode), GenSeq(ns[1..], cfg, mode), mode);
    }
  }

  lemma {:induction false} GenReversedWellFormed(ns: seq<Node>, cfg: Config, mode: Mode)
    requires WellFormed(cfg.pop, Recording)
    ensures WellFormed(GenReversed(ns, cfg, mode), mode)
    decreases ns, 0
  {
    if ns != [] {
      GenWellFormed(ns[0], cfg, mode);
      GenReversedWellFormed(ns[1..], cfg, mode);
      WellFormedConcat(GenReversed(ns[1..], cfg, mode), Gen(ns[0], cfg, mode), mode);
    }
  }

  lemma {:induction false} GenEntriesWellFormed(es: seq<Entry>, cfg: Config, mode: Mode)
    requires WellFormed(cfg.pop, Recording)
    ensures WellFormed(GenEntries(es, cfg, mode), mode)
    decreases es, 0
  {
    if es != [] {
      GenEntryWellFormed(es[0], cfg, mode);
      GenEntriesWellFormed(es[1..], cfg, mode);
      WellFormedConcat(GenEntry(es[0], cfg, mode), GenEntries(es[1..], cfg, mode), mode);
    }
  }

  lemma {:induction false} GenEntryWellFormed(e: Entry, cfg: Config, mode: Mode)
    requires WellFormed(cfg.pop, Recording)
    ensures WellFormed(GenEntry(e, cfg, mode), mode)
    decreases e, 0
  {
    GenWellFormed(e.key, cfg, mode);
    GenWellFormed(e.val, cfg, mode);
    WellFormedConcat(Gen(e.key, cfg, mode), Gen(e.val, cfg, mode), mode);
  }

  lemma {:induction false} GenStatementWellFormed(n: Node, cfg: Config, mode: Mode)
    requires WellFormed(cfg.pop, Recording)
    ensures WellFormed(GenStatement(n, cfg, mode), mode)
    decreases n, 2
  {
    GenWellFormed(n, cfg, mode);
    if IsValue(n) {
      WellFormedConcat(Gen(n, cfg, mode), cfg.pop, mode);
    }
  }

  lemma {:induction false} GenStatementsWellFormed(ns: seq<Node>, cfg: Config, mode: Mode)
    requires WellFormed(cfg.pop, Recording)
    ensures WellFormed(GenStatements(ns, cfg, mode), mode)
    decreases ns, 0
  {
    if ns != [] {
      GenStatementWellFormed(ns[0], cfg, mode);
      GenStatementsWellFormed(ns[1..], cfg, mode);
      WellFormedConcat(GenStatement(ns[0], cfg, mode), GenStatements(ns[1..], cfg, mode), mode);
    }
  }

  lemma {:induction false} GenMembersWellFormed(ms: seq<Node>, className: string, cfg: Config, mode: Mode)
    requires WellFormed(cfg.pop, Recording)
    ensures WellFormed(GenMembers(ms, className, cfg, mode).0, mode)
    decreases ms, 0
  {
    if ms != [] {
      var (rest, k) := GenMembers(ms[1..], className, cfg, mode);
      GenMembersWellFormed(ms[1..], className, cfg, mode);
      match ms[0]
      case SetVariable(name, v, decl, _, _) =>
        if decl {
          GenWellFormed(v, cfg, mode);
          WellFormedPair(PUT, StrArg(name), mode);
          WellFormedConcat3([Op(PUT), StrArg(name)], Gen(v, cfg, mode), rest, mode);
        }
      case Function(f, params, body) =>
        GenFunctionWellFormed(className + "#" + f, params, body, cfg, mode);
        var reg := [Op(PUT), StrArg(MemberKey(f)), Op(GETPTRTOLASTFUNC)];
        assert WellFormed(reg, mode) by {
          assert forall i :: 0 <= i < |reg| && reg[i].Op? && NeedsParameter(reg[i].code as int) ==> i == 0;
        }
        WellFormedConcat3(GenFunction(className + "#" + f, params, body, cfg), reg, rest, mode);
      case _ =>
    }
  }

  // ---------------------------------------------------------------------
  // Back-patching a nested loop
  // ---------------------------------------------------------------------

  /**
   * The slot that back-patching leaves at `j`: the operand after a jump
   * becomes its offset, the jump itself becomes `SKIP`, the rest is kept.
   */
  function PatchedSlot(res: seq<Slot>, condLen: nat, j: nat): Slot
    requires j < |res|
  {
    if j > 0 && res[j - 1] == Op(CONTINUE) then IntArg(|res| - (j - 1) - condLen - 4)
    else if j > 0 && res[j - 1] == Op(BREAK) then IntArg(|res| - (j - 1) - 2)
    else if IsJump(res[j]) && j + 1 < |res| then Op(SKIP)
    else res[j]
  }

  /** The array as the patch loop has it just before visiting slot `i`. */
  function PatchStage(res: seq<Slot>, condLen: nat, i: nat): (r: seq<Slot>)
    requires i <= |res|
    ensures |r| == |res|
  {
    seq(|res|, k requires 0 <= k < |res| =>
      if k < i || (k == i && i > 0 && IsJump(res[i - 1])) then PatchedSlot(res, condLen, k) else res[k])
  }

  lemma {:induction false} PatchFromStage(res: seq<Slot>, condLen: nat, i: nat)
    requires JumpsPlaceheld(res) && i <= |res|
    ensures PatchFrom(PatchStage(res, condLen, i), i, condLen) == PatchStage(res, condLen, |res|)
    decreases |res| - i
  {
    var cur := PatchStage(res, condLen, i);
    if i < |res| {
      if IsJump(res[i]) {
        assert cur[i] == res[i];
        var off := if res[i] == Op(CONTINUE) then |res| - i - condLen - 4 else |res| - i - 2;
        var nxt := cur[i := Op(SKIP)][i + 1 := IntArg(off)];
        assert nxt == PatchStage(res, condLen, i + 1);
        PatchFromStage(res, condLen, i + 1);
      } else {
        assert !IsJump(cur[i]);
        assert cur == PatchStage(res, condLen, i + 1);
        PatchFromStage(res, condLen, i + 1);
      }
    }
  }

  /** Back-patching rewrites each placeheld jump and its placeholder and nothing else. */
  lemma PatchSpec(res: seq<Slot>, condLen: nat)
    requires JumpsPlaceheld(res)
    ensures forall j :: 0 <= j < |res| ==> Patch(res, condLen)[j] == PatchedSlot(res, condLen, j)
  {
    assert PatchStage(res, condLen, 0) == res;
    PatchFromStage(res, condLen, 0);
  }

  /** Patched code is well formed and holds no jump left to patch. */
  lemma PatchWellFormed(res: seq<Slot>, condLen: nat)
    requires WellFormed(res, Recording)
    ensures WellFormed(Patch(res, condLen), Recording)
    ensures forall j :: 0 <= j < |res| ==> !IsJump(Patch(res, condLen)[j])
  {
    PatchSpec(res, condLen);
    var p := Patch(res, condLen);
    forall j | 0 <= j < |p| && p[j].Op? && NeedsParameter(p[j].code as int)
      ensures j + 1 < |p| && !p[j + 1].Op?
    {
      if IsJump(res[j]) {
        assert p[j + 1] == PatchedSlot(res, condLen, j + 1);
      } else {
        assert p[j + 1] == PatchedSlot(res, condLen, j + 1);
      }
    }
  }

  /** Where a recorded `SKIP`/`SKIPIF` at slot `at` resumes: past its operand, moved by `offset` slots. */
  function SkipTarget(at: int, offset: int): int
  {
    at + 2 + offset
  }

  /** The layout of a nested loop over well-formed recorded code keeps a placeholder after each jump. */
  lemma LayoutWellFormed(code: seq<Slot>, cond: seq<Slot>)
    requires WellFormed(code, Recording) && WellFormed(cond, Recording)
    ensures WellFormed(NestedWhileLayout(code, cond), Recording)
  {
    WellFormedPair(SKIP, IntArg(|code|), Recording);
    WellFormedPair(SKIPIF, IntArg(-(|code| + |cond| + 2)), Recording);
    WellFormedConcat3([Op(SKIP), IntArg(|code|)], code, cond, Recording);
    WellFormedConcat([Op(SKIP), IntArg(|code|)] + code + cond, [Op(SKIPIF), IntArg(-(|code| + |cond| + 2))], Recording);
  }

  /** Every back-patched `continue` resumes at the condition, every `break` just past the loop. */
  lemma PatchedJumpsLand(res: seq<Slot>, condLen: nat)
    requires JumpsPlaceheld(res) && condLen + 4 <= |res|
    ensures forall j :: 0 <= j < |res| && res[j] == Op(CONTINUE) ==>
              Patch(res, condLen)[j] == Op(SKIP) && Patch(res, condLen)[j + 1].IntArg? &&
              SkipTarget(j, Patch(res, condLen)[j + 1].i) == |res| - condLen - 2
    ensures forall j :: 0 <= j < |res| && res[j] == Op(BREAK) ==>
              Patch(res, condLen)[j] == Op(SKIP) && Patch(res, condLen)[j + 1].IntArg? &&
              SkipTarget(j, Patch(res, condLen)[j + 1].i) == |res|
    ensures forall j :: 0 <= j < |res| && !IsJump(res[j]) && (j == 0 || !IsJump(res[j - 1])) ==>
              Patch(res, condLen)[j] == res[j]
  {
    PatchSpec(res, condLen);
  }

  /**
   * `w` is the back-patched code of a nested loop over `code` and `cond`:
   * the entry jump lands on the condition, the closing jump on the body's
   * first slot, every `continue` on the condition and every `break` just
   * past the loop; all other slots are laid out as is.
   */
  predicate LoopJumpsLand(w: seq<Slot>, code: seq<Slot>, cond: seq<Slot>)
  {
    var raw := NestedWhileLayout(code, cond);
    var condStart := 2 + |code|;
    && |w| == |raw|
    && w[0] == Op(SKIP) && w[1] == IntArg(|code|) && SkipTarget(0, w[1].i) == condStart
    && w[|w| - 2] == Op(SKIPIF) && w[|w| - 1].IntArg? && SkipTarget(|w| - 2, w[|w| - 1].i) == 2
    && (forall j :: 0 <= j < |raw| && raw[j] == Op(CONTINUE) ==>
          w[j] == Op(SKIP) && w[j + 1].IntArg? && SkipTarget(j, w[j + 1].i) == condStart)
    && (forall j :: 0 <= j < |raw| && raw[j] == Op(BREAK) ==>
          w[j] == Op(SKIP) && w[j + 1].IntArg? && SkipTarget(j, w[j + 1].i) == |w|)
    && (forall j :: 0 <= j < |raw| && !IsJump(raw[j]) && (j == 0 || !IsJump(raw[j - 1])) ==> w[j] == raw[j])
  }

  lemma PatchedLoopLands(code: seq<Slot>, cond: seq<Slot>)
    requires WellFormed(code, Recording) && WellFormed(cond, Recording)
    ensures LoopJumpsLand(Patch(NestedWhileLayout(code, cond), |cond|), code, cond)
  {
    var raw := NestedWhileLayout(code, cond);
    LayoutWellFormed(code, cond);
    PatchedJumpsLand(raw, |cond|);
    var w := Patch(raw, |cond|);
    var last := |raw| - 3;
    assert raw[last + 1] != NullArg;
    assert !IsJump(raw[0]) && !IsJump(raw[1]) && !IsJump(raw[last + 1]) && !IsJump(raw[last + 2]);
    assert |raw| - |cond| - 2 == 2 + |code|;
    assert raw[0] == Op(SKIP) && raw[1] == IntArg(|code|);
    PatchSpec(raw, |cond|);
    assert w[0] == PatchedSlot(raw, |cond|, 0) == raw[0];
    assert w[1] == PatchedSlot(raw, |cond|, 1) == raw[1];
    assert w[|w| - 2] == PatchedSlot(raw, |cond|, last + 1) == raw[last + 1];
    assert w[|w| - 1] == PatchedSlot(raw, |cond|, last + 2) == raw[last + 2];
  }

  /** The jumps of a `while` node generated inside a recorded block land as `LoopJumpsLand` says. */
  lemma NestedWhileJumpsLand(c: Node, body: Node, cfg: Config)
    requires WellFormed(cfg.pop, Recording)
    ensures LoopJumpsLand(Gen(While(c, body), cfg, Recording), Gen(body, cfg, Recording), Gen(c, cfg, Recording))
  {
    var code := Gen(body, cfg, Recording);
    var cond := Gen(c, cfg, Recording);
    GenWellFormed(body, cfg, Recording);
    GenWellFormed(c, cfg, Recording);
    assert Gen(While(c, body), cfg, Recording) == Patch(NestedWhileLayout(code, cond), |cond|);
    PatchedLoopLands(code, cond);
  }

  // ---------------------------------------------------------------------
  // Instructions of operators and assignments
  // ---------------------------------------------------------------------

  /** An opcode with its operand walks to one instruction carrying the operand's type code. */
  lemma WalkPair(op: Byte, arg: Slot)
    requires NeedsParameter(op as int) && !arg.Op?
    ensures Walk([Op(op), arg]) == [Instr(op, TypeCode(arg).value, arg)]
  {
    assert [Op(op), arg][2..] == [];
  }

  /** A parameterless opcode walks to one instruction without data. */
  lemma WalkSingle(op: Byte)
    requires !NeedsParameter(op as int)
    ensures Walk([Op(op)]) == [Instr(op, 0, NullArg)]
  {
    assert [Op(op)][1..] == [];
  }

  /** Walking an opcode with its operand after complete code. */
  lemma WalkThenPair(a: seq<Slot>, op: Byte, arg: Slot)
    requires OperandsPresent(a) && NeedsParameter(op as int) && !arg.Op?
    ensures OperandsPresent(a + [Op(op), arg])
    ensures Walk(a + [Op(op), arg]) == Walk(a) + [Instr(op, TypeCode(arg).value, arg)]
  {
    WellFormedPair(op, arg, TopLevel);
    OperandsPresentConcat(a, [Op(op), arg]);
    WalkSkipsTail(a, [Op(op), arg]);
    WalkPair(op, arg);
  }

  /** Walking two complete pieces of code one after the other. */
  lemma WalkThen(a: seq<Slot>, b: seq<Slot>)
    requires OperandsPresent(a) && OperandsPresent(b)
    ensures OperandsPresent(a + b)
    ensures Walk(a + b) == Walk(a) + Walk(b)
  {
    OperandsPresentConcat(a, b);
    WalkSkipsTail(a, b);
  }

  /**
   * An operator evaluates its left operand, then its right one, then
   * applies its opcode; tagged in place with a compound opcode, it evaluates
   * only the right operand and updates the named variable.
   */
  lemma OperatorInstructions(k: OpKind, v1: Node, v2: Node, tag: Option<string>, cfg: Config, mode: Mode)
    requires WellFormed(cfg.pop, Recording)
    ensures InplaceOpcode(k).Some? && tag.Some? ==>
              Walk(Gen(Operator(k, v1, v2, tag), cfg, mode)) ==
              Walk(Gen(v2, cfg, mode)) + [Instr(InplaceOpcode(k).value, 5, StrArg(tag.value))]
    ensures !(InplaceOpcode(k).Some? && tag.Some?) ==>
              Walk(Gen(Operator(k, v1, v2, tag), cfg, mode)) ==
              Walk(Gen(v1, cfg, mode)) + Walk(Gen(v2, cfg, mode)) + [Instr(OpcodeOf(k), 0, NullArg)]
  {
    if InplaceOpcode(k).Some? && tag.Some? {
      InplaceOperatorInstructions(k, v1, v2, tag.value, cfg, mode);
    } else {
      GenWellFormed(v1, cfg, mode);
      GenWellFormed(v2, cfg, mode);
      PlainOperatorInstructions(k, v1, v2, tag, cfg, mode);
    }
  }

  lemma InplaceOperatorInstructions(k: OpKind, v1: Node, v2: Node, name: string, cfg: Config, mode: Mode)
    requires WellFormed(cfg.pop, Recording) && InplaceOpcode(k).Some?
    ensures Walk(Gen(Operator(k, v1, v2, Some(name)), cfg, mode)) ==
            Walk(Gen(v2, cfg, mode)) + [Instr(InplaceOpcode(k).value, 5, StrArg(name))]
  {
    var right := Gen(v2, cfg, mode);
    GenWellFormed(v2, cfg, mode);
    assert Gen(Operator(k, v1, v2, Some(name)), cfg, mode) == right + [Op(InplaceOpcode(k).value), StrArg(name)];
    InplaceOpcodeSpec(k);
    WalkThenPair(right, InplaceOpcode(k).value, StrArg(name));
  }

  lemma PlainOperatorInstructions(k: OpKind, v1: Node, v2: Node, tag: Option<string>, cfg: Config, mode: Mode)
    requires OperandsPresent(Gen(v1, cfg, mode)) && OperandsPresent(Gen(v2, cfg, mode))
    requires !(InplaceOpcode(k).Some? && tag.Some?)
    ensures Walk(Gen(Operator(k, v1, v2, tag), cfg, mode)) ==
            Walk(Gen(v1, cfg, mode)) + Walk(Gen(v2, cfg, mode)) + [Instr(OpcodeOf(k), 0, NullArg)]
  {
    var left, right := Gen(v1, cfg, mode), Gen(v2, cfg, mode);
    assert Gen(Operator(k, v1, v2, tag), cfg, mode) == left + right + [Op(OpcodeOf(k))];
    WalkThenSingle(left, right, OpcodeOf(k));
  }

  /** Walking two complete pieces of code and then a parameterless opcode. */
  lemma WalkThenSingle(a: seq<Slot>, b: seq<Slot>, op: Byte)
    requires OperandsPresent(a) && OperandsPresent(b) && !NeedsParameter(op as int)
    ensures Walk(a + b + [Op(op)]) == Walk(a) + Walk(b) + [Instr(op, 0, NullArg)]
  {
    OperandsPresentConcat(a, b);
    WalkSkipsTail(a, b);
    WalkSkipsTail(a + b, [Op(op)]);
    WalkSingle(op);
  }

  /** As written, `x = x ** y` emits `POW` with an operand: `POW` takes none, so the walk drops the variable and nothing updates it. */
  lemma InplacePowAsWrittenLosesVariable(v1: Node, v2: Node, name: string, cfg: Config, mode: Mode)
    requires WellFormed(cfg.pop, Recording)
    ensures Walk(GenOperatorAsWritten(Pow, v1, v2, Some(name), cfg, mode)) ==
            Walk(Gen(v2, cfg, mode)) + [Instr(POW, 0, NullArg)]
  {
    GenWellFormed(v2, cfg, mode);
    var tail := [Op(POW), StrArg(name)];
    WalkSkipsTail(Gen(v2, cfg, mode), tail);
    assert tail[1..] == [StrArg(name)];
    assert Walk([StrArg(name)]) == Walk([StrArg(name)][1..]) == [];
  }

  /** With `INPLACE_POW`, `x = x ** y` updates `x` like every other compound operator. */
  lemma InplacePowUpdatesVariable(v1: Node, v2: Node, name: string, cfg: Config, mode: Mode)
    requires WellFormed(cfg.pop, Recording)
    ensures Walk(Gen(Operator(Pow, v1, v2, Some(name)), cfg, mode)) ==
            Walk(Gen(v2, cfg, mode)) + [Instr(INPLACE_POW, 5, StrArg(name))]
  {
    OperatorInstructions(Pow, v1, v2, Some(name), cfg, mode);
  }

  /** The instruction that stores an assignment's result into its variable. */
  predicate StoresInto(ins: Instr, name: string, id: Option<int>, v: Node)
  {
    ins == Instr(SETVAR, TypeCode(VariableOperand(name, id)).value, VariableOperand(name, id)) ||
    (StoresInPlace(v) && ins == Instr(InplaceOpcode(v.kind).value, 5, StrArg(v.inplace.value)))
  }

  /** An assignment to a plain variable ends with the instruction that stores into it. */
  lemma AssignmentEndsWithStore(name: string, v: Node, decl: bool, id: Option<int>, cfg: Config, mode: Mode)
    requires WellFormed(cfg.pop, Recording)
    ensures var w := Walk(Gen(SetVariable(name, v, decl, None, id), cfg, mode));
            |w| > 0 && StoresInto(w[|w| - 1], name, id, v)
    ensures !StoresInPlace(v) ==>
              Walk(Gen(SetVariable(name, v, decl, None, id), cfg, mode)) ==
              Walk(Gen(v, cfg, mode)) + [Instr(SETVAR, TypeCode(VariableOperand(name, id)).value, VariableOperand(name, id))]
  {
    GenWellFormed(v, cfg, mode);
    var value := Gen(v, cfg, mode);
    var code := Gen(SetVariable(name, v, decl, None, id), cfg, mode);
    if StoresInPlace(v) {
      assert code == value + [];
      assert code == value;
      OperatorInstructions(v.kind, v.value1, v.value2, v.inplace, cfg, mode);
      assert v == Operator(v.kind, v.value1, v.value2, v.inplace);
      var w := Walk(code);
      assert w == Walk(Gen(v.value2, cfg, mode)) + [Instr(InplaceOpcode(v.kind).value, 5, StrArg(v.inplace.value))];
      assert w[|w| - 1] == Instr(InplaceOpcode(v.kind).value, 5, StrArg(v.inplace.value));
    } else {
      var store := [Op(SETVAR), VariableOperand(name, id)];
      assert code == value + store;
      WalkSkipsTail(value, store);
      WalkPair(SETVAR, VariableOperand(name, id));
    }
  }

  /** As written, `x = x < 10` (tagged by the optimizer) emits no store at all: `x` never receives the result. */
  lemma ComparisonAssignmentAsWrittenStoresNothing()
    ensures var v := Operator(LesserThan, Variable("x", None, None), Number(DoubleNum("10.0")), Some("x"));
            var w := Walk(GenSetVariableAsWritten("x", v, None, DefaultConfig(true), TopLevel));
            w == [Instr(GETVAR, 5, StrArg("x")), Instr(PUT, 3, DoubleArg("10.0")), Instr(LT, 0, NullArg)] &&
            forall i :: 0 <= i < |w| ==> !StoresInto(w[i], "x", None, v)
  {
    var v := Operator(LesserThan, Variable("x", None, None), Number(DoubleNum("10.0")), Some("x"));
    var code := GenSetVariableAsWritten("x", v, None, DefaultConfig(true), TopLevel);
    assert code == [Op(GETVAR), StrArg("x"), Op(PUT), DoubleArg("10.0"), Op(LT)];
    WalkPair(GETVAR, StrArg("x"));
    WalkPair(PUT, DoubleArg("10.0"));
    WalkSingle(LT);
    assert [Op(GETVAR), StrArg("x")] + [Op(PUT), DoubleArg("10.0")] + [Op(LT)] == code;
    WellFormedPair(GETVAR, StrArg("x"), TopLevel);
    WellFormedPair(PUT, DoubleArg("10.0"), TopLevel);
    WalkSkipsTail([Op(GETVAR), StrArg("x")], [Op(PUT), DoubleArg("10.0")] + [Op(LT)]);
    WalkSkipsTail([Op(PUT), DoubleArg("10.0")], [Op(LT)]);
  }

  // ---------------------------------------------------------------------
  // `if` jumps
  // ---------------------------------------------------------------------

  /** Where a top-level `SKIP`/`SKIPIFN` at instruction `at` resumes: past itself, moved by `offset` instructions. */
  function InstrSkipTarget(at: int, offset: int): int
  {
    at + 1 + offset
  }

  lemma SizeofPair(op: Byte, arg: Slot, mode: Mode)
    requires !arg.Op?
    ensures Sizeof([Op(op), arg], mode) == (if mode == Recording then 2 else 1)
  {
    var s := [Op(op), arg];
    assert s[1..] == [arg];
    assert [arg][1..] == [];
    assert Opcodes([arg]) == [] + Opcodes([]);
    assert Opcodes(s) == [op] + Opcodes([arg]);
  }

  /** `generateIf` lays out the code it generated for the condition and the branches. */
  lemma GenIfLayout(c: Node, body: Node, els: Option<Node>, hasElse: bool, lastElseIf: nat, cfg: Config, mode: Mode)
    ensures Gen(If(c, body, els, hasElse, lastElseIf), cfg, mode) ==
            IfLayout(Gen(c, cfg, mode), Gen(body, cfg, mode), if els.Some? then Some(Gen(els.value, cfg, mode)) else None, mode)
  {
  }

  /**
   * Inside a recorded block, where `w` is the code of an `if`: a false
   * condition resumes right after the then-branch, at the else branch if
   * there is one, and the then-branch ends with a jump over the else branch.
   */
  predicate IfLandsInSlots(w: seq<Slot>, cond: seq<Slot>, code: seq<Slot>, e: Option<seq<Slot>>)
  {
    && |w| >= |cond| + 2 + |code|
    && w[..|cond|] == cond && w[|cond|] == Op(SKIPIFN) && w[|cond| + 1].IntArg?
    && w[|cond| + 2..|cond| + 2 + |code|] == code
    && (e.None? ==> SkipTarget(|cond|, w[|cond| + 1].i) == |w|)
    && (e.Some? ==>
          && |w| >= |e.value| + 2
          && SkipTarget(|cond|, w[|cond| + 1].i) == |w| - |e.value|
          && w[|w| - |e.value|..] == e.value
          && w[|w| - |e.value| - 2] == Op(SKIP) && w[|w| - |e.value| - 1].IntArg?
          && SkipTarget(|w| - |e.value| - 2, w[|w| - |e.value| - 1].i) == |w|)
  }

  lemma IfLayoutLandsRecording(cond: seq<Slot>, code: seq<Slot>, e: Option<seq<Slot>>)
    ensures IfLandsInSlots(IfLayout(cond, code, e, Recording), cond, code, e)
  {
    if e.Some? {
      SizeofPair(SKIP, IntArg(|e.value|), Recording);
    }
  }

  /** The jumps of an `if` node generated inside a recorded block land as `IfLandsInSlots` says. */
  lemma IfJumpsLandRecording(c: Node, body: Node, els: Option<Node>, hasElse: bool, lastElseIf: nat, cfg: Config)
    ensures IfLandsInSlots(Gen(If(c, body, els, hasElse, lastElseIf), cfg, Recording), Gen(c, cfg, Recording),
                           Gen(body, cfg, Recording), if els.Some? then Some(Gen(els.value, cfg, Recording)) else None)
  {
    var e := if els.Some? then Some(Gen(els.value, cfg, Recording)) else None;
    GenIfLayout(c, body, els, hasElse, lastElseIf, cfg, Recording);
    IfLayoutLandsRecording(Gen(c, cfg, Recording), Gen(body, cfg, Recording), e);
  }

  /** As written, a recorded `if` with an else jumps one slot short: onto the operand of the `SKIP` over the else branch. */
  lemma IfElseAsWrittenLandsShort(cond: seq<Slot>, code: seq<Slot>, elseCode: seq<Slot>)
    ensures var w := IfLayoutAsWritten(cond, code, Some(elseCode), Recording);
            && |w| >= |cond| + 2 + |elseCode| + 2
            && w[|cond|] == Op(SKIPIFN) && w[|cond| + 1].IntArg?
            && SkipTarget(|cond|, w[|cond| + 1].i) == |w| - |elseCode| - 1
            && w[|w| - |elseCode| - 1] == IntArg(|elseCode|)
  {
  }

  /** At top level the widening by one is exactly the one instruction of the `SKIP`: as written and corrected agree. */
  lemma IfAsWrittenAgreesAtTopLevel(cond: seq<Slot>, code: seq<Slot>, e: Option<seq<Slot>>)
    ensures IfLayoutAsWritten(cond, code, e, TopLevel) == IfLayout(cond, code, e, TopLevel)
  {
    if e.Some? {
      SizeofPair(SKIP, IntArg(Sizeof(e.value, TopLevel)), TopLevel);
    }
  }

  /** At top level the jump operands count the opcodes of the code jumped over. */
  lemma IfLayoutTopLevel(cond: seq<Slot>, code: seq<Slot>, e: Option<seq<Slot>>)
    ensures e.None? ==> IfLayout(cond, code, e, TopLevel) == cond + [Op(SKIPIFN), IntArg(|Opcodes(code)|)] + code
    ensures e.Some? ==>
              IfLayout(cond, code, e, TopLevel) ==
              cond + [Op(SKIPIFN), IntArg(|Opcodes(code)| + 1)] + code + [Op(SKIP), IntArg(|Opcodes(e.value)|)] + e.value
  {
    if e.Some? {
      SizeofPair(SKIP, IntArg(|Opcodes(e.value)|), TopLevel);
    }
  }

  /** Walking the slots of an `if` without else, given complete condition and branch code. */
  lemma IfWalk(cond: seq<Slot>, code: seq<Slot>)
    requires OperandsPresent(cond) && OperandsPresent(code)
    ensures Walk(cond + [Op(SKIPIFN), IntArg(|Opcodes(code)|)] + code) ==
            Walk(cond) + [Instr(SKIPIFN, 3, IntArg(|Walk(code)|))] + Walk(code)
  {
    WalkOnePerOpcode(code);
    WalkThenPair(cond, SKIPIFN, IntArg(|Opcodes(code)|));
    WalkThen(cond + [Op(SKIPIFN), IntArg(|Opcodes(code)|)], code);
  }

  /** Walking the slots of an `if` with an else branch, given complete condition and branch code. */
  lemma IfElseWalk(cond: seq<Slot>, code: seq<Slot>, elseCode: seq<Slot>)
    requires OperandsPresent(cond) && OperandsPresent(code) && OperandsPresent(elseCode)
    ensures Walk(cond + [Op(SKIPIFN), IntArg(|Opcodes(code)| + 1)] + code + [Op(SKIP), IntArg(|Opcodes(elseCode)|)] + elseCode) ==
            Walk(cond) + [Instr(SKIPIFN, 3, IntArg(|Walk(code)| + 1))] + Walk(code) +
            [Instr(SKIP, 3, IntArg(|Walk(elseCode)|))] + Walk(elseCode)
  {
    WalkOnePerOpcode(code);
    WalkOnePerOpcode(elseCode);
    var k := |Opcodes(code)| + 1;
    WalkThenPair(cond, SKIPIFN, IntArg(k));
    WalkThen(cond + [Op(SKIPIFN), IntArg(k)], code);
    var front := cond + [Op(SKIPIFN), IntArg(k)] + code;
    WalkThenPair(front, SKIP, IntArg(|Opcodes(elseCode)|));
    WalkThen(front + [Op(SKIP), IntArg(|Opcodes(elseCode)|)], elseCode);
  }

  /** The instruction-level layout of a top-level `if`: condition, conditional jump, then-branch and, with an else, the jump over it. */
  lemma IfLayoutInstructions(cond: seq<Slot>, code: seq<Slot>, e: Option<seq<Slot>>)
    requires OperandsPresent(cond) && OperandsPresent(code) && (e.Some? ==> OperandsPresent(e.value))
    ensures var C, B := Walk(cond), Walk(code);
            var W := Walk(IfLayout(cond, code, e, TopLevel));
            && (e.None? ==> W == C + [Instr(SKIPIFN, 3, IntArg(|B|))] + B)
            && (e.Some? ==>
                  var E := Walk(e.value);
                  W == C + [Instr(SKIPIFN, 3, IntArg(|B| + 1))] + B + [Instr(SKIP, 3, IntArg(|E|))] + E)
  {
    IfLayoutTopLevel(cond, code, e);
    if e.None? {
      IfWalk(cond, code);
    } else {
      IfElseWalk(cond, code, e.value);
    }
  }

  /**
   * At top level, where `W` is the instruction list of an `if`, counted in
   * instructions: a false condition resumes right after the then-branch (at
   * the else branch if there is one), and the then-branch ends with a jump
   * over the else branch.
   */
  predicate IfLandsInInstructions(W: seq<Instr>, C: seq<Instr>, B: seq<Instr>, E: Option<seq<Instr>>)
  {
    && |W| > |C| + |B|
    && W[..|C|] == C && W[|C|].op == SKIPIFN && W[|C|].data.IntArg?
    && W[|C| + 1..|C| + 1 + |B|] == B
    && (E.None? ==> InstrSkipTarget(|C|, W[|C|].data.i) == |W|)
    && (E.Some? ==>
          && |W| > |E.value|
          && InstrSkipTarget(|C|, W[|C|].data.i) == |W| - |E.value|
          && W[|W| - |E.value|..] == E.value
          && W[|W| - |E.value| - 1].op == SKIP && W[|W| - |E.value| - 1].data.IntArg?
          && InstrSkipTarget(|W| - |E.value| - 1, W[|W| - |E.value| - 1].data.i) == |W|)
  }

  lemma IfLanding(W: seq<Instr>, C: seq<Instr>, B: seq<Instr>)
    requires W == C + [Instr(SKIPIFN, 3, IntArg(|B|))] + B
    ensures IfLandsInInstructions(W, C, B, None)
  {
  }

  lemma IfElseLanding(W: seq<Instr>, C: seq<Instr>, B: seq<Instr>, E: seq<Instr>)
    requires W == C + [Instr(SKIPIFN, 3, IntArg(|B| + 1))] + B + [Instr(SKIP, 3, IntArg(|E|))] + E
    ensures IfLandsInInstructions(W, C, B, Some(E))
  {
  }

  lemma IfLayoutLandsTopLevel(cond: seq<Slot>, code: seq<Slot>, e: Option<seq<Slot>>)
    requires OperandsPresent(cond) && OperandsPresent(code) && (e.Some? ==> OperandsPresent(e.value))
    ensures IfLandsInInstructions(Walk(IfLayout(cond, code, e, TopLevel)), Walk(cond), Walk(code),
                                  if e.Some? then Some(Walk(e.value)) else None)
  {
    var W, C, B := Walk(IfLayout(cond, code, e, TopLevel)), Walk(cond), Walk(code);
    IfLayoutInstructions(cond, code, e);
    if e.None? {
      IfLanding(W, C, B);
    } else {
      IfElseLanding(W, C, B, Walk(e.value));
    }
  }

  /** The jumps of a top-level `if` node land as `IfLandsInInstructions` says. */
  lemma IfJumpsLandTopLevel(c: Node, body: Node, els: Option<Node>, hasElse: bool, lastElseIf: nat, cfg: Config)
    requires WellFormed(cfg.pop, Recording)
    ensures IfLandsInInstructions(Walk(Gen(If(c, body, els, hasElse, lastElseIf), cfg, TopLevel)),
                                  Walk(Gen(c, cfg, TopLevel)), Walk(Gen(body, cfg, TopLevel)),
                                  if els.Some? then Some(Walk(Gen(els.value, cfg, TopLevel))) else None)
  {
    var cond, code := Gen(c, cfg, TopLevel), Gen(body, cfg, TopLevel);
    var e := if els.Some? then Some(Gen(els.value, cfg, TopLevel)) else None;
    GenWellFormed(c, cfg, TopLevel);
    GenWellFormed(body, cfg, TopLevel);
    if els.Some? {
      GenWellFormed(els.value, cfg, TopLevel);
    }
    GenIfLayout(c, body, els, hasElse, lastElseIf, cfg, TopLevel);
    assert Gen(If(c, body, els, hasElse, lastElseIf), cfg, TopLevel) == IfLayout(cond, code, e, TopLevel);
    IfLayoutLandsTopLevel(cond, code, e);
  }

  // ---------------------------------------------------------------------
  // The recording flag
  // ---------------------------------------------------------------------

  /**
   * As written, a `continue` after a function definition in a nested loop
   * body is generated without its placeholder, so back-patching the loop
   * overwrites whatever follows it.
   */
  lemma ContinueAfterFunctionAsWrittenLosesPlaceholder(cfg: Config)
    ensures var f := Function("f", [], Blocks([]));
            var code := GenStatementsAsWritten([f, Continue], cfg, Recording);
            && code == GenFunction("f", [], Blocks([]), cfg) + [Op(CONTINUE)]
            && !JumpsPlaceheld(code)
  {
    var f := Function("f", [], Blocks([]));
    assert DefinesFunction(f);
    assert [f, Continue][1..] == [Continue];
    assert [Continue][1..] == [];
    assert !IsValue(f) && !IsValue(Continue);
    assert GenStatement(f, cfg, Recording) == GenFunction("f", [], Blocks([]), cfg);
    assert GenStatement(Continue, cfg, TopLevel) == [Op(CONTINUE)];
    assert GenStatementsAsWritten([Continue], cfg, TopLevel) == [Op(CONTINUE)] + GenStatementsAsWritten([], cfg, TopLevel);
    var code := GenStatementsAsWritten([f, Continue], cfg, Recording);
    assert code == GenFunction("f", [], Blocks([]), cfg) + [Op(CONTINUE)];
    assert code[|code| - 1] == Op(CONTINUE);
  }

  /** Generated in one mode throughout, every statement of a recorded block keeps its placeholders. */
  lemma RecordedStatementsKeepPlaceholders(ns: seq<Node>, cfg: Config)
    requires WellFormed(cfg.pop, Recording)
    ensures JumpsPlaceheld(GenStatements(ns, cfg, Recording))
  {
    GenStatementsWellFormed(ns, cfg, Recording);
  }

  /** The code of a block is the code of its statements, one after another. */
  lemma {:induction false} GenStatementsAppend(a: seq<Node>, b: seq<Node>, cfg: Config, mode: Mode)
    ensures GenStatements(a + b, cfg, mode) == GenStatements(a, cfg, mode) + GenStatements(b, cfg, mode)
    decreases |a|
  {
    if a == [] {
      assert a + b == b;
    } else {
      assert (a + b)[1..] == a[1..] + b;
      GenStatementsAppend(a[1..], b, cfg, mode);
    }
  }

  /**
   * The code `generate` returns is well formed; a program's code is its
   * statements' code at top level; and a root value's unneeded result is
   * popped, so with pops on its code ends with `POP`.
   */
  lemma GenerateRootSpec(root: Node, cfg: Config)
    requires WellFormed(cfg.pop, Recording)
    ensures WellFormed(GenerateRoot(root, cfg), TopLevel)
    ensures root.Blocks? ==> GenerateRoot(root, cfg) == GenStatements(root.blocks, cfg, TopLevel)
    ensures IsValue(root) && cfg.pop == [Op(POP)] ==>
              var code := GenerateRoot(root, cfg); |code| >= 2 && code[|code| - 1] == Op(POP)
  {
    GenStatementWellFormed(root, cfg, TopLevel);
    if IsValue(root) && cfg.pop == [Op(POP)] {
      var v := Gen(root, cfg, TopLevel);
      assert GenerateRoot(root, cfg) == v + [Op(POP)];
      assert !root.Blocks? && |v| >= 1;
      assert (v + [Op(POP)])[|v|] == Op(POP);
    }
    if root.Blocks? {
      assert GenerateRoot(root, cfg) == Gen(root, cfg, TopLevel);
    }
  }

  // ---------------------------------------------------------------------
  // Worked examples
  // ---------------------------------------------------------------------

  /** The code of `print "<s>"` as a statement. */
  lemma PrintTextCode(t: string, cfg: Config, mode: Mode)
    ensures GenStatements([Print(Text(t))], cfg, mode) == [Op(PUT), StrArg(t), Op(CALLFUNC), NullArg]
  {
    var p := Print(Text(t));
    assert Gen(Text(t), cfg, mode) == [Op(PUT), StrArg(t)];
    assert Gen(p, cfg, mode) == [Op(PUT), StrArg(t)] + [Op(CALLFUNC), NullArg];
    assert GenStatement(p, cfg, mode) == Gen(p, cfg, mode);
    assert [p][1..] == [];
    assert GenStatements([p], cfg, mode) == GenStatement(p, cfg, mode) + GenStatements([], cfg, mode);
  }

  /** The code of a print holds two opcodes. */
  lemma PrintTextOpcodes(t: string)
    ensures Opcodes([Op(PUT), StrArg(t), Op(CALLFUNC), NullArg]) == [PUT, CALLFUNC]
  {
    var code := [Op(PUT), StrArg(t), Op(CALLFUNC), NullArg];
    assert code[1..] == [StrArg(t), Op(CALLFUNC), NullArg];
    assert code[1..][1..] == [Op(CALLFUNC), NullArg];
    assert code[1..][1..][1..] == [NullArg];
    assert [NullArg][1..] == [];
    assert Opcodes([NullArg]) == [];
    assert Opcodes(code[1..][1..]) == [CALLFUNC];
    assert Opcodes(code[1..]) == [CALLFUNC];
  }

  /** `if true { print "Hello" }`. */
  function ExampleIf(): Node
  {
    If(Boolean(true), Blocks([Print(Text("Hello"))]), None, false, 0)
  }

  /** `if true { print "Hello" } else { print "Oops." }`. */
  function ExampleIfElse(): Node
  {
    If(Boolean(true), Blocks([Print(Text("Hello"))]), Some(Blocks([Print(Text("Oops."))])), true, 0)
  }

  /** The pieces of the two examples: the condition `true` and the two prints. */
  lemma ExamplePieces(cfg: Config)
    ensures Gen(Boolean(true), cfg, TopLevel) == [Op(PUT), BoolArg(true)]
    ensures Gen(Blocks([Print(Text("Hello"))]), cfg, TopLevel) == [Op(PUT), StrArg("Hello"), Op(CALLFUNC), NullArg]
    ensures Gen(Blocks([Print(Text("Oops."))]), cfg, TopLevel) == [Op(PUT), StrArg("Oops."), Op(CALLFUNC), NullArg]
  {
    PrintTextCode("Hello", cfg, TopLevel);
    PrintTextCode("Oops.", cfg, TopLevel);
  }

  /** `if true { print "Hello" }` at top level: the jump skips the two instructions of the print. */
  lemma SimpleIfExample()
    ensures Gen(ExampleIf(), DefaultConfig(true), TopLevel) ==
            [Op(PUT), BoolArg(true), Op(SKIPIFN), IntArg(2), Op(PUT), StrArg("Hello"), Op(CALLFUNC), NullArg]
  {
    var cfg := DefaultConfig(true);
    var cond, code := [Op(PUT), BoolArg(true)], [Op(PUT), StrArg("Hello"), Op(CALLFUNC), NullArg];
    ExamplePieces(cfg);
    GenIfLayout(Boolean(true), Blocks([Print(Text("Hello"))]), None, false, 0, cfg, TopLevel);
    assert Gen(ExampleIf(), cfg, TopLevel) == IfLayout(cond, code, None, TopLevel);
    PrintTextOpcodes("Hello");
    IfLayoutTopLevel(cond, code, None);
  }

  /**
   * `if true { print "Hello" } else { print "Oops." }` at top level: the
   * conditional jump skips the print and the `SKIP`, which skips the other print.
   */
  lemma IfElseExample()
    ensures Gen(ExampleIfElse(), DefaultConfig(true), TopLevel) ==
            [Op(PUT), BoolArg(true), Op(SKIPIFN), IntArg(3), Op(PUT), StrArg("Hello"), Op(CALLFUNC), NullArg,
             Op(SKIP), IntArg(2), Op(PUT), StrArg("Oops."), Op(CALLFUNC), NullArg]
  {
    var cfg := DefaultConfig(true);
    var cond := [Op(PUT), BoolArg(true)];
    var code, elseCode := [Op(PUT), StrArg("Hello"), Op(CALLFUNC), NullArg], [Op(PUT), StrArg("Oops."), Op(CALLFUNC), NullArg];
    ExamplePieces(cfg);
    GenIfLayout(Boolean(true), Blocks([Print(Text("Hello"))]), Some(Blocks([Print(Text("Oops."))])), true, 0, cfg, TopLevel);
    assert Gen(ExampleIfElse(), cfg, TopLevel) == IfLayout(cond, code, Some(elseCode), TopLevel);
    PrintTextOpcodes("Hello");
    PrintTextOpcodes("Oops.");
    IfLayoutTopLevel(cond, code, Some(elseCode));
  }

  /** The map `{null: "null!", 10.0: "ten!", "ten": 10.0}` used by the examples below. */
  function ExampleMap(): Node
  {
    Map([Entry(Null, Text("null!")), Entry(Number(DoubleNum("10.0")), Text("ten!")),
         Entry(Text("ten"), Number(DoubleNum("10.0")))])
  }

  /** The instructions a disassembler shows for `ExampleMap()`. */
  function ExampleMapInstructions(): seq<Instr>
  {
    [Instr(PUT, 0, NullArg), Instr(PUT, 5, StrArg("null!")), Instr(PUT, 3, DoubleArg("10.0")),
     Instr(PUT, 5, StrArg("ten!")), Instr(PUT, 5, StrArg("ten")), Instr(PUT, 3, DoubleArg("10.0")),
     Instr(CREATE_MAP, 3, IntArg(3))]
  }

  /** Each entry of the example map: key, then value. */
  lemma ExampleEntryCodes(cfg: Config)
    ensures GenEntry(Entry(Null, Text("null!")), cfg, TopLevel) == [Op(PUT), NullArg, Op(PUT), StrArg("null!")]
    ensures GenEntry(Entry(Number(DoubleNum("10.0")), Text("ten!")), cfg, TopLevel) ==
            [Op(PUT), DoubleArg("10.0"), Op(PUT), StrArg("ten!")]
    ensures GenEntry(Entry(Text("ten"), Number(DoubleNum("10.0"))), cfg, TopLevel) ==
            [Op(PUT), StrArg("ten"), Op(PUT), DoubleArg("10.0")]
  {
  }

  /** A map literal is laid out entry by entry, key before value, then CREATE_MAP with the entry count. */
  lemma MapExampleCode()
    ensures Gen(ExampleMap(), DefaultConfig(true), TopLevel) ==
            [Op(PUT), NullArg, Op(PUT), StrArg("null!"), Op(PUT), DoubleArg("10.0"), Op(PUT), StrArg("ten!"),
             Op(PUT), StrArg("ten"), Op(PUT), DoubleArg("10.0"), Op(CREATE_MAP), IntArg(3)]
  {
    var cfg := DefaultConfig(true);
    var e1 := Entry(Null, Text("null!"));
    var e2 := Entry(Number(DoubleNum("10.0")), Text("ten!"));
    var e3 := Entry(Text("ten"), Number(DoubleNum("10.0")));
    var es := [e1, e2, e3];
    assert ExampleMap() == Map(es);
    assert Gen(Map(es), cfg, TopLevel) == GenEntries(es, cfg, TopLevel) + [Op(CREATE_MAP), IntArg(3)];
    ExampleEntryCodes(cfg);
    GenEntriesOfThree(e1, e2, e3, cfg, TopLevel);
  }

  lemma GenEntriesOfThree(e1: Entry, e2: Entry, e3: Entry, cfg: Config, mode: Mode)
    ensures GenEntries([e1, e2, e3], cfg, mode) == GenEntry(e1, cfg, mode) + GenEntry(e2, cfg, mode) + GenEntry(e3, cfg, mode)
  {
    var es := [e1, e2, e3];
    assert es[1..] == [e2, e3] && es[1..][1..] == [e3] && es[1..][1..][1..] == [];
    assert GenEntries(es[1..][1..], cfg, mode) == GenEntry(e3, cfg, mode) + GenEntries([], cfg, mode);
  }

  /** Disassembling the map literal's code shows one instruction per opcode with the operand types. */
  lemma MapExample()
    ensures Walk(Gen(ExampleMap(), DefaultConfig(true), TopLevel)) == ExampleMapInstructions()
  {
    var ins := ExampleMapInstructions();
    MapExampleCode();
    assert forall k :: 0 <= k < |ins| ==> ValidInstr(ins[k]);
    WalkEncode(ins);
    EncodeExample(ins);
  }

  lemma EncodeExample(ins: seq<Instr>)
    requires ins == ExampleMapInstructions()
    ensures Encode(ins) == [Op(PUT), NullArg, Op(PUT), StrArg("null!"), Op(PUT), DoubleArg("10.0"), Op(PUT), StrArg("ten!"),
                            Op(PUT), StrArg("ten"), Op(PUT), DoubleArg("10.0"), Op(CREATE_MAP), IntArg(3)]
  {
    var t := ins;
    assert Encode(t[6..]) == [Op(CREATE_MAP), IntArg(3)] + Encode(t[7..]);
    assert Encode(t[5..]) == [Op(PUT), DoubleArg("10.0")] + Encode(t[6..]);
    assert Encode(t[4..]) == [Op(PUT), StrArg("ten")] + Encode(t[5..]);
    assert Encode(t[3..]) == [Op(PUT), StrArg("ten!")] + Encode(t[4..]);
    assert Encode(t[2..]) == [Op(PUT), DoubleArg("10.0")] + Encode(t[3..]);
    assert Encode(t[1..]) == [Op(PUT), StrArg("null!")] + Encode(t[2..]);
    assert Encode(t) == [Op(PUT), NullArg] + Encode(t[1..]);
  }

  // ---------------------------------------------------------------------
  // Variable reads and top-level loops
  // ---------------------------------------------------------------------

  /**
   * A read without a receiver: a negative id is a parameter, read with
   * `GETPARAM` and its ordinal; a slot id or, for a global, the name is
   * read with `GETVAR`.
   */
  lemma VariableReadInstructions(name: string, id: Option<int>, cfg: Config, mode: Mode)
    ensures id.Some? && id.value < 0 ==>
              Walk(Gen(Variable(name, None, id), cfg, mode)) == [Instr(GETPARAM, 3, IntArg(-id.value))]
    ensures id.Some? && id.value >= 0 ==>
              Walk(Gen(Variable(name, None, id), cfg, mode)) == [Instr(GETVAR, 3, IntArg(id.value))]
    ensures id.None? ==>
              Walk(Gen(Variable(name, None, id), cfg, mode)) == [Instr(GETVAR, 5, StrArg(name))]
  {
    if id.Some? && id.value < 0 {
      WalkPair(GETPARAM, IntArg(-id.value));
    } else {
      WalkPair(GETVAR, VariableOperand(name, id));
    }
  }

  /**
   * The scope tool binds the k-th parameter of a function to -(k+1), so a
   * read of it becomes `GETPARAM k+1`: parameters are numbered from 1.
   */
  lemma ParameterReadInstruction(ps: seq<string>, k: nat, cfg: Config, mode: Mode)
    requires k < |ps|
    requires forall i, j :: 0 <= i < j < |ps| ==> ps[i] != ps[j]
    ensures ps[k] in Scope.ParamIds(ps)
    ensures Walk(Gen(Variable(ps[k], None, Some(Scope.ParamIds(ps)[ps[k]])), cfg, mode)) == [Instr(GETPARAM, 3, IntArg(k + 1))]
  {
    Scope.ParamIdsOrdinal(ps, k);
    VariableReadInstructions(ps[k], Some(-(k + 1)), cfg, mode);
  }

  /**
   * A top-level `while` runs as a recorded body, a recorded condition and
   * the `WHILE` that loops over the two; the markers take no operand.
   */
  lemma TopLevelWhileInstructions(c: Node, body: Node, cfg: Config)
    requires WellFormed(cfg.pop, Recording)
    ensures Walk(Gen(While(c, body), cfg, TopLevel)) ==
            [Instr(REC, 0, NullArg)] + Walk(Gen(body, cfg, Recording)) + [Instr(END, 0, NullArg), Instr(REC, 0, NullArg)] +
            Walk(Gen(c, cfg, Recording)) + [Instr(END, 0, NullArg), Instr(WHILE, 0, NullArg)]
  {
    var code, cond := Gen(body, cfg, Recording), Gen(c, cfg, Recording);
    GenWellFormed(body, cfg, Recording);
    GenWellFormed(c, cfg, Recording);
    assert Gen(While(c, body), cfg, TopLevel) == [Op(REC)] + code + [Op(END), Op(REC)] + cond + [Op(END), Op(WHILE)];
    WalkSingle(REC);
    WalkSingle(END);
    WalkSingle(WHILE);
    WalkTwoSingles(END, REC);
    WalkTwoSingles(END, WHILE);
    WalkThen([Op(REC)], code);
    WalkThen([Op(REC)] + code, [Op(END), Op(REC)]);
    WalkThen([Op(REC)] + code + [Op(END), Op(REC)], cond);
    WalkThen([Op(REC)] + code + [Op(END), Op(REC)] + cond, [Op(END), Op(WHILE)]);
  }

  /** Two parameterless opcodes walk to two instructions without data. */
  lemma WalkTwoSingles(a: Byte, b: Byte)
    requires !NeedsParameter(a as int) && !NeedsParameter(b as int)
    ensures OperandsPresent([Op(a), Op(b)])
    ensures Walk([Op(a), Op(b)]) == [Instr(a, 0, NullArg), Instr(b, 0, NullArg)]
  {
    assert [Op(a), Op(b)][1..] == [Op(b)];
    WalkSingle(b);
  }
}
