/**
 * The byte-code back end (`VMByteCodeGenerator`): turns an annotated syntax
 * tree into the flat `Object[]` the virtual machine runs. Inside a recorded
 * block (a loop body or a function) jump offsets count raw slots; at top
 * level they count opcodes only. The generator object's `recording` flag is
 * the `Mode` parameter here.
 */
module VMByteCodeGenerator {
  import opened Base
  import opened SyntaxTree
  import opened VMWrapper

  /** Whether the code being generated goes into a recorded block (`recording`). */
  datatype Mode = TopLevel | Recording

  /** The generator's configuration: what it emits to drop an unneeded result (`OPCODE_POP`). */
  datatype Config = Config(pop: seq<Slot>)

  /** `new VMByteCodeGenerator()` and `new VMByteCodeGenerator(generatePops)`. */
  function DefaultConfig(generatePops: bool): (c: Config)
    ensures generatePops ==> c.pop == [Op(POP)]
    ensures !generatePops ==> c.pop == []
  {
    Config(if generatePops then [Op(POP)] else [])
  }

  /** `sizeof`: raw slots when recording, otherwise only the opcodes are counted. */
  function Sizeof(code: seq<Slot>, mode: Mode): (n: nat)
    ensures n <= |code|
    ensures mode == Recording ==> n == |code|
  {
    if mode == Recording then |code| else |Opcodes(code)|
  }

  /** The opcode of each operator class. */
  function OpcodeOf(k: OpKind): Byte
  {
    match k
    case Add => ADD
    case Sub => SUB
    case Mul => MUL
    case Div => DIV
    case Mod => MOD
    case Pow => POW
    case Equals => EQ
    case NotEquals => NEQ
    case LooksEquals => LEQ
    case GreaterThan => GT
    case LesserThan => LT
    case GreaterThanOrEqual => GE
    case LesserThanOrEqual => LE
    case And => AND
    case Or => OR
    case BitwiseAnd => B_AND
    case BitwiseOr => B_OR
    case LeftShift => LSHIFT
    case RightShift => RSHIFT
    case Xor => XOR
    case Negative => NEGATE
    case Not => NOT
    case BitwiseNot => B_NOT
  }

  /** The compound-assignment opcode of each operator class, with `**` updating in place through `INPLACE_POW`. */
  function InplaceOpcode(k: OpKind): Option<Byte>
  {
    match k
    case Add => Some(INCREASE)
    case Sub => Some(DECREASE)
    case Mul => Some(INPLACE_MUL)
    case Div => Some(INPLACE_DIV)
    case Mod => Some(INPLACE_MOD)
    case Pow => Some(INPLACE_POW)
    case BitwiseAnd => Some(INPLACE_AND)
    case BitwiseOr => Some(INPLACE_OR)
    case LeftShift => Some(INPLACE_LSHIFT)
    case RightShift => Some(INPLACE_RSHIFT)
    case Xor => Some(INPLACE_XOR)
    case _ => None
  }

  /** The compound-assignment opcodes as `generatePow` passes them: `POW` for both roles. */
  function InplaceOpcodeAsWritten(k: OpKind): Option<Byte>
  {
    if k == Pow then Some(POW) else InplaceOpcode(k)
  }

  /** Exactly the arithmetic, bitwise and shift operators have a compound form, and each takes its variable as operand. */
  lemma InplaceOpcodeSpec(k: OpKind)
    ensures InplaceOpcode(k).Some? <==>
            k in {Add, Sub, Mul, Div, Mod, Pow, BitwiseAnd, BitwiseOr, LeftShift, RightShift, Xor}
    ensures InplaceOpcode(k).Some? ==> NeedsParameter(InplaceOpcode(k).value as int)
    ensures InplaceOpcode(k).Some? ==> InplaceOpcode(k).value != OpcodeOf(k)
  {
  }

  /** The operand naming a variable: its scope id when it has one, else its name. */
  function VariableOperand(name: string, id: Option<int>): (s: Slot)
    ensures !s.Op?
  {
    if id.Some? then IntArg(id.value) else StrArg(name)
  }

  /** The assignment's value was compiled to a compound opcode that already stores the result. */
  predicate StoresInPlace(v: Node)
  {
    v.Operator? && v.inplace.Some? && InplaceOpcode(v.kind).Some?
  }

  /** The test `generateSetVariable` uses: the value carries an `inplace` tag at all. */
  predicate StoresInPlaceAsWritten(v: Node)
  {
    v.Operator? && v.inplace.Some?
  }

  /** The method name a class registers for a member function: `#name`, or `<init>` for the constructor. */
  function MemberKey(f: string): string
  {
    ReplaceAll("#" + f, "#<init>", "<init>")
  }

  lemma MemberKeySpec(f: string)
    ensures f == "<init>" ==> MemberKey(f) == "<init>"
    ensures '<' !in f ==> MemberKey(f) == "#" + f
  {
    if f == "<init>" {
      var s := "#" + f;
      assert s[..7] == "#<init>";
      assert s[7..] == "";
      assert ReplaceAll(s, "#<init>", "<init>") == "<init>" + ReplaceAll("", "#<init>", "<init>");
    }
    if '<' !in f {
      ReplaceAbsent("#" + f, "#<init>", "<init>", '<');
    }
  }

  /** Code for one node (`evaluate` with this generator). */
  function Gen(n: Node, cfg: Config, mode: Mode): (code: seq<Slot>)
    ensures n.Blocks? || code != []
    decreases n, 1
  {
    match n
    case Number(p) =>
      [Op(PUT), if p.DoubleNum? then DoubleArg(p.d) else DecimalArg(p.dec)]
    case Text(s) => [Op(PUT), StrArg(s)]
    case Boolean(b) => [Op(PUT), BoolArg(b)]
    case Null => [Op(PUT), NullArg]
    case List(items) => GenReversed(items, cfg, mode) + [Op(CREATE_ARR), IntArg(|items|)]
    case Map(entries) => GenEntries(entries, cfg, mode) + [Op(CREATE_MAP), IntArg(|entries|)]
    case Variable(name, inst, id) =>
      if inst.Some? then GenOpt(inst, cfg, mode) + [Op(PUT), StrArg(name), Op(GET)]
      else if id.Some? && id.value < 0 then [Op(GETPARAM), IntArg(-id.value)]
      else [Op(GETVAR), VariableOperand(name, id)]
    case Operator(k, v1, v2, tag) =>
      if InplaceOpcode(k).Some? && tag.Some? then Gen(v2, cfg, mode) + [Op(InplaceOpcode(k).value), StrArg(tag.value)]
      else Gen(v1, cfg, mode) + Gen(v2, cfg, mode) + [Op(OpcodeOf(k))]
    case CallFunction(f, args, r) =>
      GenSeq(args, cfg, mode) +
      (if r.Some? then GenOpt(r, cfg, mode) + [Op(CALLMETHOD), StrArg("#" + f)] else [Op(CALLFUNC), StrArg(f)])
    case New(c, args) => GenSeq(args, cfg, mode) + [Op(CREATE_INSTANCE), StrArg(c)]
    case This => [Op(THIS)]
    case Super => [Op(THIS), Op(PUT), BoolArg(true), Op(GET)]
    case SetVariable(name, v, _, inst, id) =>
      if inst.Some? then GenOpt(inst, cfg, mode) + [Op(PUT), StrArg(name)] + Gen(v, cfg, mode) + [Op(SET), Op(POP)]
      else Gen(v, cfg, mode) + (if StoresInPlace(v) then [] else [Op(SETVAR), VariableOperand(name, id)])
    case Print(m) => Gen(m, cfg, mode) + [Op(CALLFUNC), NullArg]
    case If(c, body, els, _, _) =>
      IfLayout(Gen(c, cfg, mode), Gen(body, cfg, mode), if els.Some? then Some(Gen(els.value, cfg, mode)) else None, mode)
    case While(c, body) =>
      var code := Gen(body, cfg, Recording);
      var cond := Gen(c, cfg, Recording);
      if mode == Recording then
        Patch(NestedWhileLayout(code, cond), |cond|)
      else [Op(REC)] + code + [Op(END), Op(REC)] + cond + [Op(END), Op(WHILE)]
    case Function(name, params, body) => GenFunction(name, params, body, cfg)
    case Return(v) => Gen(v, cfg, mode) + [Op(RETURN)]
    case Continue => if mode == Recording then [Op(CONTINUE), NullArg] else [Op(CONTINUE)]
    case Break => if mode == Recording then [Op(BREAK), NullArg] else [Op(BREAK)]
    case Blocks(bs) => GenStatements(bs, cfg, mode)
    case Free(name, id) => [Op(DELVAR), VariableOperand(name, id)]
    case Class(name, parent, members) =>
      var (code, items) := GenMembers(members, name, cfg, mode);
      code +
      (if parent.Some? then [Op(PUT), BoolArg(false), Op(PUT), StrArg(parent.value)] else []) +
      [Op(CREATE_MAP), IntArg(items + (if parent.Some? then 1 else 0)), Op(CREATE_CLASS), StrArg(name)]
  }

  /**
   * `generateIf` on generated pieces: the condition, a `SKIPIFN` over the
   * then-branch, the then-branch, and with an else branch a `SKIP` over it,
   * which the `SKIPIFN` also jumps over.
   */
  function IfLayout(cond: seq<Slot>, code: seq<Slot>, elseCode: Option<seq<Slot>>, mode: Mode): seq<Slot>
  {
    if elseCode.None? then cond + [Op(SKIPIFN), IntArg(Sizeof(code, mode))] + code
    else
      var skip := [Op(SKIP), IntArg(Sizeof(elseCode.value, mode))];
      cond + [Op(SKIPIFN), IntArg(Sizeof(code, mode) + Sizeof(skip, mode))] + code + skip + elseCode.value
  }

  /** `generateFunc`: the body is recorded, then the argument count and the name make the function. */
  function GenFunction(name: string, params: seq<string>, body: Node, cfg: Config): (code: seq<Slot>)
    decreases body, 2
  {
    [Op(REC)] + Gen(body, cfg, Recording) + [Op(END), Op(PUT), IntArg(|params|), Op(MKFUNC), StrArg(name)]
  }

  function GenOpt(o: Option<Node>, cfg: Config, mode: Mode): seq<Slot>
    decreases o, 0
  {
    if o.Some? then Gen(o.value, cfg, mode) else []
  }

  /** Arguments in order. */
  function GenSeq(ns: seq<Node>, cfg: Config, mode: Mode): seq<Slot>
    decreases ns, 0
  {
    if ns == [] then [] else Gen(ns[0], cfg, mode) + GenSeq(ns[1..], cfg, mode)
  }

  /** List items, each one's code put in front of the previous ones (`addAll(0, ...)`). */
  function GenReversed(ns: seq<Node>, cfg: Config, mode: Mode): seq<Slot>
    decreases ns, 0
  {
    if ns == [] then [] else GenReversed(ns[1..], cfg, mode) + Gen(ns[0], cfg, mode)
  }

  /** Map entries in iteration order, each key followed by its value. */
  function GenEntries(es: seq<Entry>, cfg: Config, mode: Mode): seq<Slot>
    decreases es, 0
  {
    if es == [] then [] else GenEntry(es[0], cfg, mode) + GenEntries(es[1..], cfg, mode)
  }

  function GenEntry(e: Entry, cfg: Config, mode: Mode): seq<Slot>
    decreases e, 0
  {
    Gen(e.key, cfg, mode) + Gen(e.val, cfg, mode)
  }

  /** A statement of a `Blocks`; a value used as a statement has its result popped. */
  function GenStatement(n: Node, cfg: Config, mode: Mode): seq<Slot>
    decreases n, 2
  {
    if IsValue(n) then Gen(n, cfg, mode) + cfg.pop else Gen(n, cfg, mode)
  }

  function GenStatements(ns: seq<Node>, cfg: Config, mode: Mode): seq<Slot>
    decreases ns, 0
  {
    if ns == [] then [] else GenStatement(ns[0], cfg, mode) + GenStatements(ns[1..], cfg, mode)
  }

  /**
   * The members of a class: declared fields as name/value pairs, member
   * functions renamed `Class#name` and registered under `MemberKey`; other
   * statements are ignored. Also returns how many members were emitted.
   */
  function GenMembers(ms: seq<Node>, className: string, cfg: Config, mode: Mode): (r: (seq<Slot>, nat))
    ensures r.1 <= |ms|
    decreases ms, 0
  {
    if ms == [] then ([], 0)
    else
      var (rest, k) := GenMembers(ms[1..], className, cfg, mode);
      match ms[0]
      case SetVariable(name, v, true, _, _) =>
        ([Op(PUT), StrArg(name)] + Gen(v, cfg, mode) + rest, k + 1)
      case Function(f, params, body) =>
        (GenFunction(className + "#" + f, params, body, cfg) + [Op(PUT), StrArg(MemberKey(f)), Op(GETPTRTOLASTFUNC)] + rest, k + 1)
      case _ => (rest, k)
  }

  /** `generate` after the tools ran: a root value's result is unneeded and popped. */
  function GenerateRoot(root: Node, cfg: Config): seq<Slot>
  {
    GenStatement(root, cfg, TopLevel)
  }

  // ---------------------------------------------------------------------
  // The generator as written, where it departs from the model above
  // ---------------------------------------------------------------------

  /** `generateOperator` with the opcode pairs as written, `**` passing `POW` for both roles. */
  function GenOperatorAsWritten(k: OpKind, v1: Node, v2: Node, tag: Option<string>, cfg: Config, mode: Mode): seq<Slot>
  {
    if InplaceOpcodeAsWritten(k).Some? && tag.Some? then Gen(v2, cfg, mode) + [Op(InplaceOpcodeAsWritten(k).value), StrArg(tag.value)]
    else Gen(v1, cfg, mode) + Gen(v2, cfg, mode) + [Op(OpcodeOf(k))]
  }

  /** `generateSetVariable` as written: any `inplace` tag on the value suppresses the store. */
  function GenSetVariableAsWritten(name: string, v: Node, id: Option<int>, cfg: Config, mode: Mode): seq<Slot>
  {
    Gen(v, cfg, mode) + (if StoresInPlaceAsWritten(v) then [] else [Op(SETVAR), VariableOperand(name, id)])
  }

  /** `generateIf` as written: with an else branch the `SKIPIFN` operand is widened by one in either mode. */
  function IfLayoutAsWritten(cond: seq<Slot>, code: seq<Slot>, elseCode: Option<seq<Slot>>, mode: Mode): seq<Slot>
  {
    if elseCode.None? then cond + [Op(SKIPIFN), IntArg(Sizeof(code, mode))] + code
    else
      cond + [Op(SKIPIFN), IntArg(Sizeof(code, mode) + 1)] + code +
      [Op(SKIP), IntArg(Sizeof(elseCode.value, mode))] + elseCode.value
  }

  /** Whether generating `n` runs `generateFunc`, which leaves the `recording` flag off. */
  predicate DefinesFunction(n: Node)
    decreases n, 1
  {
    match n
    case Function(_, _, _) => true
    case Blocks(bs) => DefinesFunctionIn(bs)
    case If(_, code, els, _, _) => DefinesFunction(code) || (els.Some? && DefinesFunction(els.value))
    case While(_, body) => DefinesFunction(body)
    case Class(_, _, ms) => DefinesFunctionIn(ms)
    case _ => false
  }

  predicate DefinesFunctionIn(ns: seq<Node>)
    decreases ns, 0
  {
    exists i :: 0 <= i < |ns| && DefinesFunction(ns[i])
  }

  /**
   * A statement sequence as written: `generateFunc` switches `recording` off
   * instead of restoring it, so every statement after one that defines a
   * function is generated as top-level code, even inside a recorded block.
   */
  function GenStatementsAsWritten(ns: seq<Node>, cfg: Config, mode: Mode): seq<Slot>
  {
    if ns == [] then []
    else
      var next := if DefinesFunction(ns[0]) then TopLevel else mode;
      GenStatement(ns[0], cfg, mode) + GenStatementsAsWritten(ns[1..], cfg, next)
  }

  // ---------------------------------------------------------------------
  // Loop jumps inside a recorded block
  // ---------------------------------------------------------------------

  /** The unpatched code of a nested `while`: entry jump, body, condition, closing jump. */
  function NestedWhileLayout(code: seq<Slot>, cond: seq<Slot>): (raw: seq<Slot>)
    ensures |raw| == |code| + |cond| + 4
  {
    [Op(SKIP), IntArg(|code|)] + code + cond + [Op(SKIPIF), IntArg(-(|code| + |cond| + 2))]
  }

  /**
   * The back-patching pass of a nested `while`: from slot `i` on, each
   * `CONTINUE` becomes `SKIP` to the condition and each `BREAK` becomes
   * `SKIP` past the loop; `condLen` is the length of the condition's code.
   */
  function PatchFrom(res: seq<Slot>, i: nat, condLen: nat): (r: seq<Slot>)
    ensures |r| == |res|
    decreases |res| - i
  {
    if i >= |res| then res
    else if res[i] == Op(CONTINUE) && i + 1 < |res| then
      PatchFrom(res[i := Op(SKIP)][i + 1 := IntArg(|res| - i - condLen - 4)], i + 1, condLen)
    else if res[i] == Op(BREAK) && i + 1 < |res| then
      PatchFrom(res[i := Op(SKIP)][i + 1 := IntArg(|res| - i - 2)], i + 1, condLen)
    else PatchFrom(res, i + 1, condLen)
  }

  function Patch(res: seq<Slot>, condLen: nat): (r: seq<Slot>)
    ensures |r| == |res|
  {
    PatchFrom(res, 0, condLen)
  }
}
