/**
 * The bridge to the native virtual machine (`VMWrapper`): the opcode
 * numbers, which opcodes take an operand, and the walk `run` and
 * `disassemble` share over a generated `Object[]` — each `Byte` is an
 * opcode, an opcode that needs a parameter consumes the next slot, and the
 * operand's Java class picks the type code passed to the VM.
 */
module VMWrapper {
  import opened Base

  /** Java's `byte`. */
  newtype Byte = x: int | -128 <= x < 128

  const PUT: Byte := 1
  const ADD: Byte := 2
  const SUB: Byte := 3
  const MUL: Byte := 4
  const DIV: Byte := 5
  const MOD: Byte := 6
  const POW: Byte := 7
  const SETVAR: Byte := 8
  const GETVAR: Byte := 9
  const DELVAR: Byte := 10
  const REC: Byte := 11
  const END: Byte := 12
  const SKIPIF: Byte := 13
  const SKIPIFN: Byte := 14
  const WHILE: Byte := 15
  const NEQ: Byte := 16
  const EQ: Byte := 17
  const GT: Byte := 18
  const GE: Byte := 19
  const LT: Byte := 20
  const LE: Byte := 21
  const LEQ: Byte := 22
  const AND: Byte := 23
  const OR: Byte := 24
  const B_AND: Byte := 25
  const B_OR: Byte := 26
  const B_NOT: Byte := 27
  const NOT: Byte := 28
  const LSHIFT: Byte := 29
  const RSHIFT: Byte := 30
  const XOR: Byte := 31
  const NEGATE: Byte := 32
  const POP: Byte := 33
  const CREATE_ARR: Byte := 34
  const GET: Byte := 35
  const SET: Byte := 36
  const CREATE_MAP: Byte := 37
  const MKFUNC: Byte := 38
  const CALLFUNC: Byte := 39
  const GETPARAM: Byte := 40
  const CONTINUE: Byte := 41
  const BREAK: Byte := 42
  const RETURN: Byte := 43
  const WHILET: Byte := 44
  const SKIP: Byte := 45
  const CREATE_CLASS: Byte := 46
  const CREATE_INSTANCE: Byte := 47
  const CALLFUNCFROMINS: Byte := 48
  const CALLMETHOD: Byte := 49
  const THIS: Byte := 50
  const GETPTRTOLASTFUNC: Byte := 51
  const IS: Byte := 52
  const INCREASE: Byte := 53
  const DECREASE: Byte := 54
  const INPLACE_MUL: Byte := 55
  const INPLACE_DIV: Byte := 56
  const INPLACE_MOD: Byte := 57
  const INPLACE_POW: Byte := 58
  const INPLACE_AND: Byte := 59
  const INPLACE_OR: Byte := 60
  const INPLACE_LSHIFT: Byte := 61
  const INPLACE_RSHIFT: Byte := 62
  const INPLACE_XOR: Byte := 63
  const DLCALL: Byte := 64

  /** One element of a generated `Object[]`: an opcode or an operand of some Java class. */
  datatype Slot =
    | Op(code: Byte)
    | IntArg(i: int)
    | DoubleArg(d: string)
    | DecimalArg(dec: string)
    | StrArg(s: string)
    | BoolArg(b: bool)
    | NullArg

  /** `needsParameter`: the opcodes that consume the following slot. */
  predicate NeedsParameter(opcode: int)
  {
    opcode == PUT as int || opcode == GETVAR as int || opcode == SETVAR as int || opcode == DELVAR as int ||
    opcode == CREATE_ARR as int || opcode == CREATE_MAP as int || opcode == INCREASE as int ||
    opcode == MKFUNC as int || opcode == CALLFUNC as int || opcode == GETPARAM as int ||
    opcode == SKIPIFN as int || opcode == SKIPIF as int || opcode == SKIP as int ||
    opcode == CREATE_CLASS as int || opcode == CREATE_INSTANCE as int || opcode == CALLFUNCFROMINS as int ||
    opcode == CALLMETHOD as int || opcode == IS as int || opcode == DECREASE as int ||
    opcode == INPLACE_MUL as int || opcode == INPLACE_DIV as int || opcode == INPLACE_MOD as int ||
    opcode == INPLACE_POW as int || opcode == INPLACE_AND as int || opcode == INPLACE_OR as int ||
    opcode == INPLACE_LSHIFT as int || opcode == INPLACE_RSHIFT as int || opcode == INPLACE_XOR as int ||
    opcode == DLCALL as int
  }

  /** Opcodes that stand alone: arithmetic, stack and block markers, and element access. */
  lemma ParameterlessOpcodes()
    ensures forall op :: op in [ADD, POP, REC, END, WHILE, RETURN, GET, SET] ==> !NeedsParameter(op as int)
  {
  }

  /** Every in-place opcode takes the variable to update as its operand. */
  lemma InplaceOpcodesNeedParameter()
    ensures forall op :: op in [INCREASE, DECREASE, INPLACE_MUL, INPLACE_DIV, INPLACE_MOD, INPLACE_POW,
                                INPLACE_AND, INPLACE_OR, INPLACE_LSHIFT, INPLACE_RSHIFT, INPLACE_XOR]
                         ==> NeedsParameter(op as int)
  {
  }

  /** The type code an operand is sent with; opcodes are not operands. */
  function TypeCode(s: Slot): (t: Option<nat>)
    ensures t.None? <==> s.Op?
    ensures t.Some? ==> t.value <= 5
  {
    match s
    case NullArg => Some(0)
    case BoolArg(b) => Some(if b then 1 else 2)
    case IntArg(_) => Some(3)
    case DoubleArg(_) => Some(3)
    case DecimalArg(_) => Some(4)
    case StrArg(_) => Some(5)
    case Op(_) => None
  }

  /** One call of the native `run` / `disassemble`: opcode, type code and data. */
  datatype Instr = Instr(op: Byte, typ: nat, data: Slot)

  /**
   * The walk of `run` and `disassemble`. A non-opcode slot that is not the
   * operand of the opcode before it is skipped; an opcode that needs a
   * parameter at the very end or before a null is sent with type 0; an
   * opcode whose next slot is another opcode is dropped (no branch of the
   * type dispatch matches, and the next opcode is read normally).
   */
  function Walk(s: seq<Slot>): seq<Instr>
    decreases |s|
  {
    if s == [] then []
    else if !s[0].Op? then Walk(s[1..])
    else
      var op := s[0].code;
      if !NeedsParameter(op as int) then [Instr(op, 0, NullArg)] + Walk(s[1..])
      else if |s| == 1 then [Instr(op, 0, NullArg)]
      else if s[1].Op? then Walk(s[1..])
      else [Instr(op, TypeCode(s[1]).value, s[1])] + Walk(s[2..])
  }

  /**
   * `disassemble`: one line per instruction of the walk. The text of each
   * line comes from the native disassembler, so a line is the instruction itself.
   */
  method Disassemble(objects: seq<Slot>) returns (lines: seq<Instr>)
    ensures lines == Walk(objects)
  {
    lines := [];
    var i := 0;
    while i < |objects|
      invariant 0 <= i <= |objects|
      invariant lines + Walk(objects[i..]) == Walk(objects)
      decreases |objects| - i
    {
      assert objects[i..][1..] == objects[i + 1..];
      if objects[i].Op? {
        var op := objects[i].code;
        if NeedsParameter(op as int) {
          if |objects| <= i + 1 || objects[i + 1] == NullArg {
            lines := lines + [Instr(op, 0, NullArg)];
            // the null operand is consumed; at the very end there is nothing left to skip
            if i + 1 < |objects| {
              assert objects[i..][2..] == objects[i + 2..];
              i := i + 1;
            }
          } else if !objects[i + 1].Op? {
            lines := lines + [Instr(op, TypeCode(objects[i + 1]).value, objects[i + 1])];
            assert objects[i..][2..] == objects[i + 2..];
            i := i + 1;
          }
        } else {
          lines := lines + [Instr(op, 0, NullArg)];
        }
      }
      i := i + 1;
    }
  }

  /** The opcode slots of `s`, in order. */
  function Opcodes(s: seq<Slot>): (ops: seq<Byte>)
    ensures |ops| <= |s|
  {
    if s == [] then [] else (if s[0].Op? then [s[0].code] else []) + Opcodes(s[1..])
  }

  /** Every opcode that needs a parameter is followed by an operand (which is not an opcode). */
  predicate OperandsPresent(s: seq<Slot>)
  {
    forall i :: 0 <= i < |s| && s[i].Op? && NeedsParameter(s[i].code as int) ==> i + 1 < |s| && !s[i + 1].Op?
  }

  lemma OperandsPresentConcat(a: seq<Slot>, b: seq<Slot>)
    requires OperandsPresent(a) && OperandsPresent(b)
    ensures OperandsPresent(a + b)
  {
    var s := a + b;
    forall i | 0 <= i < |s| && s[i].Op? && NeedsParameter(s[i].code as int)
      ensures i + 1 < |s| && !s[i + 1].Op?
    {
      if i < |a| {
        assert s[i] == a[i];
        assert s[i + 1] == a[i + 1];
      } else {
        assert s[i] == b[i - |a|];
      }
    }
  }

  lemma OpcodesConcat(a: seq<Slot>, b: seq<Slot>)
    ensures Opcodes(a + b) == Opcodes(a) + Opcodes(b)
  {
    if a != [] {
      assert (a + b)[1..] == a[1..] + b;
      OpcodesConcat(a[1..], b);
    } else {
      assert a + b == b;
    }
  }

  /** Dropping a prefix keeps every operand present. */
  lemma OperandsPresentSuffix(s: seq<Slot>, k: nat)
    requires OperandsPresent(s) && k <= |s|
    ensures OperandsPresent(s[k..])
  {
    forall i | 0 <= i < |s[k..]| && s[k..][i].Op? && NeedsParameter(s[k..][i].code as int)
      ensures i + 1 < |s[k..]| && !s[k..][i + 1].Op?
    {
      assert s[k..][i] == s[i + k];
    }
  }

  /** When every operand is present, the walk issues exactly one instruction per opcode, in order. */
  lemma {:induction false} WalkOnePerOpcode(s: seq<Slot>)
    requires OperandsPresent(s)
    ensures |Walk(s)| == |Opcodes(s)|
    ensures forall k :: 0 <= k < |Walk(s)| ==> Walk(s)[k].op == Opcodes(s)[k]
    decreases |s|
  {
    if s != [] {
      OperandsPresentSuffix(s, 1);
      assert Opcodes(s) == (if s[0].Op? then [s[0].code] else []) + Opcodes(s[1..]);
      if !s[0].Op? {
        WalkOnePerOpcode(s[1..]);
        assert Walk(s) == Walk(s[1..]);
      } else if !NeedsParameter(s[0].code as int) {
        WalkOnePerOpcode(s[1..]);
        assert Walk(s) == [Instr(s[0].code, 0, NullArg)] + Walk(s[1..]);
        OpsCons(Instr(s[0].code, 0, NullArg), Walk(s[1..]), Opcodes(s[1..]));
      } else {
        assert 1 < |s| && !s[1].Op?;
        OperandsPresentSuffix(s, 2);
        WalkOnePerOpcode(s[2..]);
        assert Walk(s) == [Instr(s[0].code, TypeCode(s[1]).value, s[1])] + Walk(s[2..]);
        assert Opcodes(s[1..]) == Opcodes(s[2..]) by {
          assert s[1..][1..] == s[2..];
        }
        OpsCons(Instr(s[0].code, TypeCode(s[1]).value, s[1]), Walk(s[2..]), Opcodes(s[2..]));
      }
    }
  }

  /** Putting an instruction in front of a walk and its opcode in front of the opcodes keeps them in step. */
  lemma OpsCons(x: Instr, w: seq<Instr>, ops: seq<Byte>)
    requires |w| == |ops| && forall k :: 0 <= k < |w| ==> w[k].op == ops[k]
    ensures |[x] + w| == |[x.op] + ops|
    ensures forall k :: 0 <= k < |[x] + w| ==> ([x] + w)[k].op == ([x.op] + ops)[k]
  {
  }

  /** A well-formed instruction: the operand's type code matches, and parameterless opcodes carry nothing. */
  predicate ValidInstr(ins: Instr)
  {
    !ins.data.Op? &&
    (NeedsParameter(ins.op as int) ==> TypeCode(ins.data) == Some(ins.typ)) &&
    (!NeedsParameter(ins.op as int) ==> ins.data == NullArg && ins.typ == 0)
  }

  /** Lays instructions out as an `Object[]`: the opcode, then its operand if it takes one. */
  function Encode(ins: seq<Instr>): (s: seq<Slot>)
  {
    if ins == [] then []
    else
      var head := if NeedsParameter(ins[0].op as int) then [Op(ins[0].op), ins[0].data] else [Op(ins[0].op)];
      head + Encode(ins[1..])
  }

  /** Laying out valid instructions and walking the result gives them back. */
  lemma {:induction false} WalkEncode(ins: seq<Instr>)
    requires forall k :: 0 <= k < |ins| ==> ValidInstr(ins[k])
    ensures Walk(Encode(ins)) == ins
    decreases |ins|
  {
    if ins != [] {
      WalkEncode(ins[1..]);
      var s := Encode(ins);
      if NeedsParameter(ins[0].op as int) {
        assert s[2..] == Encode(ins[1..]);
      } else {
        assert s[1..] == Encode(ins[1..]);
      }
    }
  }

  /** Code in which every slot is an opcode or the operand right after one that needs it. */
  predicate Canonical(s: seq<Slot>)
    decreases |s|
  {
    if s == [] then true
    else if !s[0].Op? then false
    else if NeedsParameter(s[0].code as int) then |s| >= 2 && !s[1].Op? && Canonical(s[2..])
    else Canonical(s[1..])
  }

  /** Walking canonical code and laying the instructions out again gives the code back. */
  lemma {:induction false} EncodeWalk(s: seq<Slot>)
    requires Canonical(s)
    ensures Encode(Walk(s)) == s
    ensures forall k :: 0 <= k < |Walk(s)| ==> ValidInstr(Walk(s)[k])
    decreases |s|
  {
    if s != [] {
      if NeedsParameter(s[0].code as int) {
        EncodeWalk(s[2..]);
        assert s == [s[0], s[1]] + s[2..];
      } else {
        EncodeWalk(s[1..]);
        assert s == [s[0]] + s[1..];
      }
    }
  }

  /** Walking a complete piece of code followed by more code walks each in turn. */
  lemma {:induction false} WalkSkipsTail(a: seq<Slot>, b: seq<Slot>)
    requires OperandsPresent(a)
    ensures Walk(a + b) == Walk(a) + Walk(b)
    decreases |a|
  {
    if a == [] {
      assert a + b == b;
    } else {
      assert (a + b)[1..] == a[1..] + b;
      assert OperandsPresent(a[1..]) by {
        forall i | 0 <= i < |a[1..]| && a[1..][i].Op? && NeedsParameter(a[1..][i].code as int)
          ensures i + 1 < |a[1..]| && !a[1..][i + 1].Op?
        {
          assert a[1..][i] == a[i + 1];
        }
      }
      if a[0].Op? && NeedsParameter(a[0].code as int) {
        assert (a + b)[2..] == a[2..] + b;
        assert OperandsPresent(a[2..]) by {
          forall i | 0 <= i < |a[2..]| && a[2..][i].Op? && NeedsParameter(a[2..][i].code as int)
            ensures i + 1 < |a[2..]| && !a[2..][i + 1].Op?
          {
            assert a[2..][i] == a[i + 2];
          }
        }
        WalkSkipsTail(a[2..], b);
      } else {
        WalkSkipsTail(a[1..], b);
      }
    }
  }
}
