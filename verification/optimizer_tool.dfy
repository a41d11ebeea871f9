/**
 * `OptimizerTool`: tags the operator of an assignment `x = x op e` with
 * `inplace = x`, so that the generator can emit a compound opcode in place
 * of a load, an operation and a store. The tag is kept as a map from the
 * operator's path to the variable name; only `processBlock` does anything.
 */
module OptimizerTool {
  import opened Base
  import opened SyntaxTree
  import opened TreePaths

  /** The child index of an assignment's value: after its receiver, if it has one. */
  function ValueSlot(sv: Node): (k: nat)
    requires sv.SetVariable?
    ensures k < |Children(sv)| && Children(sv)[k] == sv.value
  {
    if sv.setInstance.Some? then 1 else 0
  }

  /**
   * `x = op(x, e)`: the assigned value is an operator whose left operand is
   * a variable of the assigned name. Any `Operator` qualifies, comparisons
   * and logical operators included.
   */
  predicate SelfUpdate(n: Node)
  {
    n.SetVariable? && n.value.Operator? && n.value.value1.Variable? && n.value.value1.name == n.target
  }

  /** `OptimizerTool.processBlock(block, parent)` for the block at `at`. */
  function ProcessBlock(root: Node, tags: map<Path, string>, at: Path): (r: map<Path, string>)
    ensures r.Keys <= tags.Keys + {at + [0], at + [1]}
  {
    match At(root, at)
    case None => tags
    case Some(n) => if SelfUpdate(n) then tags[at + [ValueSlot(n)] := n.target] else tags
  }

  /**
   * A tag is added exactly for a self-update, on the path of the
   * assignment's operator, and names the variable that is both assigned and
   * the operator's left operand; every other tag is left as it was.
   */
  lemma TagIff(root: Node, tags: map<Path, string>, at: Path)
    ensures var r := ProcessBlock(root, tags, at);
            (At(root, at).Some? && SelfUpdate(At(root, at).value)) ==>
              var n := At(root, at).value;
              var q := at + [ValueSlot(n)];
              q in r && r[q] == n.target && At(root, q) == Some(n.value) &&
              n.value.value1.name == r[q] &&
              forall p :: p != q ==> (p in r <==> p in tags) && (p in tags ==> r[p] == tags[p])
    ensures (At(root, at).None? || !SelfUpdate(At(root, at).value)) ==> ProcessBlock(root, tags, at) == tags
  {
    if At(root, at).Some? && SelfUpdate(At(root, at).value) {
      AtSnoc(root, at, ValueSlot(At(root, at).value));
    }
  }

  /** The converse: any change the hook makes is the tag of a self-update's operator. */
  lemma TagOnlyForSelfUpdate(root: Node, tags: map<Path, string>, at: Path, q: Path)
    requires q in ProcessBlock(root, tags, at)
    requires q !in tags || ProcessBlock(root, tags, at)[q] != tags[q]
    ensures At(root, at).Some? && SelfUpdate(At(root, at).value)
    ensures At(root, q).Some? && At(root, q).value.Operator?
    ensures At(root, q).value.value1.Variable? && At(root, q).value.value1.name == ProcessBlock(root, tags, at)[q]
  {
    TagIff(root, tags, at);
  }

  /** `i = i < 10` is tagged like `i = i + 1`: the test only asks for an `Operator`. */
  lemma ComparisonIsTagged(root: Node, at: Path)
    requires At(root, at) == Some(SetVariable("i", Operator(LesserThan, Variable("i", None, None), Number(DoubleNum("10")), None), false, None, None))
    ensures at + [0] in ProcessBlock(root, map[], at) && ProcessBlock(root, map[], at)[at + [0]] == "i"
  {
  }
}
