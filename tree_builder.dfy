/**
 * The edits of a placeholder node: choosing its kind and deleting a node back
 * to a placeholder. Choosing a kind also resets the builder's child states;
 * the model gives the node the handler means: the new atom with those child
 * states. After "and"/"or" the parent's copy lacks the left placeholder
 * (`ParentCopyAfterOperator`).
 */
module TreeBuilder {

  import opened Optional
  import opened Expr
  import Selects

  /**
   * The kind select of a placeholder. "constant" makes the constant true,
   * "argument" the first variable of the context, "and" and "or" an operator
   * over two fresh placeholders; any other choice (the "select..." prompt)
   * leaves the node as it is. `None` is the one case the source cannot express
   * as a node: "argument" on an empty context, where it names an undefined
   * variable.
   */
  function SelectKind(current: Ast, choice: string, ctx: Context, keys: seq<string>): (r: Option<Ast>)
    requires Selects.Enumerates(keys, ctx)
    ensures r.None? <==> choice == "argument" && ctx == map[]
    ensures choice == "constant" ==>
      r == Leaf(Bool(true)) && Complete(r, ctx) && forall c :: Evaluate(r, c) == Some(true)
    ensures choice == "argument" && r.Some? ==>
      r == Leaf(Var(keys[0])) && keys[0] in ctx && Complete(r, ctx) && Evaluate(r, ctx) == Some(ctx[keys[0]])
    ensures choice == "and" || choice == "or" ==>
      && r.Some? && r.value.data == (if choice == "and" then And else Or)
      && r.value.left == Leaf(ToSelect) && r.value.right == Leaf(ToSelect)
      && forall c :: Evaluate(r, c) == None
    ensures choice !in {"constant", "argument", "and", "or"} ==> r == Some(current)
  {
    if choice == "constant" then Leaf(Bool(true))
    else if choice == "argument" then
      if |keys| == 0 then
        None
      else
        assert keys[0] in ctx;
        Leaf(Var(keys[0]))
    else if choice == "and" then Some(Ast(And, Leaf(ToSelect), Leaf(ToSelect)))
    else if choice == "or" then Some(Ast(Or, Leaf(ToSelect), Leaf(ToSelect)))
    else Some(current)
  }

  /** The delete button: the node becomes a childless placeholder, which is unknown under every context. */
  function Deleted(): (r: Ast)
    ensures r.data == ToSelect && r.left.None? && r.right.None?
    ensures forall c :: Evaluate(Some(r), c) == None
  {
    Ast(ToSelect, None, None)
  }

  /**
   * Choosing an operator and then filling both of its placeholders with
   * complete trees gives the classical conjunction or disjunction of the two.
   */
  lemma FilledOperatorIsClassical(current: Ast, choice: string, ctx: Context, keys: seq<string>, l: Option<Ast>, r: Option<Ast>)
    requires Selects.Enumerates(keys, ctx)
    requires choice == "and" || choice == "or"
    requires Complete(l, ctx) && Complete(r, ctx)
    ensures var op := SelectKind(current, choice, ctx, keys).value.data;
      var filled := Some(Ast(op, l, r));
      Evaluate(filled, ctx) ==
        Some(if choice == "and" then Holds(l, ctx) && Holds(r, ctx) else Holds(l, ctx) || Holds(r, ctx))
  {
  }

  /**
   * After "and" or "or" the two child-slot effects each copy the same
   * render-time node into the parent, so the parent keeps only the right
   * placeholder. That copy and the intended node over two placeholders are
   * both unknown under every context: an absent child and a placeholder are
   * both unknown.
   */
  lemma ParentCopyAfterOperator(op: Atom, c: Context)
    requires op == And || op == Or
    ensures Evaluate(Some(Ast(op, None, Leaf(ToSelect))), c) == None
    ensures Evaluate(Some(Ast(op, Leaf(ToSelect), Leaf(ToSelect))), c) == None
  {
  }
}
