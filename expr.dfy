/**
 * The expression tree of the boolean structure editor and its evaluator.
 *
 * A node carries an atom and two optional children. The source type lets any
 * node carry children; the evaluator only looks at them under `And` and `Or`.
 * Evaluation is three-valued: `Some(b)` is a definite boolean and `None` is
 * `undefined` (unknown). The connectives are JavaScript's `||` and `&&` applied
 * to `boolean | undefined`, which are not Kleene's strong connectives.
 */
module Expr {

  import opened Optional

  /** The kinds of node: a constant, a variable, an operator, or a placeholder not yet chosen. */
  datatype Atom = Bool(value: bool) | Var(name: string) | And | Or | ToSelect

  /** A node of the tree; `left` and `right` are absent when the source leaves them `undefined`. */
  datatype Ast = Ast(data: Atom, left: Option<Ast>, right: Option<Ast>)

  /**
   * The variable assignment. A plain map: JavaScript would also find inherited
   * properties such as `toString` on the object, which this model does not.
   */
  type Context = map<string, bool>

  /** JavaScript truthiness of `boolean | undefined`: only `true` is truthy. */
  predicate Truthy(v: Option<bool>) {
    v == Some(true)
  }

  /** `l || r` in JavaScript: the left operand when it is truthy, the right one otherwise. */
  function JsOr(l: Option<bool>, r: Option<bool>): (v: Option<bool>)
    ensures v == Some(true) <==> l == Some(true) || r == Some(true)
    ensures v == Some(false) <==> l != Some(true) && r == Some(false)
    ensures v == None <==> l != Some(true) && r == None
  {
    if Truthy(l) then l else r
  }

  /** `l && r` in JavaScript: the left operand when it is falsy (false or undefined), the right one otherwise. */
  function JsAnd(l: Option<bool>, r: Option<bool>): (v: Option<bool>)
    ensures v == Some(true) <==> l == Some(true) && r == Some(true)
    ensures v == Some(false) <==> l == Some(false) || (l == Some(true) && r == Some(false))
    ensures v == None <==> l == None || (l == Some(true) && r == None)
  {
    if Truthy(l) then r else l
  }

  /**
   * The value of a tree (or of an absent tree) under a context. The case rules
   * are stated by `LeafRules`, `OrRule` and `AndRule`; a complete tree gets
   * the definite value classical logic gives it.
   */
  function Evaluate(tree: Option<Ast>, ctx: Context): (r: Option<bool>)
    ensures Complete(tree, ctx) ==> r == Some(Holds(tree, ctx))
  {
    match tree
    case None => None
    case Some(node) =>
      match node.data
      case Bool(b) => Some(b)
      case Var(x) => if x in ctx then Some(ctx[x]) else None
      case Or => JsOr(Evaluate(node.left, ctx), Evaluate(node.right, ctx))
      case And => JsAnd(Evaluate(node.left, ctx), Evaluate(node.right, ctx))
      case ToSelect => None
  }

  /** A leaf node of the given kind, without children. */
  function Leaf(data: Atom): Option<Ast> {
    Some(Ast(data, None, None))
  }

  /** The variables whose values the evaluator reads: those under `Var` nodes reached through `And`/`Or`. */
  function ReadVars(tree: Option<Ast>): set<string> {
    match tree
    case None => {}
    case Some(node) =>
      match node.data
      case Var(x) => {x}
      case And => ReadVars(node.left) + ReadVars(node.right)
      case Or => ReadVars(node.left) + ReadVars(node.right)
      case _ => {}
  }

  /** Two contexts agree on the names in `names`: the same keys there, with the same values. */
  predicate AgreeOn(c1: Context, c2: Context, names: set<string>) {
    forall x :: x in names ==> (x in c1 <==> x in c2) && (x in c1 ==> c1[x] == c2[x])
  }

  /**
   * A tree the evaluator can decide: every operator has both children, no
   * placeholder remains, and every variable it reads is bound in the context.
   */
  predicate Complete(tree: Option<Ast>, ctx: Context) {
    match tree
    case None => false
    case Some(node) =>
      match node.data
      case Bool(_) => true
      case Var(x) => x in ctx
      case And => Complete(node.left, ctx) && Complete(node.right, ctx)
      case Or => Complete(node.left, ctx) && Complete(node.right, ctx)
      case ToSelect => false
  }

  /** Classical two-valued meaning of a complete tree, with ordinary conjunction and disjunction. */
  function Holds(tree: Option<Ast>, ctx: Context): bool
    requires Complete(tree, ctx)
  {
    var node := tree.value;
    match node.data
    case Bool(b) => b
    case Var(x) => ctx[x]
    case And => Holds(node.left, ctx) && Holds(node.right, ctx)
    case Or => Holds(node.left, ctx) || Holds(node.right, ctx)
  }

  /** Kleene's strong disjunction, for comparison: `true` wins, otherwise any unknown makes it unknown. */
  function KleeneOr(l: Option<bool>, r: Option<bool>): Option<bool> {
    if l == Some(true) || r == Some(true) then Some(true)
    else if l == Some(false) && r == Some(false) then Some(false)
    else None
  }

  /** Kleene's strong conjunction, for comparison: `false` wins, otherwise any unknown makes it unknown. */
  function KleeneAnd(l: Option<bool>, r: Option<bool>): Option<bool> {
    if l == Some(false) || r == Some(false) then Some(false)
    else if l == Some(true) && r == Some(true) then Some(true)
    else None
  }

  // ---------------------------------------------------------------------------
  // Properties of the evaluator

  /**
   * The leaf cases: an absent tree and a placeholder are unknown, a constant is
   * its value, a variable is its binding or unknown; children on a leaf are ignored.
   */
  lemma LeafRules(ctx: Context, b: bool, x: string, l: Option<Ast>, r: Option<Ast>)
    ensures Evaluate(None, ctx) == None
    ensures Evaluate(Some(Ast(ToSelect, l, r)), ctx) == None
    ensures Evaluate(Some(Ast(Bool(b), l, r)), ctx) == Some(b)
    ensures x in ctx ==> Evaluate(Some(Ast(Var(x), l, r)), ctx) == Some(ctx[x])
    ensures x !in ctx ==> Evaluate(Some(Ast(Var(x), l, r)), ctx) == None
  {
  }

  /**
   * `Or`: true when either side is true; otherwise the right side's result, so
   * `unknown || false` is false and `unknown || unknown` is unknown.
   */
  lemma OrRule(ctx: Context, l: Option<Ast>, r: Option<Ast>)
    ensures var v := Evaluate(Some(Ast(Or, l, r)), ctx);
      && (Evaluate(r, ctx) == Some(true) ==> v == Some(true))
      && (Evaluate(l, ctx) == Some(true) ==> v == Some(true))
      && (Evaluate(l, ctx) != Some(true) ==> v == Evaluate(r, ctx))
  {
  }

  /**
   * `And`: the left result when it is false or unknown, otherwise the right
   * result, so `unknown && false` is unknown and `false && unknown` is false.
   */
  lemma AndRule(ctx: Context, l: Option<Ast>, r: Option<Ast>)
    ensures var v := Evaluate(Some(Ast(And, l, r)), ctx);
      && (Evaluate(l, ctx) != Some(true) ==> v == Evaluate(l, ctx))
      && (Evaluate(l, ctx) == Some(true) ==> v == Evaluate(r, ctx))
  {
  }

  /** On definite operands the connectives are ordinary disjunction and conjunction. */
  lemma DefiniteConnectives(a: bool, b: bool)
    ensures JsOr(Some(a), Some(b)) == Some(a || b)
    ensures JsAnd(Some(a), Some(b)) == Some(a && b)
  {
  }

  /** The connectives depart from Kleene logic at exactly one pair of operands: unknown on the left, false on the right. */
  lemma NotKleene(l: Option<bool>, r: Option<bool>)
    ensures JsOr(l, r) != KleeneOr(l, r) <==> l == None && r == Some(false)
    ensures JsAnd(l, r) != KleeneAnd(l, r) <==> l == None && r == Some(false)
  {
    match l {
      case None =>
      case Some(a) =>
    }
    match r {
      case None =>
      case Some(b) =>
    }
  }

  /** Evaluation reads the context only at the variables in `ReadVars`. */
  lemma {:induction false} EvaluateReadsOnlyVars(tree: Option<Ast>, c1: Context, c2: Context)
    requires AgreeOn(c1, c2, ReadVars(tree))
    ensures Evaluate(tree, c1) == Evaluate(tree, c2)
  {
    match tree
    case None =>
    case Some(node) =>
      match node.data
      case Bool(_) =>
      case Var(x) =>
        assert x in ReadVars(tree);
      case And =>
        EvaluateReadsOnlyVars(node.left, c1, c2);
        EvaluateReadsOnlyVars(node.right, c1, c2);
      case Or =>
        EvaluateReadsOnlyVars(node.left, c1, c2);
        EvaluateReadsOnlyVars(node.right, c1, c2);
      case ToSelect =>
  }

  /** The worked examples: constants against a variable missing from the empty context. */
  lemma Examples()
    ensures Evaluate(Some(Ast(Or, Leaf(Bool(true)), Leaf(Var("missing")))), map[]) == Some(true)
    ensures Evaluate(Some(Ast(Or, Leaf(Var("missing")), Leaf(Bool(false)))), map[]) == Some(false)
    ensures Evaluate(Some(Ast(And, Leaf(Bool(false)), Leaf(Var("missing")))), map[]) == Some(false)
    ensures Evaluate(Some(Ast(And, Leaf(Var("missing")), Leaf(Bool(true)))), map[]) == None
    ensures Evaluate(Some(Ast(And, Leaf(Var("missing")), Leaf(Bool(false)))), map[]) == None
    ensures Evaluate(Some(Ast(And, Leaf(Bool(true)), Leaf(Bool(true)))), map[]) == Some(true)
  {
  }
}
