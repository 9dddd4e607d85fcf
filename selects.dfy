/**
 * The per-kind selects shown beside a node whose kind is already chosen: the
 * operator select, the constant select and the variable select. Each replaces
 * the node's atom and keeps the children it had. The variable select also
 * builds its list of options.
 */
module Selects {

  import opened Optional
  import opened Expr

  /** The children of a node, or none when there is no node. */
  function LeftOf(tree: Option<Ast>): Option<Ast> {
    if tree.Some? then tree.value.left else None
  }

  function RightOf(tree: Option<Ast>): Option<Ast> {
    if tree.Some? then tree.value.right else None
  }

  /** `{ ...prevTree, data }`: a node with the given atom and the previous node's children. */
  function WithData(prev: Option<Ast>, data: Atom): Ast {
    Ast(data, LeftOf(prev), RightOf(prev))
  }

  /**
   * The operator select: "and" makes the node a conjunction, any other choice a
   * disjunction, of the children it already had.
   */
  function OpChange(prev: Option<Ast>, choice: string): (r: Ast)
    ensures r.data == (if choice == "and" then And else Or)
    ensures r.left == LeftOf(prev) && r.right == RightOf(prev)
    ensures choice == "and" ==> forall ctx ::
      Evaluate(Some(r), ctx) == JsAnd(Evaluate(LeftOf(prev), ctx), Evaluate(RightOf(prev), ctx))
    ensures choice != "and" ==> forall ctx ::
      Evaluate(Some(r), ctx) == JsOr(Evaluate(LeftOf(prev), ctx), Evaluate(RightOf(prev), ctx))
  {
    WithData(prev, if choice == "and" then And else Or)
  }

  /** The constant select: the node becomes the constant "choice is true", whatever children it keeps. */
  function BoolChange(prev: Option<Ast>, choice: string): (r: Ast)
    ensures r.data.Bool? && r.left == LeftOf(prev) && r.right == RightOf(prev)
    ensures ReadVars(Some(r)) == {}
    ensures forall ctx :: Evaluate(Some(r), ctx) == Some(choice == "true")
  {
    WithData(prev, Bool(choice == "true"))
  }

  /** The variable select: the node reads the chosen variable, unknown when the context lacks it. */
  function VarChange(prev: Option<Ast>, choice: string): (r: Ast)
    ensures r.data.Var? && r.left == LeftOf(prev) && r.right == RightOf(prev)
    ensures ReadVars(Some(r)) == {choice}
    ensures forall ctx :: Evaluate(Some(r), ctx) == if choice in ctx then Some(ctx[choice]) else None
  {
    WithData(prev, Var(choice))
  }

  /** The selects only ever touch the atom: a later choice overrides an earlier one and the children survive both. */
  lemma LastChoiceWins(prev: Option<Ast>, data1: Atom, data2: Atom)
    ensures WithData(Some(WithData(prev, data1)), data2) == WithData(prev, data2)
  {
  }

  // ---------------------------------------------------------------------------
  // The options of the variable select

  predicate Distinct(s: seq<string>) {
    forall i, j :: 0 <= i < j < |s| ==> s[i] != s[j]
  }

  /** `keys` lists the keys of `ctx`, each once (what `Object.keys` returns, in some order). */
  predicate Enumerates(keys: seq<string>, ctx: Context) {
    Distinct(keys) && (forall k :: k in keys ==> k in ctx) && (forall k :: k in ctx ==> k in keys)
  }

  /** `Array.prototype.indexOf`: the first position holding `x`, or -1 when there is none. */
  method IndexOf(s: seq<string>, x: string) returns (i: int)
    ensures -1 <= i < |s|
    ensures i == -1 <==> x !in s
    ensures 0 <= i ==> s[i] == x && x !in s[..i]
  {
    i := 0;
    while i < |s|
      invariant 0 <= i <= |s|
      invariant x !in s[..i]
    {
      if s[i] == x {
        return;
      }
      i := i + 1;
    }
    assert s[..i] == s;
    i := -1;
  }

  /**
   * The option list: the context's keys, with the current choice pushed to the
   * front when it is no longer one of them (so the select still shows it).
   * Every key and the current choice appear, each exactly once.
   */
  method VarOptions(ctx: Context, keys: seq<string>, currChoice: string) returns (options: seq<string>)
    requires Enumerates(keys, ctx)
    ensures currChoice in ctx ==> options == keys
    ensures currChoice !in ctx ==> |options| == |keys| + 1 && options[0] == currChoice && options[1..] == keys
    ensures forall o :: o in options <==> o in ctx || o == currChoice
    ensures Distinct(options)
  {
    options := keys;
    var at := IndexOf(options, currChoice);
    if !(at >= 0) {
      options := [currChoice] + options;
    }
  }
}
