/**
 * The edits the context panel makes to the variable assignment. Each one
 * builds a new context from the previous one (the source spreads the old
 * object into a fresh one), so each is a function on maps.
 */
module ContextView {

  import opened Optional
  import opened Expr

  /**
   * Typing a new name for the variable `from`: its value moves to `to` and
   * `from` disappears. An entry already named `to` is overwritten. The panel
   * shows one editor per key of the context, so `from` is always a key.
   */
  function Rename(ctx: Context, from: string, to: string): (r: Context)
    requires from in ctx
    ensures to in r && r[to] == ctx[from]
    ensures from != to ==> from !in r
    ensures r.Keys == ctx.Keys - {from} + {to}
    ensures forall x :: x in r && x != to ==> x in ctx && r[x] == ctx[x]
  {
    (ctx - {from})[to := ctx[from]]
  }

  /** Choosing "true" or "false" for `name`: the entry becomes whether the choice was "true"; nothing else changes. */
  function SetValue(ctx: Context, name: string, choice: string): (r: Context)
    ensures name in r && r[name] == (choice == "true")
    ensures r.Keys == ctx.Keys + {name}
    ensures forall x :: x in ctx && x != name ==> r[x] == ctx[x]
  {
    ctx[name := choice == "true"]
  }

  /** Pressing the remove button of `name`: exactly that entry goes. */
  function Remove(ctx: Context, name: string): (r: Context)
    ensures name !in r
    ensures r.Keys == ctx.Keys - {name}
    ensures forall x :: x in r ==> r[x] == ctx[x]
  {
    ctx - {name}
  }

  /** Renaming to a fresh name keeps the number of variables; renaming onto another existing name loses one. */
  lemma RenameSize(ctx: Context, from: string, to: string)
    requires from in ctx
    ensures to !in ctx || to == from ==> |Rename(ctx, from, to)| == |ctx|
    ensures to in ctx && to != from ==> |Rename(ctx, from, to)| == |ctx| - 1
  {
    var r := Rename(ctx, from, to);
    assert r.Keys == ctx.Keys - {from} + {to};
    if to !in ctx {
      assert |ctx.Keys - {from}| == |ctx.Keys| - 1;
    } else if to == from {
      assert r.Keys == ctx.Keys;
    } else {
      assert r.Keys == ctx.Keys - {from};
    }
  }

  /** Renaming to a name not yet in use and back again restores the context. */
  lemma RenameRoundTrip(ctx: Context, from: string, to: string)
    requires from in ctx
    requires to !in ctx || to == from
    ensures Rename(Rename(ctx, from, to), to, from) == ctx
  {
    var back := Rename(Rename(ctx, from, to), to, from);
    assert back.Keys == ctx.Keys;
    forall x | x in ctx
      ensures back[x] == ctx[x]
    {
    }
  }

  /**
   * After a rename, a variable node naming `from` evaluates to unknown and one
   * naming `to` to the value `from` had; trees that read neither name keep
   * their value.
   */
  lemma RenameEffect(ctx: Context, from: string, to: string, tree: Option<Ast>)
    requires from in ctx
    ensures Evaluate(Leaf(Var(to)), Rename(ctx, from, to)) == Some(ctx[from])
    ensures from != to ==> Evaluate(Leaf(Var(from)), Rename(ctx, from, to)) == None
    ensures from !in ReadVars(tree) && to !in ReadVars(tree) ==>
      Evaluate(tree, Rename(ctx, from, to)) == Evaluate(tree, ctx)
  {
    if from !in ReadVars(tree) && to !in ReadVars(tree) {
      EvaluateReadsOnlyVars(tree, Rename(ctx, from, to), ctx);
    }
  }

  /** Setting a value changes the value of a tree only if the tree reads that variable. */
  lemma SetValueEffect(ctx: Context, name: string, choice: string, tree: Option<Ast>)
    ensures Evaluate(Leaf(Var(name)), SetValue(ctx, name, choice)) == Some(choice == "true")
    ensures name !in ReadVars(tree) ==> Evaluate(tree, SetValue(ctx, name, choice)) == Evaluate(tree, ctx)
  {
    if name !in ReadVars(tree) {
      EvaluateReadsOnlyVars(tree, SetValue(ctx, name, choice), ctx);
    }
  }

  /** After a removal the variable is unknown; trees that do not read it keep their value. */
  lemma RemoveEffect(ctx: Context, name: string, tree: Option<Ast>)
    ensures Evaluate(Leaf(Var(name)), Remove(ctx, name)) == None
    ensures name !in ReadVars(tree) ==> Evaluate(tree, Remove(ctx, name)) == Evaluate(tree, ctx)
  {
    if name !in ReadVars(tree) {
      EvaluateReadsOnlyVars(tree, Remove(ctx, name), ctx);
    }
  }
}
