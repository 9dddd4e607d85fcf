/**
 * The top level of the editor: its initial state, the "+ add arg" button and
 * the text shown for the result.
 */
module App {

  import opened Optional
  import opened Expr

  /** The editor starts with an empty context and a single placeholder. */
  const InitialContext: Context := map[]
  const InitialTree: Option<Ast> := Some(Ast(ToSelect, None, None))

  /** The name every added variable starts with. */
  const NewArgName: string := "new arg"

  /** The "+ add arg" button: binds "new arg" to true, overwriting an existing "new arg"; nothing else changes. */
  function AddArg(ctx: Context): (r: Context)
    ensures NewArgName in r && r[NewArgName]
    ensures r.Keys == ctx.Keys + {NewArgName}
    ensures forall x :: x in ctx && x != NewArgName ==> r[x] == ctx[x]
  {
    ctx[NewArgName := true]
  }

  /** The result line: "undefined" for unknown, otherwise the boolean's name; distinct results give distinct texts. */
  function ResultText(res: Option<bool>): (s: string)
    ensures s == "undefined" <==> res == None
    ensures s == "true" <==> res == Some(true)
    ensures s == "false" <==> res == Some(false)
  {
    if res == None then "undefined" else if res.value then "true" else "false"
  }

  /** Adding a variable grows the context by one unless "new arg" was already there, and a second press changes nothing. */
  lemma AddArgSize(ctx: Context)
    ensures NewArgName in ctx ==> |AddArg(ctx)| == |ctx|
    ensures NewArgName !in ctx ==> |AddArg(ctx)| == |ctx| + 1
    ensures AddArg(AddArg(ctx)) == AddArg(ctx)
  {
    if NewArgName in ctx {
      assert AddArg(ctx).Keys == ctx.Keys;
    }
  }

  /** A variable node naming "new arg" is true after the press; a tree that does not read it keeps its value. */
  lemma AddArgEffect(ctx: Context, tree: Option<Ast>)
    ensures Evaluate(Leaf(Var(NewArgName)), AddArg(ctx)) == Some(true)
    ensures NewArgName !in ReadVars(tree) ==> Evaluate(tree, AddArg(ctx)) == Evaluate(tree, ctx)
  {
    if NewArgName !in ReadVars(tree) {
      EvaluateReadsOnlyVars(tree, AddArg(ctx), ctx);
    }
  }

  /** Before any edit the result reads "undefined". */
  lemma InitialResult()
    ensures ResultText(Evaluate(InitialTree, InitialContext)) == "undefined"
  {
  }
}
