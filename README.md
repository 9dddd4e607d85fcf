# Boolean structure editor: a Dafny model of its core

The editor lets a user build a boolean expression tree (constants, variables,
"and", "or", and placeholders not yet chosen) and shows its value live against
an editable variable assignment, the context. This project models:

- the tree (`Expr.Atom`, `Expr.Ast`) and the three-valued evaluator
  `Expr.Evaluate`, whose connectives are JavaScript's `||` and `&&` on
  `boolean | undefined` (`Expr.JsOr`, `Expr.JsAnd`): `unknown || false` is
  false and `unknown && false` is unknown, unlike Kleene logic;
- the context edits of the variable panel (rename, set, remove) and of the
  "+ add arg" button, as functions on `map<string, bool>`;
- the node edits: the per-kind selects, which replace a node's atom and keep its
  children; the kind select of a placeholder; the delete button; and the option
  list of the variable select, built by a method with a linear search;
- the text shown for the result.

Modules: `Optional` holds the `Option` type, with `None` standing for
`undefined`. `Expr` holds the types and `evaluate`. `ContextView` holds the
variable panel's edits. `Selects` holds the operator, constant and variable
selects. `TreeBuilder` holds the kind select and the delete button. `App` holds
the top level.

The source's `Ast` type lets any node carry children (src/App.tsx:22-26); the
evaluator ignores them on leaves (`Expr.LeafRules`).

The evaluator is a function, so repeated evaluation of the same tree under the
same context gives the same result by construction.

## Model

| member | source | states |
|---|---|---|
| `Expr.JsOr` | src/App.tsx:41 | `l \|\| r` is true iff either side is true, false iff the left is not true and the right is false, unknown iff the left is not true and the right is unknown |
| `Expr.JsAnd` | src/App.tsx:46 | `l && r` is true iff both are true, false iff the left is false or the left is true and the right false, unknown iff the left is unknown or the left is true and the right unknown |
| `Expr.LeafRules` | src/App.tsx:29-37 | an absent tree and a placeholder are unknown; a constant is its value; a variable is its binding, or unknown when unbound; children on these nodes do not matter |
| `Expr.OrRule` | src/App.tsx:38-42 | an "or" node is true when either child is true, and otherwise has the right child's result (so unknown or false is false) |
| `Expr.AndRule` | src/App.tsx:43-47 | an "and" node has the left child's result when that is false or unknown, and the right child's result otherwise |
| `Expr.DefiniteConnectives` | src/App.tsx:38-47 | on two definite booleans the connectives are ordinary disjunction and conjunction |
| `Expr.NotKleene` | src/App.tsx:38-47 | both connectives differ from Kleene's strong connectives exactly when the left is unknown and the right is false |
| `Expr.Evaluate` | src/App.tsx:29-49 | a tree with both children under every operator, no placeholder and only bound variables evaluates to the definite value of classical logic; its case rules are those of `Expr.LeafRules`, `Expr.OrRule` and `Expr.AndRule` |
| `Expr.EvaluateReadsOnlyVars` | src/App.tsx:29-49 | two contexts that agree on the variables the tree reads give the tree the same value |
| `Expr.Examples` | src/App.tsx:29-49 | the worked cases: true or missing is true, missing or false is false, false and missing is false, missing and true is unknown, missing and false is unknown, true and true is true |
| `ContextView.Rename` | src/App.tsx:61-64 | the new name gets the old name's value, the old name is gone, the keys are the old keys less the old name plus the new one, and every other entry keeps its value |
| `ContextView.RenameSize` | src/App.tsx:62-64 | renaming to an unused name keeps the number of variables; renaming onto another existing name overwrites it, leaving one fewer |
| `ContextView.RenameRoundTrip` | src/App.tsx:62-64 | renaming to an unused name and back restores the context |
| `ContextView.RenameEffect` | src/App.tsx:62-64 | after a rename a variable node with the new name has the old value, one with the old name is unknown, and trees reading neither name keep their value |
| `ContextView.SetValue` | src/App.tsx:68-70 | the chosen variable becomes whether the choice was "true" (added if absent); all other entries are unchanged |
| `ContextView.SetValueEffect` | src/App.tsx:69 | the variable then evaluates to the chosen value; trees not reading it keep their value |
| `ContextView.Remove` | src/App.tsx:73-75 | exactly the named entry is deleted; all other entries keep their values |
| `ContextView.RemoveEffect` | src/App.tsx:74 | the removed variable then evaluates to unknown; trees not reading it keep their value |
| `Selects.OpChange` | src/App.tsx:117-123 | "and" gives a conjunction, any other choice a disjunction, of the children the node had (none if there was no node), and the node evaluates accordingly |
| `Selects.BoolChange` | src/App.tsx:173-179 | the node becomes the constant "choice is true", keeps its children, reads no variable and has that value under every context |
| `Selects.VarChange` | src/App.tsx:142-148 | the node reads exactly the chosen variable, keeps its children and evaluates to its binding or unknown |
| `Selects.LastChoiceWins` | src/App.tsx:118-123 | a select replaces only the atom: a second choice overrides the first and the children are those of the original node |
| `Selects.IndexOf` | src/App.tsx:152 | the first position holding the value, or -1 exactly when it is absent |
| `Selects.VarOptions` | src/App.tsx:150-155 | the options are the keys when the current choice is a key; otherwise the choice at index 0 followed by the keys; every key and the choice appear, none twice |
| `TreeBuilder.SelectKind` | src/App.tsx:219-252 | "constant" gives a childless constant true, complete and true everywhere; "argument" a childless variable node for the first key of the context, bound and complete; "and"/"or" the operator over two placeholders, unknown everywhere; any other choice keeps the node; only "argument" on an empty context has no node |
| `TreeBuilder.Deleted` | src/App.tsx:296-298 | delete makes a childless placeholder, unknown under every context |
| `TreeBuilder.ParentCopyAfterOperator` | src/App.tsx:198-217 | after "and"/"or" the parent's copy keeps only the right placeholder; it and the intended node over two placeholders are both unknown under every context |
| `TreeBuilder.FilledOperatorIsClassical` | src/App.tsx:235-250 | once the two placeholders of a chosen operator hold complete trees, the node has their classical conjunction or disjunction |
| `App.AddArg` | src/App.tsx:343-348 | "new arg" is bound to true (overwritten if present, never duplicated) and every other entry is unchanged |
| `App.AddArgSize` | src/App.tsx:344-347 | the context grows by one unless "new arg" was present, and a second press changes nothing |
| `App.AddArgEffect` | src/App.tsx:344-347 | a variable node named "new arg" is then true; trees not reading it keep their value |
| `App.ResultText` | src/App.tsx:341 | unknown shows "undefined", true "true", false "false", each text for exactly one result |
| `App.InitialResult` | src/App.tsx:333-341 | the initial placeholder under the empty context shows "undefined" |

## Left out

- Rendering, JSX, `useState`/`useEffect` wiring and input focus (src/App.tsx:77-111, 125-135, 156-167, 181-186, 194-217, 254-330, 350-359): presentation, not logic.
- The effects that copy a subtree's state into its parent (src/App.tsx:198-217) are asynchronous React scheduling. `TreeBuilder.SelectKind` gives the node the handler means: the new atom plus the builder's own child states. The right-subtree state's initialisation from the left child (src/App.tsx:195) is not modelled.
- After "and"/"or" both effects build from the same render-time node, so the parent's copy loses its left placeholder until the left subtree is next edited; `TreeBuilder.ParentCopyAfterOperator` shows this does not change the value.
- `TreeBuilder.Deleted` does not model the builder's own child-subtree state, which the delete button leaves as it was.
- `ContextView.Rename` requires the old name to be a key: the panel renders an editor only for existing keys (src/App.tsx:100-103); on a missing key the source would store `undefined` under the new name, which the context type does not admit.
- `TreeBuilder.SelectKind`: "argument" on an empty context returns `None` instead of a variable node with an `undefined` name (src/App.tsx:230).
- The ordering of `Object.keys` (src/App.tsx:100, 150, 230) is not modelled: `keys` is a parameter required to list the context's keys once each.
- Inherited properties of JavaScript objects (a lookup of "toString" finds a function) are not modelled; the context is a plain map.
- `Selects.VarOptions` builds the list as a sequence value; the in-place `unshift` of the source array is not modelled.
- The local `name` state of a variable editor (src/App.tsx:58, 65) and stale reads of the context between batched updates are not modelled.
