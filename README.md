# require-object-type-annotations, modelled in Dafny

This project models the ESLint rule `require-object-type-annotations`. The
rule reports an object literal that has no contextual type, that is, no
type imposed on it by the surrounding code. It does not report an object
literal in these cases:

- a type flows to it from an untyped object-literal ancestor. The topmost
  such ancestor is reported unless the call exemption spares it (or it is
  empty); the literals below it are not reported;
- the literal is empty;
- the literal's parent is a call whose callee name matches the
  `ignoreInsideFunctionCalls` pattern (usually the literal is an argument
  of that call, but a literal used as the callee qualifies too).

The model has these modules:

- `Syntax`: the syntax tree. Nodes have identities and kinds. Every visited
  object literal comes with its chain of ancestors. `path[0]` is the node
  that the literal's ESTree parent maps to, which skips parentheses: in
  `f(({ a: 1 }))` it is the call. Above it, `path[i + 1]` is the TypeScript
  parent of `path[i]`, and the last element is the root. Identity of nodes
  (the `===` of the source) is equality of ids.
- `TypeQuery`: the TypeScript checker. It is a value `Checker` holding three
  lookups: `getContextualType`, `getSymbol` and `valueDeclaration`. The
  module also holds `checkObject` (here `Untyped`). The `HasContextualType`
  predicate is the reference definition that `Untyped` is proved to be the
  negation of.
- `AncestorWalk`: `checkIfReportedForParents` (here `ReportedForParents`).
  It is proved equal to a non-recursive reference definition: some ancestor
  is an untyped object literal, and every node below it lets a type flow.
- `CalleeName`: `stringifyLeftHandSideExpression` (here `Stringify`).
- `Decision`: the listener's chain of early returns (`Decide`). It returns
  a `Verdict`: either the reason for suppression, or a report with message
  id `forbidden`. `Findings` lists the reports made over a sequence of
  listener visits.
- `Scenarios`: programs from the rule's test cases, plus one
  (`ExemptOuterSilencesInnerScenario`) that follows from the listener's
  guard order and that no test covers. Each has a stand-in checker, chosen
  to give the contextual-type outcome the test expects (for the extra one:
  no contextual types). Each lemma gives the verdicts or findings the model
  produces.

The walk succeeds at the first object-literal ancestor that is untyped.
rules/require-object-type-annotations.ts:71 tests `checkObject`, which is
true when the object has no contextual type, or only one inferred from the
object itself. An ancestor whose contextual type comes from elsewhere does
not stop the walk.

The type checker answers type and declaration in two optional steps:
`getSymbol()` may be absent, and then `valueDeclaration` may be absent.
The model keeps both steps. A type without a symbol, or a symbol without a
declaration, counts as a contextual type from outside.

## Model

| member | source | states |
|---|---|---|
| TypeQuery.Untyped | rules/require-object-type-annotations.ts:45-62 | An object literal is untyped exactly when it has no contextual type, or that type's symbol's value declaration is the literal itself. A type without a symbol, or a symbol without a value declaration, makes it typed. |
| TypeQuery.OwningDeclaration | rules/require-object-type-annotations.ts:60 | The owning declaration is present iff the type has a symbol and that symbol has a value declaration; it is then that declaration. |
| TypeQuery.ContextualTypeOwnership | rules/require-object-type-annotations.ts:46-60 | Given a contextual type: untyped iff the type's symbol's value declaration is the object node itself. A missing symbol, a missing declaration or another declaration all make it typed. |
| Syntax.CanTypeFlowToChild | rules/require-object-type-annotations.ts:64-65 | A type flows through exactly the expressions and property assignments, which is every kind except statements, declarations and other non-expression nodes; object literals and calls always let it through. |
| AncestorWalk.ReportedForParents | rules/require-object-type-annotations.ts:64-75 | The walk succeeds iff some ancestor is an untyped object literal and every node below that ancestor is an expression or a property assignment. Structural recursion on the chain, so the walk ends. |
| AncestorWalk.StopsAtBoundary | rules/require-object-type-annotations.ts:67-69 | Once an ancestor lets no type flow (statement, declaration, block), nothing at or above it changes the walk's result. |
| AncestorWalk.TypedObjectPassesThrough | rules/require-object-type-annotations.ts:71-73 | An object-literal ancestor with its own contextual type does not stop the walk; the result is the walk from its parent. |
| CalleeName.Innermost | rules/require-object-type-annotations.ts:98-99 | The innermost callee is not a call, and the callee is exactly that one wrapped in its call depth of calls. |
| CalleeName.Render | rules/require-object-type-annotations.ts:101-103 | A non-call callee renders as its source text, or for a property access as object text, then `.`, then name text. |
| CalleeName.Stringify | rules/require-object-type-annotations.ts:95-105 | The name of a callee is the rendering of its innermost non-call callee. |
| CalleeName.StringifyIgnoresCalls | rules/require-object-type-annotations.ts:98-99 | Any number of calls wrapped around a callee leave its name unchanged (`f.g()(x)` is tested as `f.g`). |
| CalleeName.StringifyPropertyAccess | rules/require-object-type-annotations.ts:101-103 | A property access is named object text, then `.`, then name text. Its full source text (comments, line breaks) plays no part, and the object part is kept as written. |
| Decision.Decide | rules/require-object-type-annotations.ts:77-123 | Four checks in order: walk from the parent, empty object, call exemption, own contextual type. Each suppression holds iff its condition holds and no earlier one does. A report happens iff all four fail, always with message id `forbidden`. |
| Decision.IgnoredInsideCall | rules/require-object-type-annotations.ts:107-113 | The exemption holds only when the option is set and the parent is a call; then it holds iff the pattern accepts the rendering of the call's innermost non-call callee. |
| Decision.EmptyObjectNeverReported | rules/require-object-type-annotations.ts:90-93 | An object literal with no properties is never reported. It is suppressed either as empty or by the earlier walk. |
| Decision.NestedUnderReportedObject | rules/require-object-type-annotations.ts:71-88 | If an object-literal ancestor that types flow down from is reported, the descendant is suppressed by the walk. Nested literals are not reported twice. |
| Decision.Topmost | rules/require-object-type-annotations.ts:67-75 | From any untyped object-literal ancestor a type flows from, there is a highest one: untyped, a type flows from it, and nothing above it is an untyped object literal that a type flows from. |
| Decision.SuppressedByWalkDefersToAncestor | rules/require-object-type-annotations.ts:83-123 | No report is lost: when the walk suppresses a literal, some object-literal ancestor a type flows from is reported, spared by the call exemption, or empty. The literal is never silenced without one. |
| Decision.OptionOnlyAffectsCallArguments | rules/require-object-type-annotations.ts:107-116 | Unless the parent is a call, the decision is the same with or without `ignoreInsideFunctionCalls`. The exemption does not reach literals nested deeper. |
| Decision.DecisionStopsAtBoundary | rules/require-object-type-annotations.ts:64-116 | The decision depends only on the ancestors below the first boundary node. |
| Decision.Findings | rules/require-object-type-annotations.ts:118-123 | Over a sequence of visits, a finding exists for a node iff a visit of that node decides `Report`. Every finding has message id `forbidden`. There are no more findings than visits. |
| Decision.FindingsAtMostOncePerNode | rules/require-object-type-annotations.ts:118-123 | When every object literal is visited once, no node is reported twice. |
| Scenarios.EmptyLiteralScenario | tests.ts:28-32 | `const x = {};` gives no finding. |
| Scenarios.UntypedLiteralScenario | tests.ts:247-252 | `const x = { prop: 1 };` gives one finding, at the object. |
| Scenarios.AnnotatedLiteralScenario | tests.ts:50-54 | `const x: { prop: number } = { prop: 1 };`: the annotation supplies a contextual type from outside the literal, so no finding. |
| Scenarios.NestedLiteralScenario | tests.ts:253-259 | `const x = { prop: { prop: 1 } };` gives one finding, at the outer object. |
| Scenarios.LiteralBehindStatementScenario | tests.ts:273-284 | A literal inside a function body block under an untyped literal is reported, and so is the outer literal. |
| Scenarios.TypedOuterLiteralScenario | tests.ts:327-334 | Under a typed outer literal, an inner literal whose type is inferred from itself is reported; the outer literal is not. |
| Scenarios.SelfInferredScenario | tests.ts:335-340 | A literal whose contextual type is declared by the literal itself is reported. |
| Scenarios.IgnoredCallScenario | tests.ts:126-141 | With the pattern set, a direct argument of `t.type` (comments between `t` and `.type` included) is exempt. The lemma also gives the model's verdict without the pattern, under a checker that gives the argument no contextual type: reported. No test runs that case. |
| Scenarios.CurriedCallScenario | tests.ts:177-190 | The argument of `SumIoTs.getCodecFromSerialized<U>()(...)` is tested under the name of the inner callee and is exempt. |
| Scenarios.ExemptOuterSilencesInnerScenario | rules/require-object-type-annotations.ts:83-116 | With the pattern `^t\.type$`, `t.type({ a: { b: 1 } })` gives no finding: the outer literal is exempt as a direct argument, and the walk silences the inner one. |

## Left out

- Rule plumbing (`RuleCreator`, the `meta` block, the option schema, default options) at rules/require-object-type-annotations.ts:5-33: host configuration without logic.
- Parser services and the ESTree-to-TypeScript node map (lines 38-43, 77-81). The model uses a single chain of ancestors: its first node is the one the object's ESTree parent maps to (parentheses skipped), and above it come TypeScript parents. ESTree and TypeScript trees are not modelled separately.
- TypeScript checker internals: `getContextualType`, `getSymbol`, `valueDeclaration`. They are fields of `Checker`, chosen freely by the caller. `tsutils.isExpression` and `ts.isPropertyAssignment` become a fixed classification of node kinds.
- Regular expressions: `new RegExp(pattern).test(name)` is a function parameter. Invalid-pattern errors, thrown when a pattern is compiled for a literal whose parent is a call, are not modelled.
- `getText()`: source texts are given strings.
- A chain that runs out without a boundary makes the walk fail. The source would read the parent of the root there; a TypeScript source file is never an expression, so real trees do not reach that point.
- Findings: the host's traversal is a given sequence of visits. The model does not check that the ancestor chains of different visits agree. `Decision.NestedUnderReportedObject` therefore takes the outer literal's chain to be the tail of the inner one's.
- The commented-out test cases that document known bugs (tests.ts:229-244, 373-389) are not asserted.
