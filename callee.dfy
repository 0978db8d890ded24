/**
 The canonical name of a call's callee (`stringifyLeftHandSideExpression`),
 which the `ignoreInsideFunctionCalls` pattern is tested against.
 */
module CalleeName {
  import opened Syntax

  /** The number of calls wrapped around the innermost callee. */
  function CallDepth(e: Callee): nat
  {
    match e
    case CallExpr(inner) => 1 + CallDepth(inner)
    case _ => 0
  }

  /** `b` used as the callee of `n` nested calls: `b()()...()`. */
  function Wrap(b: Callee, n: nat): Callee
  {
    if n == 0 then b else CallExpr(Wrap(b, n - 1))
  }

  /** The callee that is not itself a call, found by removing every call around it. */
  function Innermost(e: Callee): (b: Callee)
    ensures !b.CallExpr?
    ensures e == Wrap(b, CallDepth(e))
  {
    match e
    case CallExpr(inner) => Innermost(inner)
    case _ => e
  }

  /**
   The text of a callee that is not a call: a property access joins the
   text of its object and the text of its name with a dot, dropping any
   comments or line breaks between them; anything else is its source text.
   */
  function Render(b: Callee): (s: string)
    requires !b.CallExpr?
    ensures b.OtherCallee? ==> s == b.text
    ensures b.PropertyAccess? ==>
      |s| == |b.objectText| + 1 + |b.nameText| && s[..|b.objectText|] == b.objectText
      && s[|b.objectText|] == '.' && s[|b.objectText| + 1..] == b.nameText
  {
    match b
    case PropertyAccess(objectText, nameText, _) => objectText + "." + nameText
    case OtherCallee(text) => text
  }

  /**
   `stringifyLeftHandSideExpression`: a call is replaced by its own
   callee until a non-call remains, and that one is rendered.
   */
  function Stringify(e: Callee): (s: string)
    ensures s == Render(Innermost(e))
  {
    match e
    case CallExpr(inner) => Stringify(inner)
    case PropertyAccess(objectText, nameText, _) => objectText + "." + nameText
    case OtherCallee(text) => text
  }

  /**
   Calls around a callee do not change its name: `f.g(x)`, `f.g()(x)` and
   `f.g()()(x)` are all tested as `f.g`.
   */
  lemma {:induction false} StringifyIgnoresCalls(b: Callee, n: nat)
    ensures Stringify(Wrap(b, n)) == Stringify(b)
    decreases n
  {
    if n > 0 {
      StringifyIgnoresCalls(b, n - 1);
    }
  }

  /**
   A property access is named by its two parts joined with a dot,
   whatever its full source text: the name does not depend on the text,
   the object part is kept as written (so `a().b` stays `a().b`), and the
   dot sits right after the object part.
   */
  lemma StringifyPropertyAccess(objectText: string, nameText: string, text: string, text': string)
    ensures Stringify(PropertyAccess(objectText, nameText, text))
         == Stringify(PropertyAccess(objectText, nameText, text'))
    ensures var s := Stringify(PropertyAccess(objectText, nameText, text));
      |s| == |objectText| + 1 + |nameText| && s[..|objectText|] == objectText
      && s[|objectText|] == '.' && s[|objectText| + 1..] == nameText
  {
  }

}
