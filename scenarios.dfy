/**
 Concrete programs from the rule's test cases, plus one
 (`ExemptOuterSilencesInnerScenario`) that follows from the listener's
 guard order and that no test covers. Each has a stand-in type checker
 chosen to give the contextual-type outcome the test expects, and each
 lemma gives the findings the model produces.
 */
module Scenarios {
  import opened Wrappers
  import opened Syntax
  import opened TypeQuery
  import opened AncestorWalk
  import opened Decision

  /** A checker that knows no contextual type for any node. */
  const NoTypes: Checker := Checker(id => None, t => None, s => None)

  /** A pattern test that accepts only the callee name `name`, whatever the pattern. */
  function AcceptOnly(name: string): RegExpTest
  {
    (pattern, subject) => subject == name
  }

  // The enclosing `const x = ...;` of a top-level declaration:
  // VariableDeclaration, VariableDeclarationList, VariableStatement, SourceFile.
  const Declaration: seq<Node> := [Node(3, OtherNode), Node(2, OtherNode), Node(1, OtherNode), Node(0, OtherNode)]

  // The enclosing `f(...);` statement: ExpressionStatement, SourceFile.
  const Statement: seq<Node> := [Node(2, OtherNode), Node(0, OtherNode)]

  /** `const x = {};` is not reported. */
  lemma EmptyLiteralScenario()
    ensures Findings(NoTypes, Options(None), AcceptOnly(""), [Visit(Node(4, ObjectLiteral(0)), Declaration)]) == []
  {
  }

  /** `const x = { prop: 1 };` is reported once, at the object. */
  lemma UntypedLiteralScenario()
    ensures Findings(NoTypes, Options(None), AcceptOnly(""), [Visit(Node(4, ObjectLiteral(1)), Declaration)])
         == [Finding(4, Forbidden)]
  {
  }

  /**
   `const x: { prop: number } = { prop: 1 };`: the contextual type comes from
   the annotation's type literal, whose symbol has no value declaration.
   */
  lemma AnnotatedLiteralScenario()
    ensures var c := Checker(id => if id == 4 then Some(1) else None, t => Some(7), s => None);
      Findings(c, Options(None), AcceptOnly(""), [Visit(Node(4, ObjectLiteral(1)), Declaration)]) == []
  {
  }

  /** `const x = { prop: { prop: 1 } };` is reported once, at the outer object. */
  lemma NestedLiteralScenario()
    ensures var outer := Node(4, ObjectLiteral(1));
      Findings(NoTypes, Options(None), AcceptOnly(""),
        [Visit(outer, Declaration),
         Visit(Node(6, ObjectLiteral(1)), [Node(5, PropertyAssignment), outer] + Declaration)])
      == [Finding(4, Forbidden)]
  {
    var outer, inner := Node(4, ObjectLiteral(1)), Node(6, ObjectLiteral(1));
    var path := [Node(5, PropertyAssignment), outer] + Declaration;
    assert path[1..][0] == outer;
    assert ReportedForParents(NoTypes, path[1..]);
    assert Decide(NoTypes, Options(None), AcceptOnly(""), inner, path) == Suppressed(ReportedForParent);
  }

  /**
   `const x = { prop: () => { const y = { prop: 1 }; return y; } };` is
   reported twice: the inner declaration is a boundary the walk stops at.
   */
  lemma LiteralBehindStatementScenario()
    ensures var outer := Node(4, ObjectLiteral(1));
      var body := [Node(13, OtherNode), Node(12, OtherNode), Node(11, OtherNode), Node(10, OtherNode),
                   Node(7, OtherExpression), Node(5, PropertyAssignment), outer];
      Findings(NoTypes, Options(None), AcceptOnly(""),
        [Visit(outer, Declaration), Visit(Node(14, ObjectLiteral(1)), body + Declaration)])
      == [Finding(4, Forbidden), Finding(14, Forbidden)]
  {
  }

  /**
   `f({ prop: { prop: 1 } })` with `f: <T>(x: { [key: string]: T }) => T`:
   the outer object's contextual type is the parameter's type literal, whose
   symbol has no value declaration; the inner one's type is inferred from
   itself. Only the inner one is reported.
   */
  lemma TypedOuterLiteralScenario()
    ensures var c := Checker(id => if id == 4 then Some(1) else if id == 6 then Some(2) else None,
                             t => Some(t), s => if s == 1 then None else Some(6));
      var outer := Node(4, ObjectLiteral(1));
      var call := Node(3, Call(OtherCallee("f")));
      Findings(c, Options(None), AcceptOnly(""),
        [Visit(outer, [call] + Statement),
         Visit(Node(6, ObjectLiteral(1)), [Node(5, PropertyAssignment), outer, call] + Statement)])
      == [Finding(6, Forbidden)]
  {
  }

  /** `[1, 2, 3].map(id => ({ prop: id }))`: the return type is inferred from the object itself. */
  lemma SelfInferredScenario()
    ensures var c := Checker(id => if id == 6 then Some(1) else None, t => Some(1), s => Some(6));
      var call := Node(3, Call(PropertyAccess("[1, 2, 3]", "map", "[1, 2, 3].map")));
      Findings(c, Options(None), AcceptOnly(""),
        [Visit(Node(6, ObjectLiteral(1)), [Node(5, OtherExpression), Node(4, OtherExpression), call] + Statement)])
      == [Finding(6, Forbidden)]
  {
  }

  /**
   With `ignoreInsideFunctionCalls` set to `^t\.type$`, the argument of
   `t\n// comment\n.type({ prop: t.number })` is not reported, while
   without the option it is.
   */
  lemma IgnoredCallScenario()
    ensures var call := Node(3, Call(PropertyAccess("t", "type", "t\n  // comment\n  .type")));
      var arg := Node(4, ObjectLiteral(1));
      && Decide(NoTypes, Options(Some("^t\\.type$")), AcceptOnly("t.type"), arg, [call] + Declaration) == Suppressed(IgnoredCall)
      && Decide(NoTypes, Options(None), AcceptOnly("t.type"), arg, [call] + Declaration) == Report(Forbidden)
  {
  }

  /**
   `SumIoTs.getCodecFromSerialized<U>()({ A: t.string })`: the callee is a
   call, and the name tested is that of the call's own callee, the object
   text and the member name joined with a dot.
   */
  lemma CurriedCallScenario()
    ensures var inner := PropertyAccess("SumIoTs", "getCodecFromSerialized", "SumIoTs.getCodecFromSerialized");
      var call := Node(3, Call(CallExpr(inner)));
      Decide(NoTypes, Options(Some("^.+\\.getCodecFromSerialized$")), AcceptOnly("SumIoTs" + "." + "getCodecFromSerialized"),
        Node(4, ObjectLiteral(1)), [call] + Statement) == Suppressed(IgnoredCall)
  {
    var inner := PropertyAccess("SumIoTs", "getCodecFromSerialized", "SumIoTs.getCodecFromSerialized");
    var path := [Node(3, Call(CallExpr(inner)))] + Statement;
    assert !ReportedForParents(NoTypes, path);
  }

  /**
   With `ignoreInsideFunctionCalls` set to `^t\.type$`,
   `const x = t.type({ a: { b: 1 } });` gives no finding: the outer literal
   is exempt as a direct argument of `t.type`, and the inner literal is
   silenced by the walk, which stops at the untyped outer literal.
   */
  lemma ExemptOuterSilencesInnerScenario()
    ensures var call := Node(3, Call(PropertyAccess("t", "type", "t.type")));
      var outer := Node(4, ObjectLiteral(1));
      Findings(NoTypes, Options(Some("^t\\.type$")), AcceptOnly("t" + "." + "type"),
        [Visit(outer, [call] + Declaration),
         Visit(Node(6, ObjectLiteral(1)), [Node(5, PropertyAssignment), outer, call] + Declaration)])
      == []
  {
    var outer := Node(4, ObjectLiteral(1));
    var path := [Node(5, PropertyAssignment), outer, Node(3, Call(PropertyAccess("t", "type", "t.type")))] + Declaration;
    assert path[1..][0] == outer;
    assert ReportedForParents(NoTypes, path[1..]);
  }

}
