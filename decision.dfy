/**
 The `ObjectExpression` listener: the sequence of early returns that
 decides whether one object literal is reported.
 */
module Decision {
  import opened Wrappers
  import opened Syntax
  import opened TypeQuery
  import opened AncestorWalk
  import opened CalleeName

  /** The rule's one option: a regular-expression source, or absent. */
  datatype Options = Options(ignoreInsideFunctionCalls: Option<string>)

  /** `new RegExp(pattern).test(subject)`, supplied from outside. */
  type RegExpTest = (string, string) -> bool

  /** The message id of every report. */
  const Forbidden: string := "forbidden"

  /** Why an object literal was not reported. */
  datatype Reason =
    | ReportedForParent   // a type flows from an untyped object-literal ancestor; the
                          // topmost such one is reported unless exempted or empty
    | EmptyObject         // the literal has no properties
    | IgnoredCall         // the parent is a call the pattern names
    | ContextuallyTyped   // the literal has a contextual type of its own

  datatype Verdict = Suppressed(reason: Reason) | Report(messageId: string)

  /**
   The call exemption: the option is set, the object's parent is a call,
   and the pattern accepts the name of that call's callee.
   */
  function IgnoredInsideCall(opts: Options, test: RegExpTest, path: seq<Node>): (r: bool)
    ensures r ==> opts.ignoreInsideFunctionCalls.Some? && |path| > 0 && path[0].kind.Call?
    ensures opts.ignoreInsideFunctionCalls.Some? && |path| > 0 && path[0].kind.Call? ==>
      (r <==> test(opts.ignoreInsideFunctionCalls.value, Render(Innermost(path[0].kind.callee))))
  {
    && opts.ignoreInsideFunctionCalls.Some?
    && |path| > 0
    && path[0].kind.Call?
    && test(opts.ignoreInsideFunctionCalls.value, Stringify(path[0].kind.callee))
  }

  /**
   The decision for the object literal `obj` whose ancestors are `path`,
   in the listener's order: the walk from the parent, the empty object,
   the call exemption, and last the object's own contextual type.
   */
  function Decide(c: Checker, opts: Options, test: RegExpTest, obj: Node, path: seq<Node>): (v: Verdict)
    requires obj.kind.ObjectLiteral?
    ensures v == Suppressed(ReportedForParent) <==> ReachesUntypedObject(c, path)
    ensures v == Suppressed(EmptyObject)
        <==> !ReachesUntypedObject(c, path) && obj.kind.properties == 0
    ensures v == Suppressed(IgnoredCall)
        <==> !ReachesUntypedObject(c, path) && obj.kind.properties > 0 && IgnoredInsideCall(opts, test, path)
    ensures v.Report?
        <==> !ReachesUntypedObject(c, path) && obj.kind.properties > 0
             && !IgnoredInsideCall(opts, test, path) && !HasContextualType(c, obj.id)
    ensures v.Report? ==> v.messageId == Forbidden
  {
    if |path| > 0 && ReportedForParents(c, path) then
      Suppressed(ReportedForParent)
    else if obj.kind.properties == 0 then
      Suppressed(EmptyObject)
    else if IgnoredInsideCall(opts, test, path) then
      Suppressed(IgnoredCall)
    else if Untyped(c, obj.id) then
      Report(Forbidden)
    else
      Suppressed(ContextuallyTyped)
  }

  /** An object literal without properties is never reported, whatever surrounds it. */
  lemma EmptyObjectNeverReported(c: Checker, opts: Options, test: RegExpTest, obj: Node, path: seq<Node>)
    requires obj.kind == ObjectLiteral(0)
    ensures !Decide(c, opts, test, obj, path).Report?
    ensures Decide(c, opts, test, obj, path) == Suppressed(EmptyObject) || Decide(c, opts, test, obj, path) == Suppressed(ReportedForParent)
  {
  }

  /**
   No double report: if the object-literal ancestor `path[k]` is reported
   (as an object whose own ancestors are `path[k + 1..]`) and a type flows
   from it down to `obj`, then `obj` is not reported; it is suppressed by
   the walk, and the only finding is at the ancestor.
   */
  lemma NestedUnderReportedObject(c: Checker, opts: Options, test: RegExpTest, obj: Node, path: seq<Node>, k: nat)
    requires obj.kind.ObjectLiteral?
    requires k < |path| && path[k].kind.ObjectLiteral? && FlowsThrough(path, k)
    requires Decide(c, opts, test, path[k], path[k + 1..]).Report?
    ensures Decide(c, opts, test, obj, path) == Suppressed(ReportedForParent)
  {
    assert UntypedObjectAt(c, path, k);
  }

  /**
   From an untyped object-literal ancestor `path[k]` that a type flows
   from, climb to the topmost one: an untyped object literal `path[t]`,
   a type flows from it, and no untyped object literal above it does.
   */
  lemma {:induction false} Topmost(c: Checker, path: seq<Node>, k: nat) returns (t: nat)
    requires k < |path| && UntypedObjectAt(c, path, k) && FlowsThrough(path, k)
    ensures k <= t < |path| && UntypedObjectAt(c, path, t) && FlowsThrough(path, t)
    ensures !ReachesUntypedObject(c, path[t + 1..])
    decreases |path| - k
  {
    var above := path[k + 1..];
    if ReachesUntypedObject(c, above) {
      var m :| 0 <= m < |above| && UntypedObjectAt(c, above, m) && FlowsThrough(above, m);
      assert above[m] == path[k + 1 + m];
      assert FlowsThrough(path, k + 1 + m) by {
        forall j | 0 <= j < k + 1 + m ensures CanTypeFlowToChild(path[j].kind) {
          if j > k { assert path[j] == above[j - k - 1]; }
        }
      }
      t := Topmost(c, path, k + 1 + m);
    } else {
      t := k;
    }
  }

  /** A verdict that neither defers to an ancestor nor rests on a contextual type. */
  predicate NotDeferred(v: Verdict)
  {
    v == Report(Forbidden) || v == Suppressed(IgnoredCall) || v == Suppressed(EmptyObject)
  }

  /**
   No report is lost: when the walk suppresses `obj`, some object-literal
   ancestor that a type flows from is not suppressed by its own walk nor
   by its own contextual type. It is reported, or spared by the call
   exemption, or empty.
   */
  lemma SuppressedByWalkDefersToAncestor(c: Checker, opts: Options, test: RegExpTest, obj: Node, path: seq<Node>)
    requires obj.kind.ObjectLiteral?
    requires Decide(c, opts, test, obj, path) == Suppressed(ReportedForParent)
    ensures exists k :: (0 <= k < |path| && path[k].kind.ObjectLiteral? && FlowsThrough(path, k)
                         && NotDeferred(Decide(c, opts, test, path[k], path[k + 1..])))
  {
    var k :| 0 <= k < |path| && UntypedObjectAt(c, path, k) && FlowsThrough(path, k);
    var t := Topmost(c, path, k);
    var v := Decide(c, opts, test, path[t], path[t + 1..]);
    assert v != Suppressed(ReportedForParent) && v != Suppressed(ContextuallyTyped);
  }

  /**
   The call exemption is local: unless the object's parent is a call, the
   option makes no difference, so an object nested deeper inside a call's
   argument is decided as if the option were absent.
   */
  lemma OptionOnlyAffectsCallArguments(c: Checker, opts: Options, test: RegExpTest, obj: Node, path: seq<Node>)
    requires obj.kind.ObjectLiteral?
    requires |path| == 0 || !path[0].kind.Call?
    ensures Decide(c, opts, test, obj, path) == Decide(c, Options(None), test, obj, path)
  {
  }

  /**
   Nothing beyond the first boundary (a statement, declaration, block, ...)
   among the ancestors affects the decision.
   */
  lemma DecisionStopsAtBoundary(c: Checker, opts: Options, test: RegExpTest, obj: Node, path: seq<Node>, k: nat)
    requires obj.kind.ObjectLiteral?
    requires k < |path| && !CanTypeFlowToChild(path[k].kind)
    ensures Decide(c, opts, test, obj, path) == Decide(c, opts, test, obj, path[..k])
  {
    StopsAtBoundary(c, path, k);
  }

  /** One visit of the listener: an object literal with its ancestors. */
  datatype Visit = Visit(obj: Node, ancestors: seq<Node>)

  /** A report: the node and its message id. */
  datatype Finding = Finding(node: NodeId, messageId: string)

  /**
   The reports made while the listener visits the object literals of
   `visits` in order: at most one per visit, always `Forbidden`.
   */
  function Findings(c: Checker, opts: Options, test: RegExpTest, visits: seq<Visit>): (fs: seq<Finding>)
    requires forall i :: 0 <= i < |visits| ==> visits[i].obj.kind.ObjectLiteral?
    ensures |fs| <= |visits|
    ensures forall f :: f in fs ==> f.messageId == Forbidden
    ensures forall f :: f in fs <==>
      exists i :: 0 <= i < |visits| && f.node == visits[i].obj.id && f.messageId == Forbidden
        && Decide(c, opts, test, visits[i].obj, visits[i].ancestors).Report?
  {
    if |visits| == 0 then
      []
    else
      var v := visits[0];
      var here := if Decide(c, opts, test, v.obj, v.ancestors).Report? then [Finding(v.obj.id, Forbidden)] else [];
      var rest := Findings(c, opts, test, visits[1..]);
      assert forall i :: 0 < i < |visits| ==> visits[i] == visits[1..][i - 1];
      here + rest
  }

  /** No object literal is visited twice. */
  ghost predicate DistinctObjects(visits: seq<Visit>)
  {
    forall i, j :: 0 <= i < j < |visits| ==> visits[i].obj.id != visits[j].obj.id
  }

  /** No node is reported twice. */
  ghost predicate DistinctNodes(fs: seq<Finding>)
  {
    forall i, j :: 0 <= i < j < |fs| ==> fs[i].node != fs[j].node
  }

  /** A finding made for a later visit is never about a node visited earlier. */
  lemma FindingsOnlyAboutVisited(c: Checker, opts: Options, test: RegExpTest, visits: seq<Visit>, id: NodeId)
    requires forall i :: 0 <= i < |visits| ==> visits[i].obj.kind.ObjectLiteral?
    requires forall i :: 0 <= i < |visits| ==> visits[i].obj.id != id
    ensures forall f :: f in Findings(c, opts, test, visits) ==> f.node != id
  {
  }

  /** Adding a finding about a node no other finding is about keeps the nodes distinct. */
  lemma DistinctNodesCons(f: Finding, rest: seq<Finding>)
    requires DistinctNodes(rest)
    requires forall g :: g in rest ==> g.node != f.node
    ensures DistinctNodes([f] + rest)
  {
    var fs := [f] + rest;
    forall i, j | 0 <= i < j < |fs| ensures fs[i].node != fs[j].node {
      assert fs[j] == rest[j - 1] && fs[j] in rest;
      if i > 0 {
        assert fs[i] == rest[i - 1];
      }
    }
  }

  /**
   When every object literal is visited once, every object literal is
   reported at most once.
   */
  lemma {:induction false} FindingsAtMostOncePerNode(c: Checker, opts: Options, test: RegExpTest, visits: seq<Visit>)
    requires forall i :: 0 <= i < |visits| ==> visits[i].obj.kind.ObjectLiteral?
    requires DistinctObjects(visits)
    ensures DistinctNodes(Findings(c, opts, test, visits))
  {
    if |visits| > 0 {
      var v, tail := visits[0], visits[1..];
      assert forall i :: 0 < i < |visits| ==> visits[i] == tail[i - 1];
      FindingsAtMostOncePerNode(c, opts, test, tail);
      FindingsOnlyAboutVisited(c, opts, test, tail, v.obj.id);
      if Decide(c, opts, test, v.obj, v.ancestors).Report? {
        DistinctNodesCons(Finding(v.obj.id, Forbidden), Findings(c, opts, test, tail));
      }
    }
  }

}
