/**
 The climb over an object literal's ancestors (`checkIfReportedForParents`).
 A node's ancestors are given as a sequence: `path[0]` is its parent,
 `path[i + 1]` the parent of `path[i]`, and the last element is the root.
 */
module AncestorWalk {
  import opened Syntax
  import opened TypeQuery

  /** `path[k]` is an object literal that is itself untyped. */
  ghost predicate UntypedObjectAt(c: Checker, path: seq<Node>, k: nat)
    requires k < |path|
  {
    path[k].kind.ObjectLiteral? && Untyped(c, path[k].id)
  }

  /**
   Reference definition: some ancestor is an untyped object literal, and
   every node below it on the way up lets a type flow to its child. The
   topmost such ancestor is reported unless the call exemption spares it
   (or it is empty); the descendant is not reported.
   */
  ghost predicate ReachesUntypedObject(c: Checker, path: seq<Node>)
  {
    exists k :: 0 <= k < |path| && UntypedObjectAt(c, path, k) && FlowsThrough(path, k)
  }

  /**
   `checkIfReportedForParents`, started at `path[0]`: fails at the first
   node through which no type flows, succeeds at the first untyped object
   literal, and otherwise goes on to the parent. Running out of ancestors
   fails. The recursion is on the length of the chain, so it ends.
   */
  function ReportedForParents(c: Checker, path: seq<Node>): (r: bool)
    ensures r <==> ReachesUntypedObject(c, path)
    decreases |path|
  {
    if |path| == 0 then
      false
    else if !CanTypeFlowToChild(path[0].kind) then
      assert forall k :: 0 < k < |path| ==> !FlowsThrough(path, k);
      false
    else if path[0].kind.ObjectLiteral? && Untyped(c, path[0].id) then
      assert UntypedObjectAt(c, path, 0) && FlowsThrough(path, 0);
      true
    else
      var r := ReportedForParents(c, path[1..]);
      ShiftReaches(c, path);
      r
  }

  /** Past a node through which types flow and which is not an untyped object literal, the walk continues unchanged one step up. */
  lemma ShiftReaches(c: Checker, path: seq<Node>)
    requires |path| > 0 && CanTypeFlowToChild(path[0].kind)
    requires !(path[0].kind.ObjectLiteral? && Untyped(c, path[0].id))
    ensures ReachesUntypedObject(c, path) <==> ReachesUntypedObject(c, path[1..])
  {
    var tail := path[1..];
    if ReachesUntypedObject(c, path) {
      var k :| 0 <= k < |path| && UntypedObjectAt(c, path, k) && FlowsThrough(path, k);
      assert k > 0;
      assert UntypedObjectAt(c, tail, k - 1);
      assert FlowsThrough(tail, k - 1) by {
        forall j | 0 <= j < k - 1 ensures CanTypeFlowToChild(tail[j].kind) {
          assert tail[j] == path[j + 1];
        }
      }
    }
    if ReachesUntypedObject(c, tail) {
      var k :| 0 <= k < |tail| && UntypedObjectAt(c, tail, k) && FlowsThrough(tail, k);
      assert UntypedObjectAt(c, path, k + 1);
      assert FlowsThrough(path, k + 1) by {
        forall j | 0 <= j < k + 1 ensures CanTypeFlowToChild(path[j].kind) {
          if j > 0 { assert path[j] == tail[j - 1]; }
        }
      }
    }
  }

  /**
   A boundary ends the walk: once `path[k]` lets no type flow, nothing
   at or above it affects the result.
   */
  lemma {:induction false} StopsAtBoundary(c: Checker, path: seq<Node>, k: nat)
    requires k < |path| && !CanTypeFlowToChild(path[k].kind)
    ensures ReportedForParents(c, path) == ReportedForParents(c, path[..k])
    decreases k
  {
    if k > 0 && CanTypeFlowToChild(path[0].kind) && !(path[0].kind.ObjectLiteral? && Untyped(c, path[0].id)) {
      StopsAtBoundary(c, path[1..], k - 1);
      assert path[..k][1..] == path[1..][..k - 1];
    }
  }

  /**
   An object-literal ancestor that has a contextual type of its own does
   not stop the walk: the result is the walk from its parent.
   */
  lemma TypedObjectPassesThrough(c: Checker, path: seq<Node>)
    requires |path| > 0 && path[0].kind.ObjectLiteral? && HasContextualType(c, path[0].id)
    ensures ReportedForParents(c, path) == ReportedForParents(c, path[1..])
  {
  }

}
