/**
 The syntax tree the rule reads. Nodes are immutable and compared by
 identity: two nodes are "the same node" exactly when their ids are equal,
 which is how the rule's reference comparison `n === valueDeclaration`
 is modelled.
 */
module Syntax {

  type NodeId = nat

  /** The callee of a call expression (a `ts.LeftHandSideExpression`). */
  datatype Callee =
    | CallExpr(callee: Callee)
      // a call used as a callee, as in `f()(x)`: only its own callee matters
    | PropertyAccess(objectText: string, nameText: string, text: string)
      // `objectText.nameText`; `text` is the whole node's source text,
      // which may hold comments and line breaks between the two parts
    | OtherCallee(text: string)
      // any other left-hand-side expression, kept as its source text

  /** The node kinds the rule tells apart. */
  datatype Kind =
    | ObjectLiteral(properties: nat)  // an object literal and its number of property entries
    | PropertyAssignment              // a `key: value` entry of an object literal
    | Call(callee: Callee)            // a call expression
    | OtherExpression                 // any other expression: array literal, arrow function, parentheses, ...
    | OtherNode                       // statements, declarations, blocks, the source file, ...

  datatype Node = Node(id: NodeId, kind: Kind)

  /** The classification `tsutils.isExpression`. */
  predicate IsExpression(k: Kind) {
    k.ObjectLiteral? || k.Call? || k.OtherExpression?
  }

  /**
   A contextual type can flow through a node to its children exactly when
   the node is an expression or a property assignment.
   */
  function CanTypeFlowToChild(k: Kind): (r: bool)
    ensures r <==> !k.OtherNode?
    ensures k.ObjectLiteral? || k.Call? ==> r
  {
    IsExpression(k) || k.PropertyAssignment?
  }

  /** Every node of `path` before position `k` lets a type flow to its child. */
  ghost predicate FlowsThrough(path: seq<Node>, k: nat)
    requires k <= |path|
  {
    forall j :: 0 <= j < k ==> CanTypeFlowToChild(path[j].kind)
  }

}
