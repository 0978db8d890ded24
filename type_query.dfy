/**
 The type checker as the rule sees it: three lookups whose behaviour is
 not part of this model, and the rule's `checkObject`, which decides
 whether an object literal is untyped.
 */
module TypeQuery {
  import opened Wrappers
  import opened Syntax

  type TypeId = nat
  type SymbolId = nat

  /**
   The type checker's answers: `getContextualType(node)`,
   `type.getSymbol()` and `symbol.valueDeclaration`, each possibly absent.
   */
  datatype Checker = Checker(
    contextualType: NodeId -> Option<TypeId>,
    getSymbol: TypeId -> Option<SymbolId>,
    valueDeclaration: SymbolId -> Option<NodeId>)

  /** The declaration that produced a type, if the type has a symbol and the symbol one. */
  function OwningDeclaration(c: Checker, t: TypeId): (d: Option<NodeId>)
    ensures d.Some? <==> exists s :: c.getSymbol(t) == Some(s) && c.valueDeclaration(s).Some?
    ensures forall s :: c.getSymbol(t) == Some(s) ==> d == c.valueDeclaration(s)
  {
    match c.getSymbol(t)
    case None => None
    case Some(s) => c.valueDeclaration(s)
  }

  /**
   The node has a contextual type that it did not produce itself: the
   type is imposed from outside, so the object's shape is annotated.
   */
  ghost predicate HasContextualType(c: Checker, id: NodeId)
  {
    exists t :: c.contextualType(id) == Some(t) && OwningDeclaration(c, t) != Some(id)
  }

  /**
   `checkObject`: the object literal `id` is untyped when it has no
   contextual type, or when its contextual type was inferred from the
   object itself (the type's symbol is declared by this very node).
   */
  function Untyped(c: Checker, id: NodeId): (r: bool)
    ensures r <==> !HasContextualType(c, id)
  {
    match c.contextualType(id)
    case None => true
    case Some(t) =>
      var own := OwningDeclaration(c, t);
      assert own != Some(id) ==> HasContextualType(c, id);
      own == Some(id)
  }

  /**
   Given a contextual type `t`, the object counts as untyped exactly when
   `t` has a symbol whose value declaration is the object node itself; a
   type without a symbol, a symbol without a declaration, or another
   declaration make it typed.
   */
  lemma ContextualTypeOwnership(c: Checker, id: NodeId, t: TypeId)
    requires c.contextualType(id) == Some(t)
    ensures Untyped(c, id) <==> exists s :: c.getSymbol(t) == Some(s) && c.valueDeclaration(s) == Some(id)
  {
  }

}
