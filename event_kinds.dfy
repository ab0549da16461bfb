/** Event kinds and the "is-a" relation between them, standing in for the
    runtime types that implement the event marker interface and for
    reflection's `Type.IsInstanceOfType`. */
module EventKinds {

  /** A kind is a tag naming one event type. */
  type Kind = nat

  /** The declared type hierarchy: the direct bases (base class and
      interfaces) of each kind. A base is declared before the types derived
      from it and so carries a smaller tag; an entry breaking that rule is
      ignored, which keeps the hierarchy acyclic as a type hierarchy is. */
  datatype Hierarchy = Hierarchy(bases: map<Kind, set<Kind>>)

  /** Every declared base is numbered below the kind that declares it, so no
      entry of the hierarchy is ignored. */
  predicate WellFormed(h: Hierarchy)
  {
    forall k, b :: k in h.bases && b in h.bases[k] ==> b < k
  }

  /** An instance of kind `k` is an instance of type `t`: `k` is `t` or one
      of its declared bases is, transitively. This is the reflexive-transitive
      closure of the declared bases of a well-formed hierarchy. */
  predicate IsA(h: Hierarchy, k: Kind, t: Kind)
    ensures k == t ==> IsA(h, k, t)
    ensures WellFormed(h) && k in h.bases && t in h.bases[k] ==> IsA(h, k, t)
    ensures IsA(h, k, t) ==> t <= k
    decreases k
  {
    k == t || (k in h.bases && exists b :: b in h.bases[k] && b < k && IsA(h, b, t))
  }

  /** Is-a is transitive: an instance of a derived kind is an instance of
      every base of its bases. */
  lemma {:induction false} IsATransitive(h: Hierarchy, a: Kind, b: Kind, c: Kind)
    requires IsA(h, a, b) && IsA(h, b, c)
    ensures IsA(h, a, c)
    decreases a
  {
    if a != b {
      var p :| p in h.bases[a] && p < a && IsA(h, p, b);
      IsATransitive(h, p, b, c);
    }
  }

  /** Is-a is antisymmetric: two kinds that are each other's instances are
      the same kind, so a proper base is never an instance of its derived kind. */
  lemma IsAAntisymmetric(h: Hierarchy, a: Kind, b: Kind)
    requires IsA(h, a, b) && IsA(h, b, a)
    ensures a == b
  {
  }
}
