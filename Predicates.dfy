/**
 * Node capabilities and the `and`/`or`/`not` predicate combinators of
 * node/predicate.ts (duplicated verbatim in graph/node/node.ts).
 *
 * A capability's `_id` is always built with `Symbol.for(key)`, so a symbol is
 * identified by its key and `String(sym)` is `"Symbol(" + key + ")"`; the
 * model keeps the key string as the id.
 */
module Predicates {
  import opened Nodes

  type SymbolKey = string

  /** `String(Symbol.for(key))`. */
  function SymbolString(key: SymbolKey): string
  {
    "Symbol(" + key + ")"
  }

  /** `NodePredicate`: an identified boolean test on nodes. */
  datatype NodePredicate = NodePredicate(id: SymbolKey, evaluate: Node -> bool)

  /** `NodeEquivalence` and `NodeOrdering` are interfaces only; no operation of the core builds one. */
  datatype NodeEquivalence = NodeEquivalence(id: SymbolKey, equals: (Node, Node) -> bool)
  datatype Ordering = Less | Equal | Greater
  datatype NodeOrdering = NodeOrdering(id: SymbolKey, compare: (Node, Node) -> Ordering)

  /** `p` and `q` give the same answer on every node. */
  ghost predicate SameEvaluation(p: NodePredicate, q: NodePredicate)
  {
    forall n: Node :: p.evaluate(n) == q.evaluate(n)
  }

  /** `and(right)(self)`. */
  function And(right: NodePredicate, self: NodePredicate): (r: NodePredicate)
    ensures forall n: Node :: r.evaluate(n) <==> self.evaluate(n) && right.evaluate(n)
    ensures |r.id| > 4 && r.id[..4] == "and("
    ensures r.id == "and(" + SymbolString(self.id) + ", " + SymbolString(right.id) + ")"
  {
    NodePredicate("and(" + SymbolString(self.id) + ", " + SymbolString(right.id) + ")",
                  (n: Node) => self.evaluate(n) && right.evaluate(n))
  }

  /** `or(right)(self)`. */
  function Or(right: NodePredicate, self: NodePredicate): (r: NodePredicate)
    ensures forall n: Node :: r.evaluate(n) <==> self.evaluate(n) || right.evaluate(n)
    ensures |r.id| > 3 && r.id[..3] == "or("
    ensures r.id == "or(" + SymbolString(self.id) + ", " + SymbolString(right.id) + ")"
  {
    NodePredicate("or(" + SymbolString(self.id) + ", " + SymbolString(right.id) + ")",
                  (n: Node) => self.evaluate(n) || right.evaluate(n))
  }

  /** `not(self)`. */
  function Not(self: NodePredicate): (r: NodePredicate)
    ensures forall n: Node :: r.evaluate(n) <==> !self.evaluate(n)
    ensures |r.id| > 4 && r.id[..4] == "not("
    ensures r.id == "not(" + SymbolString(self.id) + ")"
  {
    NodePredicate("not(" + SymbolString(self.id) + ")", (n: Node) => !self.evaluate(n))
  }

  /**
   * The three combinators never produce the same id, so registering a
   * conjunction cannot overwrite a disjunction or a negation.
   */
  lemma CombinatorIdsDistinct(p: NodePredicate, q: NodePredicate, s: NodePredicate)
    ensures And(q, p).id != Or(q, p).id
    ensures And(q, p).id != Not(s).id
    ensures Or(q, p).id != Not(s).id
  {
    assert And(q, p).id[0] == 'a' && Or(q, p).id[0] == 'o' && Not(s).id[0] == 'n';
  }

  lemma AndCommutes(p: NodePredicate, q: NodePredicate)
    ensures SameEvaluation(And(q, p), And(p, q))
  {
  }

  lemma OrCommutes(p: NodePredicate, q: NodePredicate)
    ensures SameEvaluation(Or(q, p), Or(p, q))
  {
  }

  lemma AndAssociates(p: NodePredicate, q: NodePredicate, s: NodePredicate)
    ensures SameEvaluation(And(s, And(q, p)), And(And(s, q), p))
  {
  }

  lemma DeMorgan(p: NodePredicate, q: NodePredicate)
    ensures SameEvaluation(Not(And(q, p)), Or(Not(q), Not(p)))
    ensures SameEvaluation(Not(Or(q, p)), And(Not(q), Not(p)))
  {
  }

  lemma DoubleNegation(p: NodePredicate)
    ensures SameEvaluation(Not(Not(p)), p)
  {
  }

  /** Always-true is a unit of `and`, always-false a unit of `or`, on either side. */
  lemma Identities(p: NodePredicate, t: NodePredicate, f: NodePredicate)
    requires forall n: Node :: t.evaluate(n)
    requires forall n: Node :: !f.evaluate(n)
    ensures SameEvaluation(And(t, p), p) && SameEvaluation(And(p, t), p)
    ensures SameEvaluation(Or(f, p), p) && SameEvaluation(Or(p, f), p)
  {
  }
}
