/**
 * `CapabilityRegistryLive` (node/capabilities.ts, duplicated in
 * graph/node/node.ts): a JavaScript `Map` from symbol to predicate, mutated in
 * place by `registerPredicate` and read by `getPredicate`.
 */
module Capabilities {
  import opened Wrappers
  import opened Predicates

  /** `Map.set`: insert or replace the entry for the predicate's id. */
  function Register(m: map<SymbolKey, NodePredicate>, p: NodePredicate): (r: map<SymbolKey, NodePredicate>)
    ensures r.Keys == m.Keys + {p.id}
  {
    m[p.id := p]
  }

  /** `Map.get`, with the `undefined` of a missing key as `None`. */
  function Lookup(m: map<SymbolKey, NodePredicate>, id: SymbolKey): (r: Option<NodePredicate>)
    ensures r.Some? <==> id in m
    ensures r.Some? ==> r.value == m[id]
  {
    if id in m then Some(m[id]) else None
  }

  /** Looking up a predicate's id right after registering it finds that predicate. */
  lemma LookupRegistered(m: map<SymbolKey, NodePredicate>, p: NodePredicate)
    ensures Lookup(Register(m, p), p.id) == Some(p)
  {
  }

  /** Registering leaves every other id's lookup as it was. */
  lemma LookupOtherUnchanged(m: map<SymbolKey, NodePredicate>, p: NodePredicate, id: SymbolKey)
    requires id != p.id
    ensures Lookup(Register(m, p), id) == Lookup(m, id)
  {
  }

  /** Registering a second predicate under an id that is present replaces the first. */
  lemma RegisterReplaces(m: map<SymbolKey, NodePredicate>, p: NodePredicate, q: NodePredicate)
    requires p.id == q.id
    ensures Register(Register(m, p), q) == Register(m, q)
    ensures |Register(Register(m, p), q).Keys| == |Register(m, p).Keys|
  {
  }

  class CapabilityRegistry {
    var entries: map<SymbolKey, NodePredicate>

    /** Each registry built from the layer starts with an empty `Map`. */
    constructor()
      ensures entries == map[]
    {
      entries := map[];
    }

    method RegisterPredicate(p: NodePredicate)
      modifies this
      ensures entries == Register(old(entries), p)
    {
      entries := entries[p.id := p];
    }

    method GetPredicate(id: SymbolKey) returns (r: Option<NodePredicate>)
      ensures r.Some? <==> id in entries
      ensures r.Some? ==> r.value == entries[id]
    {
      if id in entries {
        r := Some(entries[id]);
      } else {
        r := None;
      }
    }
  }
}
