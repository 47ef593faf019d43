/** What a publisher's naming, canonical form and storage relation must satisfy, and that the code's do. */
module Identities {
  import opened Slices
  import opened Canonical
  import opened Naming

  ghost predicate NamesSeparate(id: Identity)
  {
    forall pool, i, j :: 0 <= i < USIZE_LIMIT && 0 <= j < USIZE_LIMIT && id.nameOf(pool, i) == id.nameOf(pool, j) ==> i == j
  }

  predicate HeaderKept(id: Identity, w: Spec, s: Spec)
  {
    id.keeps(w, s) ==> s.driver == w.driver && s.node == w.node && s.pool == w.pool
  }

  predicate EqualKept(id: Identity, w: Spec, s: Spec)
  {
    id.canon(w) == id.canon(s) ==> id.keeps(w, s)
  }

  /** Storing again from any spec canonically equal to the stored one stays faithful to the first. */
  predicate KeptThrough(id: Identity, w: Spec, current: Spec, rewritten: Spec, s: Spec)
  {
    id.keeps(w, current) && id.canon(current) == id.canon(rewritten) && id.keeps(rewritten, s) ==> id.keeps(w, s)
  }

  /** The canonical form carries the generation along and changes nothing else in the header. */
  predicate GenerationCarried(id: Identity, s: Spec, generation: int)
  {
    id.canon(AtGeneration(s, generation)) == AtGeneration(id.canon(s), generation) && id.canon(s).pool == s.pool
  }

  ghost predicate Lawful(id: Identity)
  {
    && NamesSeparate(id)
    && (forall w, s :: HeaderKept(id, w, s))
    && (forall w, s :: EqualKept(id, w, s))
    && (forall w, current, rewritten, s :: KeptThrough(id, w, current, rewritten, s))
    && (forall s, generation :: GenerationCarried(id, s, generation))
  }

  predicate CanonAgrees(id: Identity, s: Spec)
  {
    id.canon(s) == CanonSpec(s)
  }

  predicate KeepsAgrees(id: Identity, w: Spec, s: Spec)
  {
    id.keeps(w, s) == Keeps(w, s)
  }

  /** Specs are compared in the code's canonical form. */
  ghost predicate ComparesCanonically(id: Identity)
  {
    (forall s :: CanonAgrees(id, s)) && forall w, s :: KeepsAgrees(id, w, s)
  }

  /** The publisher of a driver on a node: slices named by the stable hash, specs compared canonically. */
  function PublisherIdentity(driver: string, node: string): Identity
  {
    Identity(
      driver, node,
      (pool: string, index: nat) => if index < USIZE_LIMIT then SliceName(driver, node, pool, index) else "",
      CanonSpec, Keeps)
  }

  lemma PublisherNamesSeparate(driver: string, node: string)
    ensures NamesSeparate(PublisherIdentity(driver, node))
  {
    forall pool, i, j | 0 <= i < USIZE_LIMIT && 0 <= j < USIZE_LIMIT && PublisherIdentity(driver, node).nameOf(pool, i) == PublisherIdentity(driver, node).nameOf(pool, j)
      ensures i == j
    {
      SliceNameInjective(driver, node, pool, i, j);
    }
  }

  lemma CanonCarriesGeneration(s: Spec, generation: int)
    ensures CanonSpec(AtGeneration(s, generation)) == AtGeneration(CanonSpec(s), generation) && CanonSpec(s).pool == s.pool
  {
  }

  lemma KeepsEqual(w: Spec, s: Spec)
    requires CanonSpec(w) == CanonSpec(s)
    ensures Keeps(w, s)
  {
    KeepsReflexive(s);
  }

  /** The code's names, canonical form and comparison meet every law the publication proofs rely on. */
  lemma PublisherLawful(driver: string, node: string)
    ensures Lawful(PublisherIdentity(driver, node)) && ComparesCanonically(PublisherIdentity(driver, node))
  {
    var id := PublisherIdentity(driver, node);
    PublisherNamesSeparate(driver, node);
    forall w, s
      ensures HeaderKept(id, w, s)
    {
      if Keeps(w, s) {
        KeepsHeader(w, s);
      }
    }
    forall w, s
      ensures EqualKept(id, w, s)
    {
      if CanonSpec(w) == CanonSpec(s) {
        KeepsEqual(w, s);
      }
    }
    forall w, current, rewritten, s
      ensures KeptThrough(id, w, current, rewritten, s)
    {
      if Keeps(w, current) && CanonSpec(current) == CanonSpec(rewritten) && Keeps(rewritten, s) {
        KeepsThrough(w, current, rewritten, s);
      }
    }
    forall s, generation
      ensures GenerationCarried(id, s, generation)
    {
      CanonCarriesGeneration(s, generation);
    }
  }
}
