/**
 The vector index as its callers see it: a map from row id to vector behind operations that
 can fail, and whose failure may or may not have taken effect.
 */
module VectorIndexes {
  import opened Common

  type Vectors = map<nat, Vec>

  /** One vector handed to the index. */
  datatype Delivery = Delivery(id: nat, vec: Vec)

  /** The index after a list of additions. */
  function AddAll(m: Vectors, ds: seq<Delivery>): Vectors {
    if ds == [] then m else AddAll(m, ds[..|ds| - 1])[ds[|ds| - 1].id := ds[|ds| - 1].vec]
  }

  lemma AddOne(m: Vectors, ds: seq<Delivery>, d: Delivery)
    ensures AddAll(m, ds + [d]) == AddAll(m, ds)[d.id := d.vec]
  {
    assert (ds + [d])[..|ds|] == ds;
  }

  lemma {:induction false} AddSplit(m: Vectors, a: seq<Delivery>, b: seq<Delivery>)
    ensures AddAll(m, a + b) == AddAll(AddAll(m, a), b)
  {
    if b == [] {
      assert a + b == a;
    } else {
      var b', d := b[..|b| - 1], b[|b| - 1];
      assert a + b == (a + b') + [d];
      AddSplit(m, a, b');
      AddOne(m, a + b', d);
    }
  }

  /** The two agree on every id outside `ids`. */
  ghost predicate Elsewhere(m: Vectors, m': Vectors, ids: set<nat>) {
    forall id {:trigger id in m'} {:trigger id in m} ::
      id !in ids ==> (id in m <==> id in m') && (id in m ==> m'[id] == m[id])
  }

  class VectorIndex {
    /** What the open handle answers from. */
    var vectors: Vectors

    /** Every addition that reported success, in order. */
    ghost var adds: seq<Delivery>

    constructor (vectors: Vectors)
      ensures this.vectors == vectors
    {
      this.vectors := vectors;
      this.adds := [];
    }

    /** `cberg_index_add`: on failure the id may hold its old vector, the new one, or none. */
    method Add(id: nat, vec: Vec) returns (st: Status)
      modifies this
      ensures Elsewhere(old(vectors), vectors, {id})
      ensures st == Ok ==> vectors == old(vectors)[id := vec] && adds == old(adds) + [Delivery(id, vec)]
      ensures st != Ok ==> adds == old(adds)
    {
      st := Outcome();
      if st == Ok {
        vectors := vectors[id := vec];
        adds := adds + [Delivery(id, vec)];
      } else {
        var applied: bool, gone: bool := *, *;
        vectors := if applied then vectors[id := vec] else if gone then vectors - {id} else vectors;
      }
    }

    /** `cberg_index_remove`: NotFound only for an absent id; any other failure may have removed it. */
    method Remove(id: nat) returns (st: Status)
      modifies this
      ensures vectors == old(vectors) || vectors == old(vectors) - {id}
      ensures st == Ok || st == NotFound ==> id !in vectors
      ensures adds == old(adds)
    {
      st := Outcome();
      if st == NotFound && id in vectors {
        st := Internal;
      }
      var gone: bool := *;
      if st == Ok || gone {
        vectors := vectors - {id};
      }
    }

    /** `cberg_index_clear`: on failure any part of the index may already be gone. */
    method Clear() returns (st: Status)
      modifies this
      ensures adds == old(adds)
      ensures st == Ok ==> vectors == map[]
    {
      st := Outcome();
      vectors := *;
      if st == Ok {
        vectors := map[];
      }
    }
  }
}
