/** The bounded cleanup both stores use: delete the earliest-expiring rows, at most `limit` of them. */
module Expiry {
  import opened Common

  predicate Expired<K>(expiry: map<K, Instant>, k: K, at: Instant) {
    k in expiry && expiry[k] <= at
  }

  /** Expired keys, as many as there are up to the limit, none of which expires after one left out. */
  predicate IsBatch<K>(expiry: map<K, Instant>, limit: nat, at: Instant, batch: set<K>) {
    && |batch| <= limit
    && (forall k | k in batch :: Expired(expiry, k, at))
    && (forall k, l | k in batch && l in expiry && l !in batch && expiry[l] <= at :: expiry[k] <= expiry[l])
    && (|batch| < limit ==> forall k | k in expiry && expiry[k] <= at :: k in batch)
  }

  /** A batch has as many keys as the limit allows or as have expired, whichever is less. */
  lemma BatchSize<K>(expiry: map<K, Instant>, limit: nat, at: Instant, batch: set<K>)
    requires IsBatch(expiry, limit, at, batch)
    ensures var expired := set k | k in expiry && expiry[k] <= at;
            batch <= expired && |batch| == if |expired| < limit then |expired| else limit
  {
    var expired := set k | k in expiry && expiry[k] <= at;
    if |batch| < limit {
      assert batch == expired;
    } else {
      assert |batch| + |expired - batch| == |expired|;
    }
  }

  method EarliestBatch<K(==)>(expiry: map<K, Instant>, limit: nat, at: Instant) returns (batch: set<K>)
    ensures IsBatch(expiry, limit, at, batch)
  {
    batch := {};
    var rest := set k | k in expiry && expiry[k] <= at;
    while |batch| < limit && rest != {}
      invariant |batch| <= limit
      invariant forall k | k in batch :: Expired(expiry, k, at)
      invariant forall k | k in expiry && k !in batch :: expiry[k] <= at <==> k in rest
      invariant rest <= expiry.Keys && rest !! batch
      invariant forall k, l | k in batch && l in rest :: expiry[k] <= expiry[l]
      decreases |rest|
    {
      var first := Earliest(expiry, rest);
      rest := rest - {first};
      batch := batch + {first};
    }
  }

  method Earliest<K(==)>(expiry: map<K, Instant>, keys: set<K>) returns (first: K)
    requires keys != {} && keys <= expiry.Keys
    ensures first in keys && forall k | k in keys :: expiry[first] <= expiry[k]
  {
    first :| first in keys;
    var rest := keys - {first};
    while rest != {}
      invariant rest <= keys && first in keys
      invariant forall k | k in keys && k !in rest :: expiry[first] <= expiry[k]
      decreases |rest|
    {
      var k :| k in rest;
      rest := rest - {k};
      if expiry[k] < expiry[first] {
        first := k;
      }
    }
  }
}
