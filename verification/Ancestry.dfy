/** Ancestor hashes by number: the plain parent walk, and the block-hash lookup that
    remembers how far it has walked. */
module Ancestry {
  import opened Basics
  import opened Chain

  /** The plain walk: the hash `k` parents above the block with this hash and number. */
  function AncestorHash(store: Store, hash: Hash, number: int, k: nat): (r: Option<Hash>)
    decreases k
  {
    if k == 0 then Some(hash)
    else
      var h := GetHeader(store, hash, number);
      if h.None? then None else AncestorHash(store, h.value.parent, number - 1, k - 1)
  }

  /** Walking `j` parents and then `k` more is walking `j + k`. */
  lemma {:induction false} WalksCompose(store: Store, hash: Hash, number: int, j: nat, k: nat)
    ensures AncestorHash(store, hash, number, j + k) ==
            (var mid := AncestorHash(store, hash, number, j);
             if mid.None? then None else AncestorHash(store, mid.value, number - j, k))
    decreases j
  {
    if j > 0 {
      var h := GetHeader(store, hash, number);
      if h.Some? {
        WalksCompose(store, h.value.parent, number - 1, j - 1, k);
      }
    }
  }

  /** Along a path of stored headers the walk reads off the path. */
  lemma {:induction false} WalkAlongPath(store: Store, path: seq<Header>, head: Header, n: nat, k: nat)
    requires IsPath(store, path, head) && k <= n < |path|
    ensures AncestorHash(store, path[n].hash, n, k) == Some(path[n-k].hash)
    decreases k
  {
    if k > 0 {
      assert Stored(store, path[n]);
      StepBack(store, path, head, path[n]);
      WalkAlongPath(store, path, head, n - 1, k - 1);
    }
  }

  /** The hash an executing block sees for block number `n`, or the empty hash. */
  function BlockHash(store: Store, ref: Header, n: nat): (r: Hash) {
    if ref.number <= n then ZERO_HASH
    else
      var r := AncestorHash(store, ref.parent, ref.number - 1, ref.number - 1 - n);
      if r.None? then ZERO_HASH else r.value
  }

  /** For a block on top of a path of stored headers, these are the hashes along the path. */
  lemma BlockHashOnPath(store: Store, path: seq<Header>, ref: Header, n: nat)
    requires |path| == ref.number > 0 && IsPath(store, path, path[|path|-1]) && ref.parent == path[|path|-1].hash
    ensures BlockHash(store, ref, n) == if n < |path| then path[n].hash else ZERO_HASH
  {
    if n < |path| { WalkAlongPath(store, path, path[|path|-1], |path| - 1, |path| - 1 - n); }
  }

  /** The closure behind the BLOCKHASH operation of one block. */
  class HashLookup {
    const chain: Store
    const ref: Header
    var cache: seq<Hash>

    /** Entry `i` is the hash of ancestor number `ref.number - 1 - i`; entries never pass genesis. */
    ghost predicate Valid()
      reads this
    {
      && |cache| <= ref.number
      && forall i | 0 <= i < |cache| :: AncestorHash(chain, ref.parent, ref.number - 1, i) == Some(cache[i])
    }

    constructor (chain: Store, ref: Header)
      ensures this.chain == chain && this.ref == ref && Valid()
    {
      this.chain := chain;
      this.ref := ref;
      cache := [];
    }

    /** Whatever was asked before, the answer is that of the plain walk. */
    method GetHash(n: nat) returns (h: Hash)
      requires Valid()
      modifies this`cache
      ensures Valid() && old(cache) <= cache
      ensures h == BlockHash(chain, ref, n)
    {
      if ref.number <= n {
        return ZERO_HASH;
      }
      if |cache| == 0 {
        cache := [ref.parent];
      }
      var idx := ref.number - n - 1;
      if idx < |cache| {
        return cache[idx];
      }
      var lastKnownHash := cache[|cache|-1];
      var lastKnownNumber: nat := ref.number - |cache|;
      while true
        invariant Valid() && old(cache) <= cache && |cache| > 0
        invariant lastKnownHash == cache[|cache|-1]
        invariant lastKnownNumber == ref.number - |cache| && n < lastKnownNumber
        decreases lastKnownNumber
      {
        WalksCompose(chain, ref.parent, ref.number - 1, |cache| - 1, idx - (|cache| - 1));
        WalksCompose(chain, ref.parent, ref.number - 1, |cache| - 1, 1);
        var header := GetHeader(chain, lastKnownHash, lastKnownNumber);
        if header.None? {
          return ZERO_HASH;
        }
        cache := cache + [header.value.parent];
        lastKnownHash := header.value.parent;
        lastKnownNumber := header.value.number - 1;
        if n == lastKnownNumber {
          return lastKnownHash;
        }
      }
    }
  }
}
