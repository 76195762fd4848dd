/** Block headers, the header store and the ancestor path of a header.

    A hash is identified with the big-endian value of its 32 bytes, so that
    byte-lexicographic comparison of hashes is numeric comparison. The zero value
    stands for the empty hash, which database reads use for "not found". */
module Chain {
  import opened Basics

  const HASH_SPACE: nat := 0x1_0000_0000_0000_0000_0000_0000_0000_0000_0000_0000_0000_0000_0000_0000_0000_0000

  type Hash = h: int | 0 <= h < HASH_SPACE

  const ZERO_HASH: Hash := 0

  datatype Header = Header(hash: Hash, parent: Hash, number: nat, root: Hash, time: nat)

  /** The stored headers, by hash. */
  type Store = map<Hash, Header>

  /** The database read: keyed by number and hash, so the header found has the number asked for. */
  function GetHeader(store: Store, hash: Hash, number: int): (r: Option<Header>)
    ensures r.Some? ==> r.value.number == number && hash in store
  {
    if hash in store && store[hash].number == number then Some(store[hash]) else None
  }

  predicate Stored(store: Store, h: Header) {
    h.hash in store && store[h.hash] == h
  }

  /** Every stored header other than genesis sits on a stored parent one number below. */
  ghost predicate Closed(store: Store, genesis: Header) {
    && genesis.number == 0 && genesis.parent == ZERO_HASH
    && Stored(store, genesis)
    && forall k {:trigger WellLinked(store, genesis, k)} | k in store :: WellLinked(store, genesis, k)
  }

  ghost predicate WellLinked(store: Store, genesis: Header, k: Hash)
    requires k in store
  {
    && store[k].hash == k
    && k != ZERO_HASH
    && (store[k].number == 0 ==> store[k] == genesis)
    && (store[k].number > 0 ==> store[k].parent in store && store[store[k].parent].number == store[k].number - 1)
  }

  ghost function ParentOf(store: Store, genesis: Header, h: Header): (p: Header)
    requires Closed(store, genesis) && Stored(store, h) && h.number > 0
    ensures Stored(store, p) && p.number == h.number - 1 && p.hash == h.parent
    ensures GetHeader(store, h.parent, h.number - 1) == Some(p)
  {
    assert WellLinked(store, genesis, h.hash);
    assert WellLinked(store, genesis, h.parent);
    store[h.parent]
  }

  /** The ancestors of `h`, genesis first, so that position is block number. */
  ghost function Path(store: Store, genesis: Header, h: Header): (p: seq<Header>)
    requires Closed(store, genesis) && Stored(store, h)
    ensures |p| == h.number + 1 && p[h.number] == h && p[0] == genesis
    ensures forall i | 0 <= i < |p| :: p[i].number == i && Stored(store, p[i])
    ensures forall i, j | 0 <= i < j < |p| && j == i + 1 :: p[j].parent == p[i].hash
    decreases h.number
  {
    assert WellLinked(store, genesis, h.hash);
    if h.number == 0 then [h] else Path(store, genesis, ParentOf(store, genesis, h)) + [h]
  }

  /** The number-to-hash index that lists exactly the blocks of `path`. */
  ghost function IndexAlong(path: seq<Header>): (index: map<nat, Hash>)
    ensures forall n: nat :: n in index <==> n < |path|
    ensures forall n: nat | n in index :: index[n] == path[n].hash
  {
    map n: nat | n < |path| :: path[n].hash
  }

  /** The index that lists exactly the ancestors of `h`, and nothing above it. */
  ghost function IndexOf(store: Store, genesis: Header, h: Header): (index: map<nat, Hash>)
    requires Closed(store, genesis) && Stored(store, h)
  {
    IndexAlong(Path(store, genesis, h))
  }

  /** The path of an ancestor is a prefix of the path. */
  lemma {:induction false} PathOfAncestor(store: Store, genesis: Header, h: Header, i: nat)
    requires Closed(store, genesis) && Stored(store, h) && i <= h.number
    ensures Path(store, genesis, Path(store, genesis, h)[i]) == Path(store, genesis, h)[..i+1]
    decreases h.number
  {
    var p := Path(store, genesis, h);
    if i == h.number {
      assert p[..i+1] == p;
    } else {
      var q := Path(store, genesis, ParentOf(store, genesis, h));
      assert p == q + [h];
      PathOfAncestor(store, genesis, ParentOf(store, genesis, h), i);
      assert p[..i+1] == q[..i+1];
    }
  }

  /** Two paths that meet at one number agree everywhere below it. */
  lemma PathsMeet(store: Store, genesis: Header, a: Header, b: Header, i: nat)
    requires Closed(store, genesis) && Stored(store, a) && Stored(store, b)
    requires i <= a.number && i <= b.number
    requires Path(store, genesis, a)[i] == Path(store, genesis, b)[i]
    ensures Path(store, genesis, a)[..i+1] == Path(store, genesis, b)[..i+1]
    ensures forall n | 0 <= n <= i :: Path(store, genesis, a)[n] == Path(store, genesis, b)[n]
  {
    PathOfAncestor(store, genesis, a, i);
    PathOfAncestor(store, genesis, b, i);
    var pa, pb := Path(store, genesis, a), Path(store, genesis, b);
    assert forall n | 0 <= n <= i :: pa[n] == pa[..i+1][n] == pb[..i+1][n] == pb[n];
  }

  /** Storing more headers leaves the path of a stored header as it was. */
  lemma {:induction false} PathStable(store: Store, more: Store, genesis: Header, h: Header)
    requires Closed(store, genesis) && Closed(more, genesis) && Stored(store, h)
    requires forall k | k in store :: k in more && more[k] == store[k]
    ensures Stored(more, h)
    ensures Path(more, genesis, h) == Path(store, genesis, h)
    ensures IndexOf(more, genesis, h) == IndexOf(store, genesis, h)
    decreases h.number
  {
    if h.number > 0 {
      PathStable(store, more, genesis, ParentOf(store, genesis, h));
      assert ParentOf(store, genesis, h) == ParentOf(more, genesis, h);
    }
  }

  /** The index of a child is the index of its parent plus one entry. */
  lemma IndexExtends(store: Store, genesis: Header, h: Header)
    requires Closed(store, genesis) && Stored(store, h) && h.number > 0
    ensures IndexOf(store, genesis, h) == IndexOf(store, genesis, ParentOf(store, genesis, h))[h.number := h.hash]
  {
    assert Path(store, genesis, h) == Path(store, genesis, ParentOf(store, genesis, h)) + [h];
  }

  /** Storing a header whose parent is stored keeps the store closed. */
  lemma ClosedExtends(store: Store, genesis: Header, h: Header)
    requires Closed(store, genesis)
    requires h.hash != ZERO_HASH && h.number > 0
    requires GetHeader(store, h.parent, h.number - 1).Some?
    requires h.hash in store ==> store[h.hash] == h
    ensures Closed(store[h.hash := h], genesis)
  {
    var more := store[h.hash := h];
    forall k | k in more ensures WellLinked(more, genesis, k) {
      if k in store { assert WellLinked(store, genesis, k); }
    }
  }

  /** A strict upper bound on a finite set of block numbers. */
  ghost function Bound(numbers: set<nat>): (b: nat)
    ensures forall n | n in numbers :: n < b
  {
    if numbers == {} then 0
    else
      var n :| n in numbers;
      var rest := Bound(numbers - {n});
      assert forall m | m in numbers :: m == n || m in numbers - {n};
      if n < rest then rest else n + 1
  }

  /** The end of the gap-free run of indexed numbers that starts at `from`. */
  method RunEnd(index: map<nat, Hash>, from: nat) returns (end: nat)
    ensures from <= end && end !in index
    ensures forall n: nat | from <= n < end :: n in index
  {
    end := from;
    while end in index
      invariant from <= end
      invariant forall n: nat | from <= n < end :: n in index
      decreases Bound(index.Keys) - end
    {
      assert end in index.Keys;
      end := end + 1;
    }
  }

  predicate At(path: seq<Header>, h: Header) {
    h.number < |path| && path[h.number] == h
  }

  /** `path` is a parent-linked run of stored headers from number zero up to `head`. */
  ghost predicate IsPath(store: Store, path: seq<Header>, head: Header) {
    && |path| == head.number + 1 && path[head.number] == head
    && (forall i | 0 <= i < |path| :: path[i].number == i && Stored(store, path[i]))
    && (forall i, j | 0 <= i < j < |path| && j == i + 1 :: path[j].parent == path[i].hash)
  }

  /** One step of a walk along a path stays on it. */
  lemma StepBack(store: Store, path: seq<Header>, head: Header, h: Header)
    requires IsPath(store, path, head) && At(path, h) && h.number > 0
    ensures GetHeader(store, h.parent, h.number - 1) == Some(path[h.number - 1])
  {
    assert Stored(store, path[h.number - 1]);
  }

  ghost predicate Numbered(path: seq<Header>) {
    forall i | 0 <= i < |path| :: path[i].number == i
  }

  /** Delete the index entries strictly between two numbers. */
  function Trim(index: map<nat, Hash>, number: nat, end: nat): (r: map<nat, Hash>) {
    index - (set n | n in index && number < n < end)
  }

  /** Deleting the run above `path` from an index that starts with it leaves exactly its entries. */
  lemma TrimmedIndex(path: seq<Header>, written: map<nat, Hash>, top: nat, end: nat)
    requires |path| > 0
    requires forall n: nat | n < |path| :: n in written && written[n] == path[n].hash
    requires forall n: nat | n in written :: n < |path| || n < top
    requires |path| <= end && end !in written && forall n: nat | |path| <= n < top :: n in written
    ensures Trim(written, |path| - 1, end) == IndexAlong(path)
  {
  }

  /** The store after every header of `hs` is written to it, in order. */
  ghost function StoreAll(store: Store, hs: seq<Header>): (r: Store) {
    if hs == [] then store else StoreAll(store, hs[..|hs|-1])[hs[|hs|-1].hash := hs[|hs|-1]]
  }

  /** Each header arrives after its parent, and no two different headers share a hash. */
  ghost predicate ParentsFirst(store: Store, hs: seq<Header>) {
    hs == [] ||
    var rest, last := hs[..|hs|-1], hs[|hs|-1];
    && ParentsFirst(store, rest)
    && last.hash != ZERO_HASH
    && GetHeader(StoreAll(store, rest), last.parent, last.number - 1).Some?
    && (last.hash in StoreAll(store, rest) ==> StoreAll(store, rest)[last.hash] == last)
  }

  /** The store after an import: what was there, plus exactly the imported headers. */
  lemma {:induction false} StoreContents(store: Store, genesis: Header, hs: seq<Header>)
    requires Closed(store, genesis) && ParentsFirst(store, hs)
    ensures Closed(StoreAll(store, hs), genesis)
    ensures forall k | k in store :: k in StoreAll(store, hs) && StoreAll(store, hs)[k] == store[k]
    ensures forall h | h in hs :: Stored(StoreAll(store, hs), h)
    ensures forall k | k in StoreAll(store, hs) :: k in store || StoreAll(store, hs)[k] in hs
  {
    if hs != [] {
      var rest, last := hs[..|hs|-1], hs[|hs|-1];
      StoreContents(store, genesis, rest);
      ClosedExtends(StoreAll(store, rest), genesis, last);
      assert hs == rest + [last];
    }
  }
}
