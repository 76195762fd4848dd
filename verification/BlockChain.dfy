/** The canonical chain of full blocks: head markers, the number-to-hash index and the
    transaction lookup index, and the operations that move the head.

    Database maps are fields; a batch is a set of writes applied together at the end. */
module BlockChains {
  import opened Basics
  import opened Chain
  import opened ForkChoice

  type TxHash = Hash

  /** Block bodies, by block hash: the transaction hashes in order. */
  type Bodies = map<Hash, seq<TxHash>>

  datatype ReorgError = InvalidOldChain | InvalidNewChain

  datatype ReorgResult = Reorged | Failed(error: ReorgError)

  /** What the ancestor walk of a reorg finds: the blocks to drop and to add, newest first. */
  datatype ForkResult =
    | Fork(ancestor: Header, dropped: seq<Header>, added: seq<Header>)
    | NoFork(error: ReorgError)

  datatype WriteStatus = Canonical | Side | Rejected(why: WriteError)

  datatype WriteError = UnknownAncestor | ReorgFailed

  function TxEntries(txs: seq<TxHash>, number: nat): (entries: map<TxHash, nat>) {
    map tx | tx in txs :: number
  }

  /** Every transaction of `block` is looked up at `number`. */
  ghost predicate Covered(lookup: map<TxHash, nat>, bodies: Bodies, block: Header, number: nat) {
    block.hash in bodies && forall tx | tx in bodies[block.hash] :: tx in lookup && lookup[tx] == number
  }

  /** `lookup` maps exactly the transactions of the blocks on `path` to their block number. */
  ghost predicate LookupExact(lookup: map<TxHash, nat>, bodies: Bodies, path: seq<Header>) {
    && (forall i | 0 <= i < |path| :: Covered(lookup, bodies, path[i], i))
    && (forall tx | tx in lookup :: lookup[tx] < |path| && tx in bodies[path[lookup[tx]].hash])
  }

  /** The two blocks have no transaction in common. */
  ghost predicate Disjoint(bodies: Bodies, a: Header, b: Header) {
    a.hash in bodies && b.hash in bodies && forall tx | tx in bodies[a.hash] :: tx !in bodies[b.hash]
  }

  /** No transaction sits in two different blocks of `path`. */
  ghost predicate NoRepeats(bodies: Bodies, path: seq<Header>) {
    && (forall h | h in path :: h.hash in bodies)
    && (forall i, j | 0 <= i < j < |path| :: Disjoint(bodies, path[i], path[j]))
  }

  function AsSet(txs: seq<TxHash>): (r: set<TxHash>)
    ensures forall tx :: tx in r <==> tx in txs
  {
    set tx | tx in txs
  }

  /** `txs` are the transactions of the given blocks. */
  ghost predicate AreTxsOf(txs: set<TxHash>, bodies: Bodies, blocks: seq<Header>) {
    && (forall h | h in blocks :: h.hash in bodies)
    && (forall tx :: tx in txs <==> exists h :: h in blocks && tx in bodies[h.hash])
  }

  /** Every stored header has its body. */
  ghost predicate Complete(store: Store, bodies: Bodies) {
    forall k | k in store :: k in bodies
  }

  /** Appending a block writes its own entries over the index of its parent. */
  lemma LookupExtends(lookup: map<TxHash, nat>, bodies: Bodies, path: seq<Header>, h: Header)
    requires LookupExact(lookup, bodies, path)
    requires h.hash in bodies && forall i | 0 <= i < |path| :: Disjoint(bodies, path[i], h)
    ensures LookupExact(lookup + TxEntries(bodies[h.hash], |path|), bodies, path + [h])
  {
    var longer := path + [h];
    var more := lookup + TxEntries(bodies[h.hash], |path|);
    forall i | 0 <= i < |longer| ensures Covered(more, bodies, longer[i], i) {
      if i < |path| {
        assert Covered(lookup, bodies, path[i], i) && Disjoint(bodies, path[i], h);
      }
    }
  }

  /** `newestFirst` lists the blocks of `path` above number `c`, newest first. */
  ghost predicate Above(path: seq<Header>, c: nat, newestFirst: seq<Header>) {
    && c < |path|
    && |newestFirst| == |path| - 1 - c
    && forall i | 0 <= i < |newestFirst| :: newestFirst[i] == path[|path| - 1 - i]
  }

  /** `c` is the number of the last block the two paths share. */
  ghost predicate ForksAfter(old_: seq<Header>, new_: seq<Header>, c: nat) {
    && c < |old_| && c < |new_|
    && old_[c] == new_[c]
    && (c + 1 < |old_| && c + 1 < |new_| ==> old_[c+1] != new_[c+1])
  }

  /** Both heads descend from the same genesis through stored headers. */
  ghost predicate Connected(store: Store, genesis: Header, oldHead: Header, newHead: Header) {
    Closed(store, genesis) && Stored(store, oldHead) && Stored(store, newHead)
  }

  /** Where a reorg leaves the indexes: just below the new head, or at it when it was already canonical. */
  ghost function ReorgBase(store: Store, genesis: Header, oldHead: Header, newHead: Header): (base: Header)
    requires Connected(store, genesis, oldHead, newHead)
    ensures Stored(store, base)
  {
    if newHead in Path(store, genesis, oldHead) || newHead.number == 0 then newHead
    else ParentOf(store, genesis, newHead)
  }

  /** Two such runs that start at the same block. */
  ghost predicate SharedPaths(store: Store, po: seq<Header>, pn: seq<Header>) {
    && |po| > 0 && |pn| > 0 && po[0] == pn[0]
    && IsPath(store, po, po[|po|-1]) && IsPath(store, pn, pn[|pn|-1])
  }

  /** What a sound walk reports: the last common block and both branches above it. */
  ghost predicate ForkSound(po: seq<Header>, pn: seq<Header>, fork: ForkResult) {
    && fork.Fork?
    && ForksAfter(po, pn, fork.ancestor.number)
    && At(po, fork.ancestor)
    && Above(po, fork.ancestor.number, fork.dropped)
    && Above(pn, fork.ancestor.number, fork.added)
  }

  /** The index entries of a newest-first list of blocks. */
  ghost function AddedIndex(added: seq<Header>): (m: map<nat, Hash>) {
    if added == [] then map[] else AddedIndex(added[1..])[added[0].number := added[0].hash]
  }

  /** The transaction entries of a newest-first list, later blocks written over earlier ones. */
  ghost function AddedEntries(bodies: Bodies, added: seq<Header>): (m: map<TxHash, nat>)
    requires forall h | h in added :: h.hash in bodies
  {
    if added == [] then map[]
    else AddedEntries(bodies, added[1..]) + TxEntries(bodies[added[0].hash], added[0].number)
  }

  lemma {:induction false} AddedIndexOnPath(path: seq<Header>, c: nat, added: seq<Header>)
    requires Above(path, c, added) && Numbered(path)
    ensures forall n: nat :: n in AddedIndex(added) <==> c < n < |path|
    ensures forall n: nat | n in AddedIndex(added) :: AddedIndex(added)[n] == path[n].hash
  {
    if added != [] {
      AddedIndexOnPath(path[..|path|-1], c, added[1..]);
    }
  }

  lemma PlusAssociates<K, V>(a: map<K, V>, b: map<K, V>, c: map<K, V>)
    ensures a + (b + c) == (a + b) + c
  {
  }

  /** Leaving out the tip of a path and of the blocks listed above a number. */
  lemma WithoutTip(bodies: Bodies, path: seq<Header>, c: nat, added: seq<Header>)
    requires Above(path, c, added) && Numbered(path) && NoRepeats(bodies, path) && added != []
    ensures var shorter, tip := path[..|path|-1], path[|path|-1];
            && Above(shorter, c, added[1..]) && Numbered(shorter) && NoRepeats(bodies, shorter)
            && shorter[..c+1] == path[..c+1]
            && added[0] == tip && tip.number == |shorter| && tip.hash in bodies
            && forall i | 0 <= i < |shorter| :: Disjoint(bodies, shorter[i], tip)
  {
    var shorter, tip := path[..|path|-1], path[|path|-1];
    forall i | 0 <= i < |shorter| ensures Disjoint(bodies, shorter[i], tip) {
      assert Disjoint(bodies, path[i], path[|path|-1]);
    }
    forall i, j | 0 <= i < j < |shorter| ensures Disjoint(bodies, shorter[i], shorter[j]) {
      assert Disjoint(bodies, path[i], path[j]);
    }
  }

  /** Writing the added blocks over an index that is exact up to the fork makes it exact to the tip. */
  lemma {:induction false} AddedEntriesOnPath(lookup: map<TxHash, nat>, bodies: Bodies,
                                              path: seq<Header>, c: nat, added: seq<Header>)
    requires Above(path, c, added) && Numbered(path)
    requires NoRepeats(bodies, path)
    requires LookupExact(lookup, bodies, path[..c+1])
    requires forall h | h in added :: h.hash in bodies
    ensures LookupExact(lookup + AddedEntries(bodies, added), bodies, path)
  {
    if added == [] {
      assert path[..c+1] == path;
      assert lookup + AddedEntries(bodies, added) == lookup;
    } else {
      var shorter, tip := path[..|path|-1], path[|path|-1];
      WithoutTip(bodies, path, c, added);
      AddedEntriesOnPath(lookup, bodies, shorter, c, added[1..]);
      assert path == shorter + [tip];
      LookupExtends(lookup + AddedEntries(bodies, added[1..]), bodies, shorter, tip);
      PlusAssociates(lookup, AddedEntries(bodies, added[1..]), TxEntries(bodies[tip.hash], |shorter|));
    }
  }

  /** The blocks of a newest-first list are written over both indexes; their transactions are in `rebirth`. */
  ghost predicate Written(bodies: Bodies, blocks: seq<Header>, canonical0: map<nat, Hash>, canonical: map<nat, Hash>,
                          lookup0: map<TxHash, nat>, lookup: map<TxHash, nat>, rebirth: seq<TxHash>) {
    && (forall h | h in blocks :: h.hash in bodies)
    && canonical == canonical0 + AddedIndex(blocks)
    && lookup == lookup0 + AddedEntries(bodies, blocks)
    && AsSet(rebirth) == AddedEntries(bodies, blocks).Keys
  }

  /** Writing one more block in front of the others. */
  lemma WrittenOneMore(bodies: Bodies, blocks: seq<Header>, h: Header, canonical0: map<nat, Hash>, canonical: map<nat, Hash>,
                       lookup0: map<TxHash, nat>, lookup: map<TxHash, nat>, rebirth: seq<TxHash>)
    requires Written(bodies, blocks, canonical0, canonical, lookup0, lookup, rebirth) && h.hash in bodies
    ensures Written(bodies, [h] + blocks, canonical0, canonical[h.number := h.hash],
                    lookup0, lookup + TxEntries(bodies[h.hash], h.number), rebirth + bodies[h.hash])
  {
    var more := [h] + blocks;
    assert more[1..] == blocks;
    assert forall b | b in more :: b.hash in bodies;
    PlusAssociates(lookup0, AddedEntries(bodies, blocks), TxEntries(bodies[h.hash], h.number));
    assert AsSet(rebirth + bodies[h.hash]) == AsSet(rebirth) + AsSet(bodies[h.hash]);
    assert canonical0 + AddedIndex(more) == (canonical0 + AddedIndex(blocks))[h.number := h.hash];
  }

  /** Removing the transactions of the dropped blocks leaves the index of the shared prefix. */
  lemma LookupOfPrefix(lookup: map<TxHash, nat>, bodies: Bodies, path: seq<Header>, c: nat, dropped: seq<Header>, txs: set<TxHash>)
    requires LookupExact(lookup, bodies, path) && Above(path, c, dropped)
    requires AreTxsOf(txs, bodies, dropped)
    ensures LookupExact(lookup - txs, bodies, path[..c+1])
  {
    var kept := lookup - txs;
    forall j | c < j < |path| ensures path[j] in dropped {
      assert path[j] == dropped[|path| - 1 - j];
    }
    forall i | 0 <= i < c + 1 ensures Covered(kept, bodies, path[i], i) {
      assert Covered(lookup, bodies, path[i], i);
      forall h | h in dropped ensures forall tx | tx in bodies[path[i].hash] :: tx !in bodies[h.hash] {
        var j :| 0 <= j < |dropped| && dropped[j] == h;
        assert Covered(lookup, bodies, path[|path| - 1 - j], |path| - 1 - j);
      }
    }
  }

  /** After a reorg the transaction index is exact for the chain that ends at the last added block. */
  lemma ReorgLookup(lookup: map<TxHash, nat>, bodies: Bodies, po: seq<Header>, pn: seq<Header>, c: nat,
                    dropped: seq<Header>, added: seq<Header>, deleted: set<TxHash>)
    requires Above(po, c, dropped) && Above(pn, c, added) && po[..c+1] == pn[..c+1] && Numbered(pn)
    requires LookupExact(lookup, bodies, po) && NoRepeats(bodies, pn)
    requires AreTxsOf(deleted, bodies, dropped) && forall h | h in added :: h.hash in bodies
    ensures LookupExact(lookup + AddedEntries(bodies, added) - (deleted - AddedEntries(bodies, added).Keys), bodies, pn)
  {
    LookupOfPrefix(lookup, bodies, po, c, dropped, deleted);
    AddedEntriesOnPath(lookup - deleted, bodies, pn, c, added);
    var w := AddedEntries(bodies, added);
    assert lookup + w - (deleted - w.Keys) == lookup - deleted + w;
  }

  /** The part of the new branch a reorg writes itself: all but the new head. */
  function AllButHead(added: seq<Header>): (r: seq<Header>) {
    if added == [] then [] else added[1..]
  }

  /** The path a reorg leaves canonical. */
  function BasePath(pn: seq<Header>, added: seq<Header>): (pb: seq<Header>)
    requires |pn| > |added|
  {
    if added == [] then pn else pn[..|pn|-1]
  }

  lemma BaseOfFork(store: Store, genesis: Header, oldHead: Header, newHead: Header, fork: ForkResult)
    requires Connected(store, genesis, oldHead, newHead)
    requires ForkSound(Path(store, genesis, oldHead), Path(store, genesis, newHead), fork)
    ensures Path(store, genesis, ReorgBase(store, genesis, oldHead, newHead)) ==
            BasePath(Path(store, genesis, newHead), fork.added)
  {
    var po, pn := Path(store, genesis, oldHead), Path(store, genesis, newHead);
    var c := fork.ancestor.number;
    if fork.added == [] {
      assert po[c] == newHead;
    } else {
      if newHead in po {
        var i :| 0 <= i < |po| && po[i] == newHead;
        PathsMeet(store, genesis, oldHead, newHead, newHead.number);
        assert false;
      }
    }
  }

  /** The number of the highest block a reorg leaves canonical. */
  function BaseNumber(fork: ForkResult): (number: nat)
    requires fork.Fork?
  {
    if |fork.added| > 1 then fork.added[1].number else fork.ancestor.number
  }

  lemma BaseNumberIsTop(po: seq<Header>, pn: seq<Header>, fork: ForkResult)
    requires ForkSound(po, pn, fork) && Numbered(pn)
    ensures BaseNumber(fork) + 1 == |BasePath(pn, fork.added)|
    ensures Above(BasePath(pn, fork.added), fork.ancestor.number, AllButHead(fork.added))
  {
  }

  /** The canonical index after the new branch is written and the run above it is deleted. */
  lemma ReorgIndex(po: seq<Header>, pn: seq<Header>, fork: ForkResult, written: map<nat, Hash>, end: nat)
    requires ForkSound(po, pn, fork) && Numbered(po) && Numbered(pn)
    requires forall n | 0 <= n <= fork.ancestor.number :: po[n] == pn[n]
    requires written == IndexAlong(po) + AddedIndex(AllButHead(fork.added))
    requires BaseNumber(fork) < end && end !in written
    ensures Trim(written, BaseNumber(fork), end) == IndexAlong(BasePath(pn, fork.added))
  {
    BaseNumberIsTop(po, pn, fork);
    WrittenAlongBase(po, pn, fork, written);
    TrimmedIndex(BasePath(pn, fork.added), written, |po|, end);
  }

  /** The written index agrees with the new base where that has blocks, and holds nothing above both chains. */
  lemma WrittenAlongBase(po: seq<Header>, pn: seq<Header>, fork: ForkResult, written: map<nat, Hash>)
    requires ForkSound(po, pn, fork) && Numbered(po) && Numbered(pn)
    requires forall n | 0 <= n <= fork.ancestor.number :: po[n] == pn[n]
    requires written == IndexAlong(po) + AddedIndex(AllButHead(fork.added))
    ensures var pb := BasePath(pn, fork.added);
            && (forall n: nat | n < |pb| :: n in written && written[n] == pb[n].hash)
            && (forall n: nat | n in written :: n < |pb| || n < |po|)
            && (forall n: nat | |pb| <= n < |po| :: n in written)
  {
    var pb := BasePath(pn, fork.added);
    BaseNumberIsTop(po, pn, fork);
    AddedIndexOnPath(pb, fork.ancestor.number, AllButHead(fork.added));
    assert forall n: nat | n < |pb| :: pb[n] == pn[n];
  }

  lemma OutcomeIndex(store: Store, genesis: Header, oldHead: Header, newHead: Header, fork: ForkResult,
                     written: map<nat, Hash>, end: nat)
    requires Connected(store, genesis, oldHead, newHead)
    requires ForkSound(Path(store, genesis, oldHead), Path(store, genesis, newHead), fork)
    requires written == IndexOf(store, genesis, oldHead) + AddedIndex(AllButHead(fork.added))
    requires BaseNumber(fork) < end && end !in written
    ensures Trim(written, BaseNumber(fork), end) ==
            IndexOf(store, genesis, ReorgBase(store, genesis, oldHead, newHead))
  {
    BaseOfFork(store, genesis, oldHead, newHead, fork);
    PathsMeet(store, genesis, oldHead, newHead, fork.ancestor.number);
    ReorgIndex(Path(store, genesis, oldHead), Path(store, genesis, newHead), fork, written, end);
  }

  /** A branch without repeats stays so when its tip is cut off. */
  lemma BaseHasNoRepeats(bodies: Bodies, pn: seq<Header>, added: seq<Header>)
    requires |pn| > |added| && NoRepeats(bodies, pn)
    ensures NoRepeats(bodies, BasePath(pn, added))
  {
    var pb := BasePath(pn, added);
    forall i, j | 0 <= i < j < |pb| ensures Disjoint(bodies, pb[i], pb[j]) {
      assert Disjoint(bodies, pn[i], pn[j]);
    }
  }

  lemma OutcomeLookup(store: Store, genesis: Header, bodies: Bodies, oldHead: Header, newHead: Header, fork: ForkResult,
                      lookup: map<TxHash, nat>, deleted: set<TxHash>)
    requires Connected(store, genesis, oldHead, newHead) && Complete(store, bodies)
    requires ForkSound(Path(store, genesis, oldHead), Path(store, genesis, newHead), fork)
    requires LookupExact(lookup, bodies, Path(store, genesis, oldHead))
    requires NoRepeats(bodies, Path(store, genesis, newHead))
    requires AreTxsOf(deleted, bodies, fork.dropped)
    requires forall h | h in AllButHead(fork.added) :: h.hash in bodies
    ensures var w := AddedEntries(bodies, AllButHead(fork.added));
            LookupExact(lookup + w - (deleted - w.Keys), bodies,
                        Path(store, genesis, ReorgBase(store, genesis, oldHead, newHead)))
  {
    var po, pn := Path(store, genesis, oldHead), Path(store, genesis, newHead);
    var pb := BasePath(pn, fork.added);
    var c := fork.ancestor.number;
    BaseOfFork(store, genesis, oldHead, newHead, fork);
    PathsMeet(store, genesis, oldHead, newHead, c);
    BaseNumberIsTop(po, pn, fork);
    assert pb[..c+1] == pn[..c+1];
    BaseHasNoRepeats(bodies, pn, fork.added);
    ReorgLookup(lookup, bodies, po, pb, c, fork.dropped, AllButHead(fork.added), deleted);
  }

  /** Both indexes after a reorg, in terms of both indexes before it. */
  lemma ReorgCorrect(store: Store, genesis: Header, bodies: Bodies, oldHead: Header, newHead: Header, fork: ForkResult,
                     canonical: map<nat, Hash>, written: map<nat, Hash>, end: nat,
                     lookup: map<TxHash, nat>, deleted: set<TxHash>)
    requires Connected(store, genesis, oldHead, newHead) && Complete(store, bodies)
    requires ForkSound(Path(store, genesis, oldHead), Path(store, genesis, newHead), fork)
    requires AreTxsOf(deleted, bodies, fork.dropped)
    requires forall h | h in AllButHead(fork.added) :: h.hash in bodies
    requires written == canonical + AddedIndex(AllButHead(fork.added))
    requires BaseNumber(fork) < end && end !in written
    ensures canonical == IndexOf(store, genesis, oldHead) ==>
              Trim(written, BaseNumber(fork), end) == IndexOf(store, genesis, ReorgBase(store, genesis, oldHead, newHead))
    ensures LookupExact(lookup, bodies, Path(store, genesis, oldHead)) && NoRepeats(bodies, Path(store, genesis, newHead)) ==>
              var w := AddedEntries(bodies, AllButHead(fork.added));
              LookupExact(lookup + w - (deleted - w.Keys), bodies,
                          Path(store, genesis, ReorgBase(store, genesis, oldHead, newHead)))
  {
    if canonical == IndexOf(store, genesis, oldHead) {
      OutcomeIndex(store, genesis, oldHead, newHead, fork, written, end);
    }
    if LookupExact(lookup, bodies, Path(store, genesis, oldHead)) && NoRepeats(bodies, Path(store, genesis, newHead)) {
      OutcomeLookup(store, genesis, bodies, oldHead, newHead, fork, lookup, deleted);
    }
  }

  /** Writing the head over the indexes its reorg left makes them exact for the head. */
  lemma HeadWritten(store: Store, genesis: Header, oldHead: Header, head: Header)
    requires Connected(store, genesis, oldHead, head)
    ensures IndexOf(store, genesis, ReorgBase(store, genesis, oldHead, head))[head.number := head.hash]
         == IndexOf(store, genesis, head)
  {
    if ReorgBase(store, genesis, oldHead, head) != head {
      IndexExtends(store, genesis, head);
    }
  }

  lemma HeadTxsWritten(store: Store, genesis: Header, bodies: Bodies, oldHead: Header, head: Header, lookup: map<TxHash, nat>)
    requires Connected(store, genesis, oldHead, head)
    requires NoRepeats(bodies, Path(store, genesis, head))
    requires LookupExact(lookup, bodies, Path(store, genesis, ReorgBase(store, genesis, oldHead, head)))
    requires head.hash in bodies
    ensures LookupExact(lookup + TxEntries(bodies[head.hash], head.number), bodies, Path(store, genesis, head))
  {
    var p := Path(store, genesis, head);
    if ReorgBase(store, genesis, oldHead, head) == head {
      assert Covered(lookup, bodies, p[head.number], head.number);
      assert lookup + TxEntries(bodies[head.hash], head.number) == lookup;
    } else {
      var q := Path(store, genesis, ParentOf(store, genesis, head));
      assert p == q + [head];
      forall i | 0 <= i < |q| ensures Disjoint(bodies, q[i], head) {
        assert Disjoint(bodies, p[i], p[head.number]);
      }
      LookupExtends(lookup, bodies, q, head);
    }
  }

  /** Storing another body leaves an exact transaction index exact. */
  lemma LookupFrame(store: Store, genesis: Header, lookup: map<TxHash, nat>, before: Bodies, after: Bodies, head: Header)
    requires Closed(store, genesis) && Stored(store, head)
    requires forall k | k in before && k in store :: k in after && after[k] == before[k]
    requires LookupExact(lookup, before, Path(store, genesis, head))
    ensures LookupExact(lookup, after, Path(store, genesis, head))
  {
    var p := Path(store, genesis, head);
    forall i | 0 <= i < |p| ensures Covered(lookup, after, p[i], i) {
      assert Covered(lookup, before, p[i], i) && Stored(store, p[i]);
    }
  }

  /** A block on top of the current head needs no reorg: the indexes already stop at its parent. */
  lemma DirectChild(store: Store, genesis: Header, oldHead: Header, head: Header)
    requires Connected(store, genesis, oldHead, head)
    requires head.parent == oldHead.hash
    ensures ReorgBase(store, genesis, oldHead, head) == oldHead
  {
    assert WellLinked(store, genesis, oldHead.hash);
    assert WellLinked(store, genesis, head.hash);
    assert head.number > 0;
    assert ParentOf(store, genesis, head) == oldHead;
  }

  /** Storing one more block on a stored parent keeps every path and index as it was. */
  lemma StoreBlock(store: Store, genesis: Header, block: Header, head: Header)
    requires Closed(store, genesis) && Stored(store, head)
    requires block.hash != ZERO_HASH && GetHeader(store, block.parent, block.number - 1).Some?
    requires block.hash in store ==> store[block.hash] == block
    ensures Closed(store[block.hash := block], genesis)
    ensures Connected(store[block.hash := block], genesis, head, block)
    ensures Path(store[block.hash := block], genesis, head) == Path(store, genesis, head)
    ensures IndexOf(store[block.hash := block], genesis, head) == IndexOf(store, genesis, head)
  {
    ClosedExtends(store, genesis, block);
    PathStable(store, store[block.hash := block], genesis, head);
  }

  lemma StoreKeepsLookup(store: Store, genesis: Header, lookup: map<TxHash, nat>, bodies: Bodies, block: Header, txs: seq<TxHash>, head: Header)
    requires Closed(store, genesis) && Stored(store, head)
    requires block.hash != ZERO_HASH && GetHeader(store, block.parent, block.number - 1).Some?
    requires block.hash in store ==> store[block.hash] == block && block.hash in bodies && bodies[block.hash] == txs
    requires LookupExact(lookup, bodies, Path(store, genesis, head))
    ensures Closed(store[block.hash := block], genesis) && Stored(store[block.hash := block], head)
    ensures LookupExact(lookup, bodies[block.hash := txs], Path(store[block.hash := block], genesis, head))
  {
    StoreBlock(store, genesis, block, head);
    LookupFrame(store, genesis, lookup, bodies, bodies[block.hash := txs], head);
  }

  class BlockChain {
    const genesis: Header
    const lqc: bool

    var headers: Store
    var bodies: Bodies
    var canonical: map<nat, Hash>
    var lookup: map<TxHash, nat>
    var headHeaderHash: Hash
    var headFastHash: Hash
    var headBlockHash: Hash
    var currentHeader: Header
    var currentSnapBlock: Header
    var currentBlock: Header

    /** The central invariant: the index is exactly the ancestor path of the head. */
    ghost predicate Valid()
      reads this
    {
      && Closed(headers, genesis)
      && Complete(headers, bodies)
      && Stored(headers, currentBlock)
      && canonical == IndexOf(headers, genesis, currentBlock)
      && MarkersAt(currentBlock)
    }

    /** All markers, in the database and in memory, name the same head. */
    ghost predicate MarkersAt(h: Header)
      reads this
    {
      headHeaderHash == headFastHash == headBlockHash == h.hash &&
      currentHeader == currentSnapBlock == currentBlock == h
    }

    ghost predicate TxIndexed()
      requires Valid()
      reads this
    {
      LookupExact(lookup, bodies, Path(headers, genesis, currentBlock))
    }

    method WriteHeadBlock(block: Header, txs: seq<TxHash>)
      modifies this
      ensures headers == old(headers) && bodies == old(bodies)
      ensures canonical == old(canonical)[block.number := block.hash]
      ensures lookup == old(lookup) + TxEntries(txs, block.number)
      ensures MarkersAt(block)
    {
      headHeaderHash := block.hash;
      headFastHash := block.hash;
      canonical := canonical[block.number := block.hash];
      lookup := lookup + TxEntries(txs, block.number);
      headBlockHash := block.hash;
      currentHeader := block;
      currentSnapBlock := block;
      currentBlock := block;
    }

    /** Walk back from `head` to block `number`, recording the blocks passed, newest first. */
    method WalkBack(head: Header, number: nat, ghost path: seq<Header>) returns (h: Option<Header>, passed: seq<Header>)
      requires number <= head.number
      ensures h.Some? ==> h.value.number == number
      ensures IsPath(headers, path, head) ==> h.Some? && At(path, h.value) && Above(path, number, passed)
    {
      h, passed := Some(head), [];
      while h.Some? && h.value.number != number
        invariant h.Some? ==> h.value.number >= number
        invariant IsPath(headers, path, head) ==> h.Some? && At(path, h.value) && Above(path, h.value.number, passed)
        decreases if h.Some? then h.value.number + 1 else 0
      {
        if IsPath(headers, path, head) { StepBack(headers, path, head, h.value); }
        passed := passed + [h.value];
        h := GetHeader(headers, h.value.parent, h.value.number - 1);
      }
    }

    /** From two blocks at the same number, step back together until they are the same block. */
    method Meet(o: Header, n: Header, dropped0: seq<Header>, added0: seq<Header>,
                ghost po: seq<Header>, ghost pn: seq<Header>) returns (r: ForkResult)
      requires o.number == n.number
      ensures (&& SharedPaths(headers, po, pn) && At(po, o) && At(pn, n)
               && Above(po, o.number, dropped0) && Above(pn, n.number, added0)
               && (o.number + 1 == |po| || n.number + 1 == |pn|))
              ==> && r.Fork? && ForksAfter(po, pn, r.ancestor.number) && At(po, r.ancestor)
                  && Above(po, r.ancestor.number, r.dropped) && Above(pn, r.ancestor.number, r.added)
    {
      ghost var good := && SharedPaths(headers, po, pn) && At(po, o) && At(pn, n)
                        && Above(po, o.number, dropped0) && Above(pn, n.number, added0)
                        && (o.number + 1 == |po| || n.number + 1 == |pn|);
      var oh, nh, dropped, added := o, n, dropped0, added0;
      while oh.hash != nh.hash
        invariant oh.number == nh.number
        invariant good ==> At(po, oh) && Above(po, oh.number, dropped) && At(pn, nh) && Above(pn, nh.number, added)
        invariant good && oh.number + 1 < |po| && nh.number + 1 < |pn| ==> po[oh.number+1] != pn[oh.number+1]
        decreases oh.number
      {
        if good {
          StepBack(headers, po, po[|po|-1], oh);
          StepBack(headers, pn, pn[|pn|-1], nh);
        }
        dropped := dropped + [oh];
        added := added + [nh];
        var op := GetHeader(headers, oh.parent, oh.number - 1);
        if op.None? {
          return NoFork(InvalidOldChain);
        }
        var np := GetHeader(headers, nh.parent, nh.number - 1);
        if np.None? {
          return NoFork(InvalidNewChain);
        }
        oh, nh := op.value, np.value;
      }
      return Fork(oh, dropped, added);
    }

    /** The walk back from both heads to their last common block. It cannot fail on a connected store. */
    method FindFork(oldHead: Header, newHead: Header) returns (r: ForkResult)
      ensures Connected(headers, genesis, oldHead, newHead) ==>
                ForkSound(Path(headers, genesis, oldHead), Path(headers, genesis, newHead), r)
    {
      ghost var connected := Connected(headers, genesis, oldHead, newHead);
      ghost var po := if connected then Path(headers, genesis, oldHead) else [];
      ghost var pn := if connected then Path(headers, genesis, newHead) else [];
      var o, n := Some(oldHead), Some(newHead);
      var dropped, added := [], [];
      if oldHead.number > newHead.number {
        o, dropped := WalkBack(oldHead, newHead.number, po);
      } else {
        n, added := WalkBack(newHead, oldHead.number, pn);
      }
      if o.None? {
        return NoFork(InvalidOldChain);
      }
      if n.None? {
        return NoFork(InvalidNewChain);
      }
      r := Meet(o.value, n.value, dropped, added, po, pn);
    }

    /** Gather the transactions of the dropped blocks. */
    method CollectDropped(dropped: seq<Header>) returns (ok: bool, txs: seq<TxHash>)
      ensures ok <==> forall h | h in dropped :: h.hash in bodies
      ensures ok ==> AreTxsOf(AsSet(txs), bodies, dropped)
    {
      txs := [];
      for i := 0 to |dropped|
        invariant forall h | h in dropped[..i] :: h.hash in bodies
        invariant forall tx :: tx in txs <==> exists h :: h in dropped[..i] && tx in bodies[h.hash]
      {
        if dropped[i].hash !in bodies {
          return false, [];
        }
        assert dropped[..i+1] == dropped[..i] + [dropped[i]];
        txs := txs + bodies[dropped[i].hash];
      }
      assert dropped[..|dropped|] == dropped;
      return true, txs;
    }

    /** Make the blocks of a newest-first list canonical, oldest first. */
    method ApplyAdded(added: seq<Header>) returns (ok: bool, rebirth: seq<TxHash>)
      modifies this
      ensures headers == old(headers) && bodies == old(bodies)
      ensures ok <==> forall h | h in added :: h.hash in bodies
      ensures ok ==> canonical == old(canonical) + AddedIndex(added)
      ensures ok ==> lookup == old(lookup) + AddedEntries(bodies, added)
      ensures ok ==> AsSet(rebirth) == AddedEntries(bodies, added).Keys
    {
      rebirth := [];
      var i := |added|;
      while i > 0
        invariant 0 <= i <= |added|
        invariant headers == old(headers) && bodies == old(bodies)
        invariant Written(bodies, added[i..], old(canonical), canonical, old(lookup), lookup, rebirth)
      {
        i := i - 1;
        if added[i].hash !in bodies {
          return false, [];
        }
        assert added[i..] == [added[i]] + added[i+1..];
        WrittenOneMore(bodies, added[i+1..], added[i], old(canonical), canonical, old(lookup), lookup, rebirth);
        rebirth := rebirth + bodies[added[i].hash];
        WriteHeadBlock(added[i], bodies[added[i].hash]);
      }
      assert added[0..] == added;
      return true, rebirth;
    }

    /** Switch the indexes from the chain of `oldHead` to the chain of `newHead`, all but `newHead` itself. */
    method Reorg(oldHead: Header, newHead: Header) returns (r: ReorgResult)
      modifies this
      ensures headers == old(headers) && bodies == old(bodies)
      ensures r == Failed(InvalidOldChain) ==> unchanged(this)
      ensures Connected(headers, genesis, oldHead, newHead) && Complete(headers, bodies) ==> r.Reorged?
      ensures Connected(headers, genesis, oldHead, newHead) && Complete(headers, bodies)
              && old(canonical) == IndexOf(headers, genesis, oldHead) ==>
                canonical == IndexOf(headers, genesis, ReorgBase(headers, genesis, oldHead, newHead))
      ensures Connected(headers, genesis, oldHead, newHead) && Complete(headers, bodies)
              && LookupExact(old(lookup), bodies, Path(headers, genesis, oldHead))
              && NoRepeats(bodies, Path(headers, genesis, newHead)) ==>
                LookupExact(lookup, bodies, Path(headers, genesis, ReorgBase(headers, genesis, oldHead, newHead)))
    {
      var fork := FindFork(oldHead, newHead);
      if fork.NoFork? {
        return Failed(fork.error);
      }
      var ok, deletedTxs := CollectDropped(fork.dropped);
      if !ok {
        return Failed(InvalidOldChain);
      }
      var rebirthTxs;
      ok, rebirthTxs := ApplyAdded(AllButHead(fork.added));
      if !ok {
        return Failed(InvalidNewChain);
      }
      lookup := lookup - (AsSet(deletedTxs) - AsSet(rebirthTxs));
      ghost var written := canonical;
      var end := RunEnd(canonical, BaseNumber(fork) + 1);
      canonical := Trim(canonical, BaseNumber(fork), end);
      if Connected(headers, genesis, oldHead, newHead) && Complete(headers, bodies) {
        ReorgCorrect(headers, genesis, bodies, oldHead, newHead, fork, old(canonical), written, end, old(lookup), AsSet(deletedTxs));
      }
      return Reorged;
    }

    /** Make a stored block the head: reorg unless it sits on the current head, then write it.
        This is the body shared by `writeBlockAndSetHead`, `writeKnownBlock` and `SetCanonical`. */
    method SwitchHead(head: Header) returns (r: ReorgResult)
      requires Valid() && Stored(headers, head)
      modifies this
      ensures r.Reorged?
      ensures headers == old(headers) && bodies == old(bodies)
      ensures Valid() && currentBlock == head
      ensures old(TxIndexed()) && NoRepeats(bodies, Path(headers, genesis, head)) ==> TxIndexed()
    {
      ghost var oldHead := currentBlock;
      if head.parent != currentBlock.hash {
        r := Reorg(currentBlock, head);
        if r.Failed? {
          return r;
        }
      } else {
        DirectChild(headers, genesis, oldHead, head);
        r := Reorged;
      }
      HeadWritten(headers, genesis, oldHead, head);
      if old(TxIndexed()) && NoRepeats(bodies, Path(headers, genesis, head)) {
        HeadTxsWritten(headers, genesis, bodies, oldHead, head, lookup);
      }
      WriteHeadBlock(head, bodies[head.hash]);
    }

    /** Store a block whose parent is known; the head stays. */
    method WriteBlockWithState(block: Header, txs: seq<TxHash>) returns (stored: bool)
      requires Valid() && block.hash != ZERO_HASH
      requires block.hash in headers ==> headers[block.hash] == block && bodies[block.hash] == txs
      modifies this
      ensures Valid() && currentBlock == old(currentBlock)
      ensures stored <==> GetHeader(old(headers), block.parent, block.number - 1).Some?
      ensures !stored ==> unchanged(this)
      ensures stored ==> headers == old(headers)[block.hash := block] && bodies == old(bodies)[block.hash := txs]
      ensures old(TxIndexed()) ==> TxIndexed()
    {
      if GetHeader(headers, block.parent, block.number - 1).None? {
        return false;
      }
      StoreBlock(headers, genesis, block, currentBlock);
      headers := headers[block.hash := block];
      ghost var before := bodies;
      bodies := bodies[block.hash := txs];
      if old(TxIndexed()) { StoreKeepsLookup(old(headers), genesis, lookup, before, block, txs, currentBlock); }
      return true;
    }

    /** Import one executed block: store it, then let the fork choice decide about the head. */
    method WriteBlockAndSetHead(block: Header, txs: seq<TxHash>) returns (status: WriteStatus)
      requires Valid() && block.hash != ZERO_HASH
      requires block.hash in headers ==> headers[block.hash] == block && bodies[block.hash] == txs
      modifies this
      ensures Valid()
      ensures status == Rejected(UnknownAncestor) <==> GetHeader(old(headers), block.parent, block.number - 1).None?
      ensures status.Rejected? ==> status == Rejected(UnknownAncestor) && unchanged(this)
      ensures !status.Rejected? ==>
                && headers == old(headers)[block.hash := block] && bodies == old(bodies)[block.hash := txs]
                && (status == Canonical <==> !lqc || Ahead(block, old(currentBlock)))
                && currentBlock == (if status == Canonical then block else old(currentBlock))
      ensures !status.Rejected? && old(TxIndexed()) && NoRepeats(bodies, Path(headers, genesis, block)) ==> TxIndexed()
    {
      var stored := WriteBlockWithState(block, txs);
      if !stored {
        return Rejected(UnknownAncestor);
      }
      if (lqc && RejectSameHeight(block, currentBlock)) || (lqc && !Prefer(Some(currentBlock), Some(block))) {
        return Side;
      }
      var r := SwitchHead(block);
      return if r.Failed? then Rejected(ReorgFailed) else Canonical;
    }

    /** A block that is already stored goes through the same choice. */
    method WriteKnownBlock(block: Header) returns (r: ReorgResult)
      requires Valid() && Stored(headers, block)
      modifies this
      ensures r.Reorged? && Valid()
      ensures headers == old(headers) && bodies == old(bodies)
      ensures currentBlock == if !lqc || Ahead(block, old(currentBlock)) then block else old(currentBlock)
      ensures old(TxIndexed()) && NoRepeats(bodies, Path(headers, genesis, block)) ==> TxIndexed()
    {
      if (lqc && RejectSameHeight(block, currentBlock)) || (lqc && !Prefer(Some(currentBlock), Some(block))) {
        return Reorged;
      }
      r := SwitchHead(block);
    }
  }
}
