/** The deterministic LQC head choice: the taller chain, then the smaller hash.

    The same order is written four times in the node: when a block is imported,
    when a remote head is considered for sync, when two recovery targets compete
    and when peers are asked whether production is safe. */
module ForkChoice {
  import opened Basics
  import opened Chain

  /** The order all four stand for: `a` is strictly ahead of `b`. */
  predicate Ahead(a: Header, b: Header) {
    a.number > b.number || (a.number == b.number && a.hash < b.hash)
  }

  /** Import-time choice. An absent header (or one without a number) is `None`. */
  predicate Prefer(current: Option<Header>, candidate: Option<Header>) {
    if candidate.None? then false
    else if current.None? then true
    else if candidate.value.number != current.value.number then candidate.value.number > current.value.number
    else candidate.value.hash < current.value.hash
  }

  /** The equal-height guard that runs before `Prefer` on import. */
  predicate RejectSameHeight(block: Header, current: Header) {
    block.number == current.number && block.hash != current.hash && block.hash > current.hash
  }

  /** Whether a remote head is worth syncing to. */
  predicate ShouldStartSync(local: Option<Header>, remoteNumber: nat, remoteHash: Hash) {
    if remoteHash == ZERO_HASH then false
    else if local.None? then remoteNumber > 0
    else if remoteNumber > local.value.number then true
    else if remoteNumber < local.value.number then false
    else if remoteHash == local.value.hash then false
    else remoteHash < local.value.hash
  }

  /** Whether a peer's advertised head forbids producing on the local one. */
  predicate PeerHeadRequiresSync(localNumber: nat, localHash: Hash, peerNumber: nat, peerHash: Hash) {
    if peerHash == ZERO_HASH then false
    else if peerNumber > localNumber then true
    else if peerNumber == localNumber then peerHash < localHash
    else false
  }

  /** Import and sync make the same choice on every real remote head, with one exception:
      a node without a local head would import genesis but not sync to it. */
  lemma ChoicesAgree(local: Option<Header>, remote: Header)
    ensures ShouldStartSync(local, remote.number, remote.hash)
        <==> Prefer(local, Some(remote)) && remote.hash != ZERO_HASH && !(local.None? && remote.number == 0)
    ensures local.Some? ==> (Prefer(local, Some(remote)) <==> Ahead(remote, local.value))
    ensures local.Some? ==>
              (PeerHeadRequiresSync(local.value.number, local.value.hash, remote.number, remote.hash)
               <==> remote.hash != ZERO_HASH && Ahead(remote, local.value))
    ensures local.Some? ==>
              (RejectSameHeight(remote, local.value)
               <==> remote.number == local.value.number && remote.hash != local.value.hash && !Prefer(local, Some(remote)))
  {
  }

  /** `Ahead` is a strict order, total on headers with different hashes; a header that
      nothing in a set is ahead of is therefore the only one. */
  lemma AheadIsStrictTotal(a: Header, b: Header, c: Header)
    ensures a.number > b.number ==> Ahead(a, b)
    ensures a.number == b.number && a.hash < b.hash ==> Ahead(a, b)
    ensures !Ahead(a, a)
    ensures Ahead(a, b) && Ahead(b, c) ==> Ahead(a, c)
    ensures !Ahead(a, b) && !Ahead(b, c) ==> !Ahead(a, c)
    ensures a.hash != b.hash ==> Ahead(a, b) || Ahead(b, a)
    ensures !Ahead(a, b) && !Ahead(b, a) ==> a.number == b.number && a.hash == b.hash
  {
  }
}
