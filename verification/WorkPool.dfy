/** Work tickets waiting for inclusion: the commit pool, the reservation made for a block, and the quarantine of
    candidates that were seen included and may have to come back after a reorganisation. */
module WorkPools {
  import opened Basics

  const MAX_TICKETS: nat := 8
  const MAX_U64: nat := 0xffff_ffff_ffff_ffff

  type Proof = nat

  /** A signed ticket, with every field the comparison of tickets looks at. */
  datatype Ticket = Ticket(version: nat, epoch: nat, participant: nat, nonce: nat, signature: seq<nat>)

  datatype Candidate = Candidate(signed: Ticket, proof: Proof)

  /** Candidates seen included at a block, in the commit epoch of the removal. */
  datatype Removal = Removal(block: nat, epoch: nat, candidates: seq<Candidate>)

  type Entries = map<Proof, Candidate>

  /** What a proof hash commits to: the epoch and the participant it was found for. */
  type Binding = Proof -> (nat, nat)

  /** The proof hash of a verified candidate is the hash of its own ticket. */
  ghost predicate Genuine(c: Candidate, binds: Binding) {
    binds(c.proof) == (c.signed.epoch, c.signed.participant)
  }

  /** A pool's entries: by proof, of its epoch, one per participant. */
  ghost predicate EntriesOk(entries: Entries, epoch: nat, binds: Binding) {
    && (forall p | p in entries :: entries[p].proof == p && entries[p].signed.epoch == epoch && Genuine(entries[p], binds))
    && (forall p, q | p in entries && q in entries && p != q :: entries[p].signed.participant != entries[q].signed.participant)
  }

  predicate HasParticipant(entries: Entries, participant: nat) {
    exists p :: p in entries && entries[p].signed.participant == participant
  }

  ghost predicate SameTicket(t: Ticket, u: Ticket) {
    t.epoch == u.epoch && t.participant == u.participant && t.nonce == u.nonce
  }

  predicate HasTicket(entries: Entries, t: Ticket) {
    exists p :: p in entries && entries[p].signed.epoch == t.epoch && entries[p].signed.participant == t.participant
                && entries[p].signed.nonce == t.nonce
  }

  /** The pool holds some candidate of the same epoch and participant. */
  predicate Rivalled(entries: Entries, c: Candidate) {
    exists p :: p in entries && entries[p].signed.epoch == c.signed.epoch && entries[p].signed.participant == c.signed.participant
  }

  datatype AddResult =
    | Added | InvalidCommit | BadShape | Uninitialized | EpochMismatch | DuplicateHash | DuplicateTicket
    | DuplicateParticipant | Full | NotPersisted

  ghost predicate AllGenuine(cs: seq<Candidate>, binds: Binding) {
    forall i | 0 <= i < |cs| :: Genuine(cs[i], binds)
  }

  /** A candidate that may be in a pool of the epoch. */
  predicate Fit(c: Candidate, epoch: nat, shaped: Ticket -> bool) {
    c.proof != 0 && shaped(c.signed) && c.signed.epoch == epoch
  }

  /** Candidates that make a pool: each fit for it, no proof and no participant twice. */
  ghost predicate Compatible(cs: seq<Candidate>, epoch: nat, shaped: Ticket -> bool) {
    && (forall i | 0 <= i < |cs| :: cs[i].proof != 0 && shaped(cs[i].signed) && cs[i].signed.epoch == epoch)
    && (forall i, j | 0 <= i < j < |cs| :: cs[i].proof != cs[j].proof && cs[i].signed.participant != cs[j].signed.participant)
  }

  ghost predicate Restores(epoch: nat, capacity: nat, shaped: Ticket -> bool, loaded: Option<seq<Candidate>>) {
    epoch != 0 && loaded.Some? && |loaded.value| <= capacity && Compatible(loaded.value, epoch, shaped)
  }

  /** The entries are exactly the first `n` candidates, by proof. */
  ghost predicate Indexes(entries: Entries, cs: seq<Candidate>, n: nat)
    requires n <= |cs|
  {
    && (forall i | 0 <= i < n :: cs[i].proof in entries && entries[cs[i].proof] == cs[i])
    && (forall p | p in entries :: exists i :: 0 <= i < n && cs[i].proof == p && entries[p] == cs[i])
  }

  /** Rebuild a pool from persisted candidates; any of them that does not belong there makes it fail. */
  method BuildPool(epoch: nat, capacity: nat, shaped: Ticket -> bool, cs: seq<Candidate>) returns (r: Option<Entries>)
    ensures r.Some? <==> Restores(epoch, capacity, shaped, Some(cs))
    ensures r.Some? ==> Indexes(r.value, cs, |cs|) && Compatible(cs, epoch, shaped)
  {
    if epoch == 0 || |cs| > capacity {
      return None;
    }
    var entries: Entries := map[];
    var participants: set<nat> := {};
    for i := 0 to |cs|
      invariant Compatible(cs[..i], epoch, shaped) && Indexes(entries, cs, i)
      invariant forall a :: a in participants <==> exists j :: 0 <= j < i && cs[j].signed.participant == a
    {
      var c := cs[i];
      if !Fit(c, epoch, shaped) {
        return None;
      }
      if c.proof in entries {
        return None;
      }
      if c.signed.participant in participants {
        return None;
      }
      CompatibleOneMore(cs, i, epoch, shaped, entries, participants);
      participants := participants + {c.signed.participant};
      entries := entries[c.proof := c];
    }
    assert cs[..|cs|] == cs;
    return Some(entries);
  }

  lemma CompatibleOneMore(cs: seq<Candidate>, i: nat, epoch: nat, shaped: Ticket -> bool, entries: Entries, participants: set<nat>)
    requires i < |cs| && Compatible(cs[..i], epoch, shaped) && Indexes(entries, cs, i) && Fit(cs[i], epoch, shaped)
    requires forall a :: a in participants <==> exists j :: 0 <= j < i && cs[j].signed.participant == a
    requires cs[i].proof !in entries && cs[i].signed.participant !in participants
    ensures Compatible(cs[..i + 1], epoch, shaped)
    ensures Indexes(entries[cs[i].proof := cs[i]], cs, i + 1)
  {
    var more := cs[..i + 1];
    forall j, k | 0 <= j < k < |more| ensures more[j].proof != more[k].proof && more[j].signed.participant != more[k].signed.participant {
      if k < i { assert cs[..i][j].proof != cs[..i][k].proof; } else { assert cs[j].proof in entries; }
    }
  }

  lemma IndexedOk(entries: Entries, cs: seq<Candidate>, epoch: nat, binds: Binding)
    requires Indexes(entries, cs, |cs|) && AllGenuine(cs, binds)
    requires forall i | 0 <= i < |cs| :: cs[i].signed.epoch == epoch
    requires forall i, j | 0 <= i < j < |cs| :: cs[i].signed.participant != cs[j].signed.participant
    ensures EntriesOk(entries, epoch, binds)
  {
    forall p, q | p in entries && q in entries && p != q ensures entries[p].signed.participant != entries[q].signed.participant {
      var i :| 0 <= i < |cs| && cs[i].proof == p && entries[p] == cs[i];
      var j :| 0 <= j < |cs| && cs[j].proof == q && entries[q] == cs[j];
      assert i < j || j < i;
    }
  }

  /** The commit pool. Every change is persisted; a write that fails undoes the change. */
  class CommitPool {
    const capacity: nat
    const shaped: Ticket -> bool
    const stores: (nat, Entries) -> bool
    var epoch: nat
    var byProof: Entries
    var writes: nat

    ghost predicate Valid(binds: Binding)
      reads this
    {
      EntriesOk(byProof, epoch, binds)
    }

    constructor (capacity: nat, shaped: Ticket -> bool, stores: (nat, Entries) -> bool)
      ensures this.capacity == capacity && this.shaped == shaped && this.stores == stores
      ensures epoch == 0 && byProof == map[] && forall binds :: Valid(binds)
    {
      this.capacity, this.shaped, this.stores := capacity, shaped, stores;
      epoch, byProof, writes := 0, map[], 0;
    }

    method Persist() returns (ok: bool)
      modifies this`writes
      ensures ok == stores(old(writes), byProof) && writes == old(writes) + 1
    {
      ok := stores(writes, byProof);
      writes := writes + 1;
    }

    /** Switch to another epoch with what was persisted for it; the same epoch changes nothing. */
    method ResetCommitEpoch(commitEpoch: nat, loaded: Option<seq<Candidate>>, ghost binds: Binding) returns (ok: bool)
      requires Valid(binds)
      requires loaded.Some? ==> AllGenuine(loaded.value, binds)
      modifies this`epoch, this`byProof
      ensures Valid(binds)
      ensures ok <==> commitEpoch != 0 && (commitEpoch == old(epoch) || Restores(commitEpoch, capacity, shaped, loaded))
      ensures ok ==> epoch == commitEpoch
      ensures ok && commitEpoch != old(epoch) ==> Indexes(byProof, loaded.value, |loaded.value|)
      ensures !ok || commitEpoch == old(epoch) ==> epoch == old(epoch) && byProof == old(byProof)
    {
      if commitEpoch == 0 {
        return false;
      }
      if epoch == commitEpoch {
        return true;
      }
      if loaded.None? {
        return false;
      }
      var built := BuildPool(commitEpoch, capacity, shaped, loaded.value);
      match built
      case None => return false;
      case Some(entries) =>
        IndexedOk(entries, loaded.value, commitEpoch, binds);
        epoch, byProof := commitEpoch, entries;
        return true;
    }

    /** Accept a verified candidate. */
    method AddVerified(c: Candidate, ghost binds: Binding) returns (r: AddResult)
      requires Valid(binds) && Genuine(c, binds)
      modifies this`byProof, this`writes
      ensures Valid(binds)
      ensures r == Added <==>
                && c.proof != 0 && shaped(c.signed) && epoch != 0 && c.signed.epoch == epoch
                && c.proof !in old(byProof) && !HasParticipant(old(byProof), c.signed.participant) && |old(byProof)| < capacity
                && stores(old(writes), old(byProof)[c.proof := c])
      ensures r != Added ==> byProof == old(byProof)
      ensures r == Added ==> c.proof !in old(byProof) && !Rivalled(old(byProof), c) && byProof == old(byProof)[c.proof := c]
      ensures r == InvalidCommit <==> c.proof == 0
      ensures r == BadShape ==> !shaped(c.signed)
      ensures r == Uninitialized ==> epoch == 0
      ensures r == EpochMismatch ==> c.signed.epoch != epoch
      ensures r == DuplicateHash ==> c.proof in byProof
      ensures r == DuplicateTicket ==>
                Rivalled(byProof, c) && exists p :: p in byProof && SameTicket(byProof[p].signed, c.signed)
      ensures r == DuplicateParticipant ==>
                HasParticipant(byProof, c.signed.participant) && forall p | p in byProof :: !SameTicket(byProof[p].signed, c.signed)
      ensures r == Full ==> |byProof| >= capacity
      ensures r == NotPersisted ==> !stores(old(writes), old(byProof)[c.proof := c])
    {
      if c.proof == 0 {
        return InvalidCommit;
      }
      if !shaped(c.signed) {
        return BadShape;
      }
      if epoch == 0 {
        return Uninitialized;
      }
      if c.signed.epoch != epoch {
        return EpochMismatch;
      }
      if c.proof in byProof {
        return DuplicateHash;
      }
      if HasTicket(byProof, c.signed) {
        return DuplicateTicket;
      }
      if HasParticipant(byProof, c.signed.participant) {
        return DuplicateParticipant;
      }
      if |byProof| >= capacity {
        return Full;
      }
      var before := byProof;
      byProof := byProof[c.proof := c];
      var ok := Persist();
      if !ok {
        byProof := before;
        return NotPersisted;
      }
      return Added;
    }

    method Contains(c: Candidate) returns (r: bool)
      ensures r <==> c.proof in byProof || Rivalled(byProof, c)
    {
      return c.proof in byProof || Rivalled(byProof, c) || HasTicket(byProof, c.signed);
    }

    /** Remove one proof that was observed in a canonical block. */
    method RemoveIncluded(p: Proof, ghost binds: Binding) returns (n: nat)
      requires Valid(binds)
      modifies this`byProof, this`writes
      ensures Valid(binds)
      ensures n > 0 <==> p in old(byProof) && stores(old(writes), old(byProof) - {p})
      ensures byProof == if n > 0 then old(byProof) - {p} else old(byProof)
    {
      if p !in byProof {
        return 0;
      }
      var before := byProof;
      byProof := byProof - {p};
      var ok := Persist();
      if !ok {
        byProof := before;
        return 0;
      }
      return 1;
    }
  }

  /** Writes to the pool's store always succeed. */
  ghost predicate Reliable(pool: CommitPool) {
    forall n, m :: pool.stores(n, m)
  }

  /** The pool serves the epoch, has room left and a store that works. */
  ghost predicate Open(pool: CommitPool, epoch: nat)
    reads pool
  {
    Reliable(pool) && pool.epoch == epoch != 0 && |pool.byProof| < pool.capacity
  }

  /** Bring a candidate back to the pool. It reports success exactly when the pool then holds its proof or another
      candidate of its participant; so the candidate itself is lost exactly when the pool held such a rival. */
  method Readmit(pool: CommitPool, c: Candidate, context: Option<nat>, ghost binds: Binding) returns (r: bool)
    requires pool.Valid(binds) && Genuine(c, binds)
    modifies pool`byProof, pool`writes
    ensures pool.Valid(binds)
    ensures pool.byProof == old(pool.byProof) || (c.proof !in old(pool.byProof) && pool.byProof == old(pool.byProof)[c.proof := c])
    ensures r <==> context == Some(c.signed.epoch) && (c.proof in pool.byProof || Rivalled(pool.byProof, c))
    ensures context == Some(c.signed.epoch) && Open(pool, c.signed.epoch) && c.proof != 0 && pool.shaped(c.signed) ==> r
    ensures r && c.proof !in pool.byProof <==>
              context == Some(c.signed.epoch) && c.proof !in old(pool.byProof) && Rivalled(old(pool.byProof), c)
  {
    if context != Some(c.signed.epoch) {
      return false;
    }
    var added := pool.AddVerified(c, binds);
    if added == Added {
      return true;
    }
    var held := pool.Contains(c);
    return added == DuplicateHash || added == DuplicateTicket || held;
  }

  /** What a call sees of its surroundings: the tickets of the canonical header at each number, the epoch of the
      current work context, and the batch the pool would offer. */
  datatype View = View(included: map<nat, seq<Ticket>>, context: Option<nat>, select: Entries -> Option<seq<Candidate>>)

  ghost predicate SelectsFrom(view: View) {
    forall m: Entries :: view.select(m).Some? ==>
      forall i | 0 <= i < |view.select(m).value| :: Holds(m, view.select(m).value[i])
  }

  ghost predicate AlwaysSelects(view: View) {
    forall m: Entries :: view.select(m).Some?
  }

  ghost predicate Holds(entries: Entries, c: Candidate) {
    c.proof in entries && entries[c.proof] == c
  }

  /** The exact signed ticket is in the canonical header at the block. */
  predicate IncludedAt(view: View, block: nat, c: Candidate) {
    block in view.included && c.signed in view.included[block]
  }

  function ProofsOf(cs: seq<Candidate>): (s: set<Proof>) {
    set i | 0 <= i < |cs| :: cs[i].proof
  }

  /** The proofs quarantined in an epoch. */
  ghost function Held(removed: seq<Removal>, epoch: nat): (s: set<Proof>) {
    if removed == [] then {}
    else
      var last := removed[|removed|-1];
      Held(removed[..|removed|-1], epoch) + if last.epoch == epoch then ProofsOf(last.candidates) else {}
  }

  lemma HeldOneMore(removed: seq<Removal>, r: Removal, epoch: nat)
    ensures Held(removed + [r], epoch) == Held(removed, epoch) + if r.epoch == epoch then ProofsOf(r.candidates) else {}
  {
    assert (removed + [r])[..|removed|] == removed;
  }

  /** Every proof still has a proof of its own epoch and participant, possibly itself, and there is nothing new. */
  ghost predicate Represents(before: set<Proof>, after: set<Proof>, binds: Binding) {
    && after <= before
    && forall p {:trigger Represented(p, after, binds)} | p in before :: Represented(p, after, binds)
  }

  ghost predicate Represented(p: Proof, after: set<Proof>, binds: Binding) {
    exists q :: q in after && binds(q) == binds(p)
  }

  ghost predicate CandidatesOk(cs: seq<Candidate>, epoch: nat, binds: Binding) {
    forall i | 0 <= i < |cs| :: cs[i].signed.epoch == epoch && Genuine(cs[i], binds)
  }

  ghost predicate RemovedOk(removed: seq<Removal>, binds: Binding) {
    forall i | 0 <= i < |removed| :: CandidatesOk(removed[i].candidates, removed[i].epoch, binds)
  }

  /** After a removal is reconciled: what is still included stays, the pool only grew by candidates that are not, and
      whatever did not stay is now in the pool or has a rival there. */
  ghost predicate Reconciled(
      before: Entries, after: Entries, cs: seq<Candidate>, remaining: seq<Candidate>, block: nat, view: View)
  {
    && (forall p | p in before :: p in after && after[p] == before[p])
    && (forall p | p in after && p !in before :: after[p] in cs && !IncludedAt(view, block, after[p]))
    && (forall c | c in remaining :: c in cs)
    && (forall c | c in cs :: c in remaining || (!IncludedAt(view, block, c) && (c.proof in after || Rivalled(after, c))))
  }

  /** One more candidate: it stays, or the pool took it or has its rival. */
  lemma ReconciledOneMore(
      before: Entries, mid: Entries, after: Entries, cs: seq<Candidate>, remaining: seq<Candidate>, c: Candidate, stays: bool,
      block: nat, view: View)
    requires Reconciled(before, mid, cs, remaining, block, view)
    requires after == mid || (c.proof !in mid && after == mid[c.proof := c])
    requires IncludedAt(view, block, c) ==> stays && after == mid
    requires stays || c.proof in after || Rivalled(after, c)
    ensures Reconciled(before, after, cs + [c], if stays then remaining + [c] else remaining, block, view)
  {
    forall d | d in cs && Rivalled(mid, d) ensures Rivalled(after, d) {
      var p :| p in mid && mid[p].signed.epoch == d.signed.epoch && mid[p].signed.participant == d.signed.participant;
      assert p in after && after[p] == mid[p];
    }
  }

  /** Nothing but its shape keeps a candidate of the epoch from being readmitted. */
  ghost predicate ReadmitsAll(pool: CommitPool, epoch: nat, view: View)
    reads pool
  {
    view.context == Some(epoch) && Open(pool, epoch)
  }

  /** What is kept in quarantine is still included, or could never be in a pool. */
  ghost predicate OnlyIncluded(cs: seq<Candidate>, block: nat, view: View, shaped: Ticket -> bool) {
    forall c | c in cs :: IncludedAt(view, block, c) || c.proof == 0 || !shaped(c.signed)
  }

  /** Keep a candidate that is still included in quarantine; otherwise try to readmit it. */
  method ReconcileCandidate(pool: CommitPool, c: Candidate, block: nat, view: View, ghost binds: Binding) returns (stays: bool)
    requires pool.Valid(binds) && Genuine(c, binds)
    modifies pool`byProof, pool`writes
    ensures pool.Valid(binds)
    ensures pool.byProof == old(pool.byProof) || (c.proof !in old(pool.byProof) && pool.byProof == old(pool.byProof)[c.proof := c])
    ensures IncludedAt(view, block, c) ==> stays && pool.byProof == old(pool.byProof)
    ensures stays || c.proof in pool.byProof || Rivalled(pool.byProof, c)
    ensures ReadmitsAll(pool, c.signed.epoch, view) && stays ==> OnlyIncluded([c], block, view, pool.shaped)
    ensures ReadmitsAll(pool, c.signed.epoch, view) ==> old(ReadmitsAll(pool, c.signed.epoch, view))
  {
    if IncludedAt(view, block, c) {
      return true;
    }
    var readmitted := Readmit(pool, c, view.context, binds);
    return !readmitted;
  }

  lemma OnlyIncludedOneMore(cs: seq<Candidate>, c: Candidate, block: nat, view: View, shaped: Ticket -> bool)
    requires OnlyIncluded(cs, block, view, shaped) && OnlyIncluded([c], block, view, shaped)
    ensures OnlyIncluded(cs + [c], block, view, shaped)
  {
    assert c in [c];
  }

  /** Go through one removal's candidates. */
  method ReconcileRemoval(pool: CommitPool, removal: Removal, view: View, ghost binds: Binding) returns (remaining: seq<Candidate>)
    requires pool.Valid(binds) && CandidatesOk(removal.candidates, removal.epoch, binds)
    modifies pool`byProof, pool`writes
    ensures pool.Valid(binds)
    ensures Reconciled(old(pool.byProof), pool.byProof, removal.candidates, remaining, removal.block, view)
    ensures ReadmitsAll(pool, removal.epoch, view) ==> OnlyIncluded(remaining, removal.block, view, pool.shaped)
    ensures ReadmitsAll(pool, removal.epoch, view) ==> old(ReadmitsAll(pool, removal.epoch, view))
  {
    var cs := removal.candidates;
    remaining := [];
    for i := 0 to |cs|
      invariant pool.Valid(binds)
      invariant Reconciled(old(pool.byProof), pool.byProof, cs[..i], remaining, removal.block, view)
      invariant ReadmitsAll(pool, removal.epoch, view) ==> OnlyIncluded(remaining, removal.block, view, pool.shaped)
      invariant ReadmitsAll(pool, removal.epoch, view) ==> old(ReadmitsAll(pool, removal.epoch, view))
    {
      var c := cs[i];
      ghost var mid, kept := pool.byProof, remaining;
      var stays := ReconcileCandidate(pool, c, removal.block, view, binds);
      if stays {
        remaining := remaining + [c];
      }
      ReconciledOneMore(old(pool.byProof), mid, pool.byProof, cs[..i], kept, c, stays, removal.block, view);
      if stays && ReadmitsAll(pool, removal.epoch, view) { OnlyIncludedOneMore(kept, c, removal.block, view, pool.shaped); }
      assert cs[..i + 1] == cs[..i] + [c];
    }
    assert cs[..|cs|] == cs;
  }

  /** A quarantined candidate of the epoch stays at its block, or it is no longer included there and is back in the
      pool, itself or by a rival. */
  ghost predicate StaysOrReturns(c: Candidate, block: nat, epoch: nat, retained: seq<Removal>, entries: Entries, view: View) {
    || (exists j :: 0 <= j < |retained| && retained[j].block == block && retained[j].epoch == epoch && c in retained[j].candidates)
    || (!IncludedAt(view, block, c) && (c.proof in entries || Rivalled(entries, c)))
  }

  ghost predicate AllStayOrReturn(removed: seq<Removal>, epoch: nat, retained: seq<Removal>, entries: Entries, view: View) {
    forall i, c | 0 <= i < |removed| && removed[i].epoch == epoch && c in removed[i].candidates ::
      StaysOrReturns(c, removed[i].block, epoch, retained, entries, view)
  }

  /** Everything retained was quarantined before, at the same block. */
  ghost predicate RetainedFrom(removed: seq<Removal>, retained: seq<Removal>, epoch: nat) {
    forall j | 0 <= j < |retained| :: retained[j].epoch == epoch && retained[j].candidates != [] && FromSome(removed, retained[j])
  }

  ghost predicate FromSome(removed: seq<Removal>, r: Removal) {
    exists i | 0 <= i < |removed| ::
      && removed[i].block == r.block && removed[i].epoch == r.epoch
      && forall c | c in r.candidates :: c in removed[i].candidates
  }

  lemma StaysOrReturnsLater(
      c: Candidate, block: nat, epoch: nat, retained: seq<Removal>, more: seq<Removal>, before: Entries, after: Entries, view: View)
    requires StaysOrReturns(c, block, epoch, retained, before, view) && retained <= more
    requires forall p | p in before :: p in after && after[p] == before[p]
    ensures StaysOrReturns(c, block, epoch, more, after, view)
  {
    if j :| 0 <= j < |retained| && retained[j].block == block && retained[j].epoch == epoch && c in retained[j].candidates {
      assert more[j] == retained[j];
    } else if Rivalled(before, c) {
      var p :| p in before && before[p].signed.epoch == c.signed.epoch && before[p].signed.participant == c.signed.participant;
      assert p in after && after[p] == before[p];
    }
  }

  /** What the loop over the removals has established. */
  ghost predicate ReconciledSoFar(
      removed: seq<Removal>, retained: seq<Removal>, before: Entries, after: Entries, epoch: nat, view: View, binds: Binding)
  {
    && (forall p | p in before :: p in after && after[p] == before[p])
    && RetainedFrom(removed, retained, epoch)
    && AllStayOrReturn(removed, epoch, retained, after, view)
    && Represents(before.Keys + Held(removed, epoch), after.Keys + Held(retained, epoch), binds)
  }

  /** A removal of another epoch is dropped. */
  lemma SkipRemoval(
      removed: seq<Removal>, r: Removal, retained: seq<Removal>, before: Entries, after: Entries, epoch: nat, view: View, binds: Binding)
    requires ReconciledSoFar(removed, retained, before, after, epoch, view, binds) && r.epoch != epoch
    ensures ReconciledSoFar(removed + [r], retained, before, after, epoch, view, binds)
  {
    HeldOneMore(removed, r, epoch);
    RetainedLater(removed, r, retained, epoch);
  }

  lemma RetainedLater(removed: seq<Removal>, r: Removal, retained: seq<Removal>, epoch: nat)
    requires RetainedFrom(removed, retained, epoch)
    ensures RetainedFrom(removed + [r], retained, epoch)
  {
    forall j | 0 <= j < |retained| ensures FromSome(removed + [r], retained[j]) {
      var i :| 0 <= i < |removed| && removed[i].block == retained[j].block && removed[i].epoch == retained[j].epoch
               && forall c | c in retained[j].candidates :: c in removed[i].candidates;
      assert (removed + [r])[i] == removed[i];
    }
  }

  /** The retained list after one removal. */
  function Retain(retained: seq<Removal>, r: Removal, remaining: seq<Candidate>): (more: seq<Removal>) {
    if remaining == [] then retained else retained + [r.(candidates := remaining)]
  }

  lemma HeldRetain(retained: seq<Removal>, r: Removal, remaining: seq<Candidate>)
    ensures Held(Retain(retained, r, remaining), r.epoch) == Held(retained, r.epoch) + ProofsOf(remaining)
  {
    HeldOneMore(retained, r.(candidates := remaining), r.epoch);
  }

  lemma RivalBinds(entries: Entries, epoch: nat, c: Candidate, binds: Binding)
    requires EntriesOk(entries, epoch, binds) && Genuine(c, binds) && (c.proof in entries || Rivalled(entries, c))
    ensures exists q :: q in entries.Keys && binds(q) == binds(c.proof)
  {
    if c.proof in entries {
      assert c.proof in entries.Keys && binds(c.proof) == binds(c.proof);
    } else {
      var p :| p in entries && entries[p].signed.epoch == c.signed.epoch && entries[p].signed.participant == c.signed.participant;
      assert Genuine(entries[p], binds) && entries[p].proof == p;
      assert p in entries.Keys && binds(p) == binds(c.proof);
    }
  }

  /** More proofs, each with a representative in a set that grew by some of them. */
  lemma RepresentsMore(before: set<Proof>, mid: set<Proof>, more: set<Proof>, after: set<Proof>, binds: Binding)
    requires Represents(before, mid, binds) && mid <= after <= mid + more
    requires forall p {:trigger Represented(p, after, binds)} | p in more :: Represented(p, after, binds)
    ensures Represents(before + more, after, binds)
  {
    forall p | p in before + more ensures Represented(p, after, binds) {
      if p in before {
        assert Represented(p, mid, binds);
        var q :| q in mid && binds(q) == binds(p);
        assert q in after;
      }
    }
  }

  /** Where the proofs of one removal go when it is reconciled. */
  lemma ProofsGo(
      mid: Entries, after: Entries, cs: seq<Candidate>, remaining: seq<Candidate>, block: nat, view: View, binds: Binding,
      epoch: nat, poolEpoch: nat)
    requires Reconciled(mid, after, cs, remaining, block, view)
    requires CandidatesOk(cs, epoch, binds) && EntriesOk(after, poolEpoch, binds)
    ensures mid.Keys <= after.Keys && after.Keys <= mid.Keys + ProofsOf(cs) && ProofsOf(remaining) <= ProofsOf(cs)
    ensures forall p {:trigger Represented(p, after.Keys + ProofsOf(remaining), binds)} | p in ProofsOf(cs) ::
              Represented(p, after.Keys + ProofsOf(remaining), binds)
  {
    forall q | q in after.Keys && q !in mid.Keys ensures q in ProofsOf(cs) {
      assert after[q] in cs && after[q].proof == q;
    }
    forall q | q in ProofsOf(remaining) ensures q in ProofsOf(cs) {
      var i :| 0 <= i < |remaining| && remaining[i].proof == q;
      assert remaining[i] in cs;
    }
    forall p | p in ProofsOf(cs) ensures Represented(p, after.Keys + ProofsOf(remaining), binds) {
      var i :| 0 <= i < |cs| && cs[i].proof == p;
      if cs[i] in remaining {
        assert p in ProofsOf(remaining) && binds(p) == binds(p);
      } else {
        RivalBinds(after, poolEpoch, cs[i], binds);
        var q :| q in after.Keys && binds(q) == binds(p);
        assert q in after.Keys + ProofsOf(remaining);
      }
    }
  }

  /** No proof is forgotten without a representative when a removal is reconciled. */
  lemma TrackedOneMore(
      removed: seq<Removal>, r: Removal, retained: seq<Removal>, remaining: seq<Candidate>, before: Entries, mid: Entries, after: Entries,
      view: View, binds: Binding, poolEpoch: nat)
    requires Represents(before.Keys + Held(removed, r.epoch), mid.Keys + Held(retained, r.epoch), binds)
    requires Reconciled(mid, after, r.candidates, remaining, r.block, view)
    requires CandidatesOk(r.candidates, r.epoch, binds) && EntriesOk(after, poolEpoch, binds)
    ensures Represents(before.Keys + Held(removed + [r], r.epoch), after.Keys + Held(Retain(retained, r, remaining), r.epoch), binds)
  {
    HeldOneMore(removed, r, r.epoch);
    HeldRetain(retained, r, remaining);
    ProofsGo(mid, after, r.candidates, remaining, r.block, view, binds, r.epoch, poolEpoch);
    var held, more := Held(retained, r.epoch), ProofsOf(r.candidates);
    var tracked := after.Keys + Held(Retain(retained, r, remaining), r.epoch);
    forall p | p in more ensures Represented(p, tracked, binds) {
      assert Represented(p, after.Keys + ProofsOf(remaining), binds);
      var q :| q in after.Keys + ProofsOf(remaining) && binds(q) == binds(p);
      assert q in tracked;
    }
    RepresentsMore(before.Keys + Held(removed, r.epoch), mid.Keys + held, more, tracked, binds);
    assert before.Keys + Held(removed + [r], r.epoch) == before.Keys + Held(removed, r.epoch) + more;
  }

  /** One more removal of the epoch is reconciled. */
  lemma KeepRemoval(
      removed: seq<Removal>, r: Removal, retained: seq<Removal>, remaining: seq<Candidate>, before: Entries, mid: Entries, after: Entries,
      view: View, binds: Binding, poolEpoch: nat)
    requires ReconciledSoFar(removed, retained, before, mid, r.epoch, view, binds)
    requires Reconciled(mid, after, r.candidates, remaining, r.block, view)
    requires CandidatesOk(r.candidates, r.epoch, binds) && EntriesOk(after, poolEpoch, binds)
    ensures ReconciledSoFar(removed + [r], Retain(retained, r, remaining), before, after, r.epoch, view, binds)
  {
    TrackedOneMore(removed, r, retained, remaining, before, mid, after, view, binds, poolEpoch);
    AllStayOneMore(removed, r, retained, remaining, mid, after, view);
    RetainedLater(removed, r, retained, r.epoch);
    if remaining != [] {
      assert (removed + [r])[|removed|] == r;
      assert FromSome(removed + [r], r.(candidates := remaining));
    }
  }

  lemma AllStayOneMore(
      removed: seq<Removal>, r: Removal, retained: seq<Removal>, remaining: seq<Candidate>, mid: Entries, after: Entries, view: View)
    requires AllStayOrReturn(removed, r.epoch, retained, mid, view)
    requires Reconciled(mid, after, r.candidates, remaining, r.block, view)
    ensures AllStayOrReturn(removed + [r], r.epoch, Retain(retained, r, remaining), after, view)
  {
    var more := Retain(retained, r, remaining);
    var all := removed + [r];
    forall i, c | 0 <= i < |all| && all[i].epoch == r.epoch && c in all[i].candidates
      ensures StaysOrReturns(c, all[i].block, r.epoch, more, after, view)
    {
      if i < |removed| {
        assert all[i] == removed[i];
        StaysOrReturnsLater(c, removed[i].block, r.epoch, retained, more, mid, after, view);
      } else if c in remaining {
        assert more[|retained|] == r.(candidates := remaining);
      }
    }
  }

  ghost predicate AllIncluded(removed: seq<Removal>, view: View, shaped: Ticket -> bool) {
    forall i | 0 <= i < |removed| :: OnlyIncluded(removed[i].candidates, removed[i].block, view, shaped)
  }

  lemma AllIncludedOneMore(retained: seq<Removal>, r: Removal, remaining: seq<Candidate>, view: View, shaped: Ticket -> bool)
    requires AllIncluded(retained, view, shaped) && OnlyIncluded(remaining, r.block, view, shaped)
    ensures AllIncluded(Retain(retained, r, remaining), view, shaped)
  {
  }

  lemma RetainedOk(removed: seq<Removal>, retained: seq<Removal>, epoch: nat, binds: Binding)
    requires RemovedOk(removed, binds) && RetainedFrom(removed, retained, epoch)
    ensures RemovedOk(retained, binds)
  {
    forall j | 0 <= j < |retained| ensures CandidatesOk(retained[j].candidates, retained[j].epoch, binds) {
      assert FromSome(removed, retained[j]);
      var i :| 0 <= i < |removed| && removed[i].block == retained[j].block && removed[i].epoch == retained[j].epoch
               && forall c | c in retained[j].candidates :: c in removed[i].candidates;
      assert CandidatesOk(removed[i].candidates, removed[i].epoch, binds);
      forall k | 0 <= k < |retained[j].candidates|
        ensures retained[j].candidates[k].signed.epoch == retained[j].epoch && Genuine(retained[j].candidates[k], binds)
      {
        assert retained[j].candidates[k] in removed[i].candidates;
      }
    }
  }

  /** Drop, keep, or shorten one removal. */
  method ReconcileNext(
      pool: CommitPool, r: Removal, retained: seq<Removal>, commitEpoch: nat, view: View,
      ghost before: seq<Removal>, ghost start: Entries, ghost binds: Binding)
    returns (more: seq<Removal>)
    requires pool.Valid(binds) && CandidatesOk(r.candidates, r.epoch, binds)
    requires ReconciledSoFar(before, retained, start, pool.byProof, commitEpoch, view, binds)
    requires ReadmitsAll(pool, commitEpoch, view) ==> AllIncluded(retained, view, pool.shaped)
    modifies pool`byProof, pool`writes
    ensures pool.Valid(binds)
    ensures ReconciledSoFar(before + [r], more, start, pool.byProof, commitEpoch, view, binds)
    ensures ReadmitsAll(pool, commitEpoch, view) ==> AllIncluded(more, view, pool.shaped)
  {
    if r.epoch != commitEpoch {
      SkipRemoval(before, r, retained, start, pool.byProof, commitEpoch, view, binds);
      return retained;
    }
    ghost var mid := pool.byProof;
    var remaining := ReconcileRemoval(pool, r, view, binds);
    KeepRemoval(before, r, retained, remaining, start, mid, pool.byProof, view, binds, pool.epoch);
    more := Retain(retained, r, remaining);
    if ReadmitsAll(pool, commitEpoch, view) { AllIncludedOneMore(retained, r, remaining, view, pool.shaped); }
  }

  /** A proof that left the pool is quarantined at a block whose canonical header has the exact signed ticket. */
  ghost predicate Witnessed(p: Proof, removed: seq<Removal>, epoch: nat, view: View) {
    exists i, c :: 0 <= i < |removed| && removed[i].epoch == epoch && c in removed[i].candidates && c.proof == p
                   && removed[i].block in view.included && c.signed in view.included[removed[i].block]
  }

  ghost function Tracked(entries: Entries, removed: seq<Removal>, epoch: nat): (s: set<Proof>) {
    entries.Keys + Held(removed, epoch)
  }

  /** What was added to the quarantine is included at the block it was added for. */
  ghost predicate NewIncluded(removed: seq<Removal>, more: seq<Removal>, view: View) {
    forall i, c | |removed| <= i < |more| && c in more[i].candidates :: IncludedAt(view, more[i].block, c)
  }

  /** Proofs only move from the pool to the quarantine, each with its witness; the tracked set is the same. */
  ghost predicate Moves(before: Entries, after: Entries, removed: seq<Removal>, more: seq<Removal>, epoch: nat, view: View) {
    && (forall p | p in after :: p in before && after[p] == before[p])
    && removed <= more
    && Tracked(after, more, epoch) == Tracked(before, removed, epoch)
    && (forall p | p in before && p !in after :: Witnessed(p, more, epoch, view))
    && NewIncluded(removed, more, view)
  }

  lemma WitnessedLater(p: Proof, removed: seq<Removal>, more: seq<Removal>, epoch: nat, view: View)
    requires Witnessed(p, removed, epoch, view) && removed <= more
    ensures Witnessed(p, more, epoch, view)
  {
    var i, c :| 0 <= i < |removed| && removed[i].epoch == epoch && c in removed[i].candidates && c.proof == p
                && IncludedAt(view, removed[i].block, c);
    assert more[i] == removed[i];
  }

  lemma MovesCompose(a: Entries, b: Entries, c: Entries, r: seq<Removal>, s: seq<Removal>, t: seq<Removal>, epoch: nat, view: View)
    requires Moves(a, b, r, s, epoch, view) && Moves(b, c, s, t, epoch, view)
    ensures Moves(a, c, r, t, epoch, view)
  {
    forall p | p in a && p !in c ensures Witnessed(p, t, epoch, view) {
      if p !in b { WitnessedLater(p, s, t, epoch, view); }
    }
    forall i, d | |r| <= i < |t| && d in t[i].candidates ensures IncludedAt(view, t[i].block, d) {
      if i < |s| { assert t[i] == s[i]; }
    }
  }

  /** The pool can take back everything that is tracked in the epoch. */
  ghost predicate Roomy(pool: CommitPool, entries: Entries, removed: seq<Removal>, epoch: nat, view: View)
    reads pool
  {
    Reliable(pool) && pool.epoch == epoch != 0 && view.context == Some(epoch) && |Tracked(entries, removed, epoch)| < pool.capacity
  }

  lemma SubsetSize<T>(a: set<T>, b: set<T>)
    requires a <= b
    ensures |a| <= |b|
  {
    if a != {} {
      var x :| x in a;
      SubsetSize(a - {x}, b - {x});
    }
  }

  /** A pool that has room for everything tracked has room while the quarantine is reconciled. */
  lemma RoomLasts(
      removed: seq<Removal>, retained: seq<Removal>, before: Entries, mid: Entries, epoch: nat, view: View, binds: Binding, capacity: nat)
    requires ReconciledSoFar(removed, retained, before, mid, epoch, view, binds) && |Tracked(before, removed, epoch)| < capacity
    ensures |mid| < capacity
  {
    SubsetSize(mid.Keys, Tracked(before, removed, epoch));
    assert |mid| == |mid.Keys|;
  }

  /** With room for everything tracked, everything in quarantine is included at its block in the end. */
  lemma RoomyIncluded(
      before: Entries, mid: Entries, after: Entries, removed: seq<Removal>, retained: seq<Removal>, more: seq<Removal>,
      epoch: nat, view: View, binds: Binding, capacity: nat, shaped: Ticket -> bool)
    requires ReconciledSoFar(removed, retained, before, mid, epoch, view, binds)
    requires Moves(mid, after, retained, more, epoch, view)
    requires |Tracked(before, removed, epoch)| < capacity
    requires |mid| < capacity ==> AllIncluded(retained, view, shaped)
    ensures AllIncluded(more, view, shaped)
  {
    RoomLasts(removed, retained, before, mid, epoch, view, binds, capacity);
    AllIncludedMoves(mid, after, retained, more, epoch, view, shaped);
  }

  /** If what stays in quarantine is included, then so it is when more is quarantined. */
  lemma AllIncludedMoves(
      mid: Entries, after: Entries, retained: seq<Removal>, more: seq<Removal>, epoch: nat, view: View, shaped: Ticket -> bool)
    requires AllIncluded(retained, view, shaped) && Moves(mid, after, retained, more, epoch, view)
    ensures AllIncluded(more, view, shaped)
  {
    forall i | 0 <= i < |more| ensures OnlyIncluded(more[i].candidates, more[i].block, view, shaped) {
      if i < |retained| { assert more[i] == retained[i]; }
    }
  }

  /** Candidates taken out of the pool because a block includes them. */
  ghost predicate TakenAt(before: Entries, after: Entries, taken: seq<Candidate>, block: nat, view: View) {
    && ProofsOf(taken) <= before.Keys
    && after == before - ProofsOf(taken)
    && forall i | 0 <= i < |taken| :: IncludedAt(view, block, taken[i])
  }

  lemma TakenOneMore(before: Entries, mid: Entries, taken: seq<Candidate>, c: Candidate, block: nat, view: View)
    requires TakenAt(before, mid, taken, block, view) && c.proof in mid && IncludedAt(view, block, c)
    ensures TakenAt(before, mid - {c.proof}, taken + [c], block, view)
  {
    ProofsAppend(taken, c);
    assert before - ProofsOf(taken + [c]) == mid - {c.proof};
  }

  lemma ProofsAppend(cs: seq<Candidate>, c: Candidate)
    ensures ProofsOf(cs + [c]) == ProofsOf(cs) + {c.proof}
  {
    var more := cs + [c];
    forall p ensures p in ProofsOf(more) <==> p in ProofsOf(cs) || p == c.proof {
      if p in ProofsOf(cs) {
        var i :| 0 <= i < |cs| && cs[i].proof == p;
        assert more[i].proof == p;
      }
      if p == c.proof { assert more[|cs|].proof == p; }
    }
  }

  /** What was taken is quarantined, unless nothing was. */
  function Quarantine(removed: seq<Removal>, block: nat, epoch: nat, taken: seq<Candidate>): (more: seq<Removal>) {
    if taken == [] then removed else removed + [Removal(block, epoch, taken)]
  }

  lemma TakenMoves(before: Entries, after: Entries, removed: seq<Removal>, taken: seq<Candidate>, block: nat, epoch: nat, view: View)
    requires TakenAt(before, after, taken, block, view)
    ensures Moves(before, after, removed, Quarantine(removed, block, epoch, taken), epoch, view)
  {
    var r := Removal(block, epoch, taken);
    HeldOneMore(removed, r, epoch);
    if taken == [] {
      assert ProofsOf(taken) == {};
      assert after == before;
    }
    forall p | p in before && p !in after ensures Witnessed(p, Quarantine(removed, block, epoch, taken), epoch, view) {
      assert p in ProofsOf(taken);
      var i :| 0 <= i < |taken| && taken[i].proof == p;
      assert (removed + [r])[|removed|] == r && taken[i] in r.candidates;
    }
    assert NewIncluded(removed, Quarantine(removed, block, epoch, taken), view);
  }

  /** Proofs of another epoch are not in the pool. */
  lemma OtherEpochAbsent(entries: Entries, epoch: nat, c: Candidate, binds: Binding)
    requires EntriesOk(entries, epoch, binds) && Genuine(c, binds) && c.signed.epoch != epoch
    ensures c.proof !in entries
  {
  }

  lemma QuarantineOk(removed: seq<Removal>, block: nat, epoch: nat, taken: seq<Candidate>, binds: Binding)
    requires RemovedOk(removed, binds) && CandidatesOk(taken, epoch, binds)
    ensures RemovedOk(Quarantine(removed, block, epoch, taken), binds)
  {
  }

  /** Take from the pool the listed candidates whose exact tickets a block includes. */
  method TakeIncluded(pool: CommitPool, cs: seq<Candidate>, block: nat, epoch: nat, view: View, ghost binds: Binding)
    returns (taken: seq<Candidate>)
    requires pool.Valid(binds) && CandidatesOk(cs, epoch, binds)
    modifies pool`byProof, pool`writes
    ensures pool.Valid(binds) && CandidatesOk(taken, epoch, binds)
    ensures TakenAt(old(pool.byProof), pool.byProof, taken, block, view)
    ensures epoch != pool.epoch ==> taken == []
    ensures Reliable(pool) ==> IncludedGone(cs, block, view, pool.byProof)
  {
    taken := [];
    for i := 0 to |cs|
      invariant pool.Valid(binds) && CandidatesOk(taken, epoch, binds)
      invariant TakenAt(old(pool.byProof), pool.byProof, taken, block, view)
      invariant epoch != pool.epoch ==> taken == []
      invariant Reliable(pool) ==> IncludedGone(cs[..i], block, view, pool.byProof)
    {
      ghost var mid, before := pool.byProof, taken;
      if epoch != pool.epoch {
        OtherEpochAbsent(mid, pool.epoch, cs[i], binds);
      }
      taken := TakeOne(pool, taken, cs[i], block, view, binds);
      if taken != before {
        TakenOneMore(old(pool.byProof), mid, before, cs[i], block, view);
      }
      if Reliable(pool) { IncludedGoneMore(cs, i, block, view, mid, pool.byProof); }
    }
    assert cs[..|cs|] == cs;
  }

  /** What the block includes of the listed candidates is out of the pool. */
  ghost predicate IncludedGone(cs: seq<Candidate>, block: nat, view: View, entries: Entries) {
    forall c | c in cs && IncludedAt(view, block, c) :: c.proof !in entries
  }

  lemma IncludedGoneMore(cs: seq<Candidate>, i: nat, block: nat, view: View, mid: Entries, after: Entries)
    requires i < |cs| && IncludedGone(cs[..i], block, view, mid)
    requires forall p | p in after :: p in mid
    requires IncludedAt(view, block, cs[i]) ==> cs[i].proof !in after
    ensures IncludedGone(cs[..i + 1], block, view, after)
  {
    assert cs[..i + 1] == cs[..i] + [cs[i]];
  }

  /** Take one candidate if the block includes it and the pool can let it go. */
  method TakeOne(pool: CommitPool, before: seq<Candidate>, c: Candidate, block: nat, view: View, ghost binds: Binding)
    returns (taken: seq<Candidate>)
    requires pool.Valid(binds)
    modifies pool`byProof, pool`writes
    ensures pool.Valid(binds)
    ensures taken == before || taken == before + [c]
    ensures taken == before ==> pool.byProof == old(pool.byProof)
    ensures taken != before ==>
              IncludedAt(view, block, c) && c.proof in old(pool.byProof) && pool.byProof == old(pool.byProof) - {c.proof}
    ensures Reliable(pool) && IncludedAt(view, block, c) ==> c.proof !in pool.byProof
  {
    taken := before;
    if IncludedAt(view, block, c) {
      var n := pool.RemoveIncluded(c.proof, binds);
      if n > 0 {
        taken := taken + [c];
      }
    }
  }

  /** Candidates by proof, all of one epoch. */
  ghost predicate BatchOk(batch: Entries, epoch: nat, binds: Binding) {
    forall p | p in batch :: batch[p].proof == p && batch[p].signed.epoch == epoch && Genuine(batch[p], binds)
  }

  /** Take from the pool the batch's candidates that a block includes, and forget them in the batch. */
  method ScanBlock(pool: CommitPool, batch: Entries, block: nat, epoch: nat, view: View, ghost binds: Binding)
    returns (left: Entries, taken: seq<Candidate>)
    requires pool.Valid(binds) && BatchOk(batch, epoch, binds)
    modifies pool`byProof, pool`writes
    ensures pool.Valid(binds) && CandidatesOk(taken, epoch, binds)
    ensures TakenAt(old(pool.byProof), pool.byProof, taken, block, view)
    ensures forall p | p in left :: p in batch && left[p] == batch[p]
    ensures forall p | p in batch :: p in left <==> !IncludedAt(view, block, batch[p])
    ensures Reliable(pool) ==> forall p | p in batch && IncludedAt(view, block, batch[p]) :: p !in pool.byProof
  {
    left, taken := batch, [];
    var todo := batch.Keys;
    while todo != {}
      invariant todo <= batch.Keys
      invariant pool.Valid(binds) && CandidatesOk(taken, epoch, binds)
      invariant TakenAt(old(pool.byProof), pool.byProof, taken, block, view)
      invariant forall p | p in left :: p in batch && left[p] == batch[p]
      invariant forall p | p in batch :: p in left <==> p in todo || !IncludedAt(view, block, batch[p])
      invariant Reliable(pool) ==> forall p | p in batch && p !in todo && IncludedAt(view, block, batch[p]) :: p !in pool.byProof
      decreases todo
    {
      var p :| p in todo;
      todo := todo - {p};
      if IncludedAt(view, block, batch[p]) {
        ghost var mid := pool.byProof;
        var n := pool.RemoveIncluded(p, binds);
        if n > 0 {
          TakenOneMore(old(pool.byProof), mid, taken, batch[p], block, view);
          taken := taken + [batch[p]];
        }
        left := left - {p};
      }
    }
  }

  /** What is left of a batch is included nowhere in the scanned range; what is not left is out of the pool, if
      writes succeed. */
  ghost predicate Scanned(
      pending: Entries, remaining: Entries, from: nat, number: nat, view: View, entries: Entries, reliable: bool)
  {
    && (forall p | p in remaining :: p in pending && remaining[p] == pending[p])
    && (forall p, n | p in remaining && from < n < number :: !IncludedAt(view, n, remaining[p]))
    && (reliable ==> forall p | p in pending && p !in remaining :: p !in entries)
  }

  lemma ScannedOneMore(
      pending: Entries, batch: Entries, left: Entries, from: nat, number: nat, view: View, mid: Entries, after: Entries, reliable: bool)
    requires Scanned(pending, batch, from, number, view, mid, reliable)
    requires forall p | p in after :: p in mid
    requires forall p | p in left :: p in batch && left[p] == batch[p]
    requires forall p | p in batch :: p in left <==> !IncludedAt(view, number, batch[p])
    requires reliable ==> forall p | p in batch && p !in left :: p !in after
    ensures Scanned(pending, left, from, number + 1, view, after, reliable)
  {
  }

  /** What was added to the quarantine was seen at a block of the range. */
  ghost predicate AddedBetween(removed: seq<Removal>, more: seq<Removal>, from: nat, end: nat) {
    forall i | |removed| <= i < |more| :: from < more[i].block < end
  }

  /** What a batch offers for the epoch and a scanned block includes is out of the pool. */
  ghost predicate OfferedGone(offered: seq<Candidate>, epoch: nat, from: nat, end: nat, view: View, entries: Entries) {
    forall c, n | c in offered && c.signed.epoch == epoch && from < n < end && n in view.included && c.signed in view.included[n] ::
      c.proof !in entries
  }

  lemma BatchGone(offered: seq<Candidate>, batch: Entries, epoch: nat, from: nat, end: nat, view: View, entries: Entries)
    requires forall c | c in offered && c.signed.epoch == epoch :: c.proof in batch && batch[c.proof] == c
    requires forall p, n | p in batch && from < n < end && IncludedAt(view, n, batch[p]) :: p !in entries
    ensures OfferedGone(offered, epoch, from, end, view, entries)
  {
    forall c, n | c in offered && c.signed.epoch == epoch && from < n < end && n in view.included && c.signed in view.included[n]
      ensures c.proof !in entries
    {
      assert IncludedAt(view, n, batch[c.proof]);
    }
  }

  /** What a call keeps: every tracked proof has a representative of its epoch and participant afterwards, and a
      proof left the pool only with its witness in the canonical chain. */
  ghost predicate Kept(
      before: Entries, after: Entries, removed: seq<Removal>, more: seq<Removal>, epoch: nat, view: View, binds: Binding)
  {
    && Represents(Tracked(before, removed, epoch), Tracked(after, more, epoch), binds)
    && (forall p | p in before && p !in after :: Witnessed(p, more, epoch, view))
  }

  lemma KeptInSteps(
      before: Entries, mid: Entries, after: Entries, removed: seq<Removal>, retained: seq<Removal>, more: seq<Removal>,
      epoch: nat, view: View, binds: Binding)
    requires ReconciledSoFar(removed, retained, before, mid, epoch, view, binds)
    requires Moves(mid, after, retained, more, epoch, view)
    ensures Kept(before, after, removed, more, epoch, view, binds)
  {
  }

  /** More proofs may then move to the quarantine. */
  lemma MoveOn(
      before: Entries, mid: Entries, entries: Entries, after: Entries,
      removed: seq<Removal>, retained: seq<Removal>, quarantine: seq<Removal>, more: seq<Removal>,
      epoch: nat, view: View, binds: Binding, shaped: Ticket -> bool)
    requires ReconciledSoFar(removed, retained, before, mid, epoch, view, binds)
    requires Moves(mid, entries, retained, quarantine, epoch, view) && Moves(entries, after, quarantine, more, epoch, view)
    ensures Moves(mid, after, retained, more, epoch, view) && Kept(before, after, removed, more, epoch, view, binds)
    ensures AllIncluded(quarantine, view, shaped) ==> AllIncluded(more, view, shaped)
    ensures forall p | p in after :: p in entries
  {
    MovesCompose(mid, entries, after, retained, quarantine, more, epoch, view);
    KeptInSteps(before, mid, after, removed, retained, more, epoch, view, binds);
    if AllIncluded(quarantine, view, shaped) { AllIncludedMoves(entries, after, quarantine, more, epoch, view, shaped); }
  }

  function TicketsOf(cs: seq<Candidate>): (ts: seq<Ticket>)
    ensures |ts| == |cs| && forall i | 0 <= i < |cs| :: ts[i] == cs[i].signed
  {
    seq(|cs|, i requires 0 <= i < |cs| => cs[i].signed)
  }

  /** The first candidates of the epoch, in order. */
  function FirstOfEpoch(cs: seq<Candidate>, epoch: nat, limit: nat): (r: seq<Candidate>) {
    if cs == [] || limit == 0 then []
    else if cs[0].signed.epoch == epoch then [cs[0]] + FirstOfEpoch(cs[1..], epoch, limit - 1)
    else FirstOfEpoch(cs[1..], epoch, limit)
  }

  lemma FirstStep(cs: seq<Candidate>, i: nat, epoch: nat, limit: nat)
    requires i < |cs| && limit > 0
    ensures FirstOfEpoch(cs[i..], epoch, limit) ==
              if cs[i].signed.epoch == epoch then [cs[i]] + FirstOfEpoch(cs[i + 1..], epoch, limit - 1)
              else FirstOfEpoch(cs[i + 1..], epoch, limit)
  {
    assert cs[i..][1..] == cs[i + 1..];
  }

  lemma {:induction false} FirstOfEpochMembers(cs: seq<Candidate>, epoch: nat, limit: nat)
    ensures |FirstOfEpoch(cs, epoch, limit)| <= limit
    ensures forall c | c in FirstOfEpoch(cs, epoch, limit) :: c in cs && c.signed.epoch == epoch
  {
    if cs != [] && limit > 0 {
      FirstOfEpochMembers(cs[1..], epoch, if cs[0].signed.epoch == epoch then limit - 1 else limit);
    }
  }

  /** All candidates of the epoch, in order. */
  function OfEpoch(cs: seq<Candidate>, epoch: nat): (r: seq<Candidate>)
    ensures forall c :: c in r <==> c in cs && c.signed.epoch == epoch
  {
    if cs == [] then [] else (if cs[0].signed.epoch == epoch then [cs[0]] else []) + OfEpoch(cs[1..], epoch)
  }

  /** The first of them, as many as there are up to the limit. */
  lemma {:induction false} FirstOfEpochIsFirst(cs: seq<Candidate>, epoch: nat, limit: nat)
    ensures FirstOfEpoch(cs, epoch, limit) ==
              var all := OfEpoch(cs, epoch); if |all| <= limit then all else all[..limit]
  {
    if cs != [] && limit > 0 {
      FirstOfEpochIsFirst(cs[1..], epoch, if cs[0].signed.epoch == epoch then limit - 1 else limit);
    }
  }

  lemma Append3(a: seq<Candidate>, c: Candidate, b: seq<Candidate>)
    ensures a + ([c] + b) == a + [c] + b
  {
  }

  /** Collect the candidates of the epoch, in order, until the block's limit is reached. */
  method Usable(candidates: seq<Candidate>, epoch: nat) returns (usable: seq<Candidate>)
    ensures usable == FirstOfEpoch(candidates, epoch, MAX_TICKETS)
  {
    usable := [];
    var i := 0;
    assert candidates[0..] == candidates;
    while i < |candidates| && |usable| < MAX_TICKETS
      invariant 0 <= i <= |candidates| && |usable| <= MAX_TICKETS
      invariant FirstOfEpoch(candidates, epoch, MAX_TICKETS) == usable + FirstOfEpoch(candidates[i..], epoch, MAX_TICKETS - |usable|)
    {
      FirstStep(candidates, i, epoch, MAX_TICKETS - |usable|);
      if candidates[i].signed.epoch == epoch {
        Append3(usable, candidates[i], FirstOfEpoch(candidates[i + 1..], epoch, MAX_TICKETS - |usable| - 1));
        usable := usable + [candidates[i]];
      }
      i := i + 1;
    }
  }

  /** The engine's provider of work tickets. */
  class Provider {
    const pool: CommitPool
    const epochLength: nat
    var reservedBlock: nat
    var reservedEpoch: nat
    var reserved: seq<Candidate>
    var removed: seq<Removal>
    var scannedEpoch: nat
    var scannedThrough: nat

    ghost predicate Valid(binds: Binding)
      reads this, pool
    {
      pool.Valid(binds) && RemovedOk(removed, binds) && CandidatesOk(reserved, reservedEpoch, binds)
    }

    constructor (pool: CommitPool, epochLength: nat)
      ensures this.pool == pool && removed == [] && reserved == [] && reservedBlock == 0
      ensures forall binds :: pool.Valid(binds) ==> Valid(binds)
    {
      this.pool, this.epochLength := pool, epochLength;
      reservedBlock, reservedEpoch, reserved, removed, scannedEpoch, scannedThrough := 0, 0, [], [], 0, 0;
    }

    method ClearReservation()
      modifies this`reservedBlock, this`reservedEpoch, this`reserved
      ensures reservedBlock == 0 && reservedEpoch == 0 && reserved == []
    {
      reservedBlock, reservedEpoch, reserved := 0, 0, [];
    }

    /** Keep what is still included in quarantine and bring the rest back. */
    method ReconcileRemoved(commitEpoch: nat, view: View, ghost binds: Binding)
      requires Valid(binds)
      modifies this`removed, pool`byProof, pool`writes
      ensures Valid(binds)
      ensures ReconciledSoFar(old(removed), removed, old(pool.byProof), pool.byProof, commitEpoch, view, binds)
      ensures ReadmitsAll(pool, commitEpoch, view) ==> AllIncluded(removed, view, pool.shaped)
    {
      var retained: seq<Removal> := [];
      for i := 0 to |removed|
        invariant pool.Valid(binds) && RemovedOk(removed, binds) && removed == old(removed)
        invariant ReconciledSoFar(removed[..i], retained, old(pool.byProof), pool.byProof, commitEpoch, view, binds)
        invariant ReadmitsAll(pool, commitEpoch, view) ==> AllIncluded(retained, view, pool.shaped)
      {
        assert removed[..i + 1] == removed[..i] + [removed[i]];
        assert CandidatesOk(removed[i].candidates, removed[i].epoch, binds);
        retained := ReconcileNext(pool, removed[i], retained, commitEpoch, view, removed[..i], old(pool.byProof), binds);
      }
      assert removed[..|removed|] == removed;
      RetainedOk(removed, retained, commitEpoch, binds);
      removed := retained;
    }

    /** Take reserved candidates out of the pool once the reserved block is canonical and includes them. */
    method ReconcileReservation(view: View, ghost binds: Binding)
      requires Valid(binds)
      modifies this`reservedBlock, this`reservedEpoch, this`reserved, this`removed, pool`byProof, pool`writes
      ensures Valid(binds)
      ensures old(reservedBlock) != 0 ==> reservedBlock == 0 && reserved == []
      ensures Moves(old(pool.byProof), pool.byProof, old(removed), removed, pool.epoch, view)
      ensures old(reservedBlock) != 0 && Reliable(pool) ==> IncludedGone(old(reserved), old(reservedBlock), view, pool.byProof)
    {
      if reservedBlock == 0 {
        return;
      }
      if reservedBlock !in view.included {
        ClearReservation();
        return;
      }
      var taken := TakeIncluded(pool, reserved, reservedBlock, reservedEpoch, view, binds);
      TakenMoves(old(pool.byProof), pool.byProof, removed, taken, reservedBlock, pool.epoch, view);
      QuarantineOk(removed, reservedBlock, reservedEpoch, taken, binds);
      removed := Quarantine(removed, reservedBlock, reservedEpoch, taken);
      ClearReservation();
    }

    /** Give up the reservation of another block; if that block is below, what it includes is quarantined. */
    method PassReservation(blockNumber: nat, view: View, ghost binds: Binding)
      requires Valid(binds)
      modifies this`reservedBlock, this`reservedEpoch, this`reserved, this`removed, pool`byProof, pool`writes
      ensures Valid(binds)
      ensures old(reservedBlock) != 0 ==> reservedBlock == 0 && reserved == []
      ensures Moves(old(pool.byProof), pool.byProof, old(removed), removed, pool.epoch, view)
      ensures 0 < old(reservedBlock) < blockNumber && Reliable(pool) ==>
                IncludedGone(old(reserved), old(reservedBlock), view, pool.byProof)
      ensures old(reservedBlock) >= blockNumber ==> pool.byProof == old(pool.byProof) && removed == old(removed)
    {
      if reservedBlock != 0 {
        if blockNumber > reservedBlock {
          ReconcileReservation(view, binds);
        } else {
          ClearReservation();
        }
      }
    }

    /** Quarantine the batch's candidates that one block includes. */
    method ScanOne(batch: Entries, number: nat, commitEpoch: nat, view: View, ghost binds: Binding) returns (left: Entries)
      requires Valid(binds) && BatchOk(batch, commitEpoch, binds)
      modifies this`removed, pool`byProof, pool`writes
      ensures Valid(binds)
      ensures Moves(old(pool.byProof), pool.byProof, old(removed), removed, commitEpoch, view)
      ensures forall p | p in left :: p in batch && left[p] == batch[p]
      ensures forall p | p in batch :: p in left <==> !IncludedAt(view, number, batch[p])
      ensures Reliable(pool) ==> forall p | p in batch && p !in left :: p !in pool.byProof
      ensures removed == old(removed) || (exists r: Removal :: r.block == number && removed == old(removed) + [r])
    {
      var taken;
      left, taken := ScanBlock(pool, batch, number, commitEpoch, view, binds);
      TakenMoves(old(pool.byProof), pool.byProof, removed, taken, number, commitEpoch, view);
      QuarantineOk(removed, number, commitEpoch, taken, binds);
      removed := Quarantine(removed, number, commitEpoch, taken);
    }

    /** Scan the canonical blocks up to a block for the batch's candidates. */
    method Scan(pending: Entries, blockNumber: nat, commitEpoch: nat, view: View, ghost binds: Binding)
      requires Valid(binds) && BatchOk(pending, commitEpoch, binds) && scannedThrough < blockNumber
      modifies this`removed, this`scannedThrough, pool`byProof, pool`writes
      ensures Valid(binds) && scannedThrough == blockNumber - 1
      ensures Moves(old(pool.byProof), pool.byProof, old(removed), removed, commitEpoch, view)
      ensures Reliable(pool) ==>
                forall p, n | p in pending && old(scannedThrough) < n < blockNumber && IncludedAt(view, n, pending[p]) :: p !in pool.byProof
      ensures old(removed) <= removed && AddedBetween(old(removed), removed, old(scannedThrough), blockNumber)
    {
      var remaining := pending;
      var number := scannedThrough + 1;
      while number < blockNumber
        invariant old(scannedThrough) < number <= blockNumber && scannedThrough == number - 1
        invariant Valid(binds) && BatchOk(remaining, commitEpoch, binds)
        invariant Moves(old(pool.byProof), pool.byProof, old(removed), removed, commitEpoch, view)
        invariant AddedBetween(old(removed), removed, old(scannedThrough), number)
        invariant Scanned(pending, remaining, old(scannedThrough), number, view, pool.byProof, Reliable(pool))
      {
        ghost var batch := remaining;
        if number in view.included && view.included[number] != [] && remaining != map[] {
          ghost var mid, before := pool.byProof, removed;
          remaining := ScanOne(remaining, number, commitEpoch, view, binds);
          MovesCompose(old(pool.byProof), mid, pool.byProof, old(removed), before, removed, commitEpoch, view);
          ScannedOneMore(pending, batch, remaining, old(scannedThrough), number, view, mid, pool.byProof, Reliable(pool));
        } else {
          ScannedOneMore(pending, batch, remaining, old(scannedThrough), number, view, pool.byProof, pool.byProof, Reliable(pool));
        }
        scannedThrough := number;
        number := number + 1;
      }
    }

    /** The pending candidates of the epoch, by proof. */
    method Batch(candidates: seq<Candidate>, commitEpoch: nat, ghost binds: Binding) returns (batch: Entries)
      requires pool.Valid(binds) && forall i | 0 <= i < |candidates| :: Holds(pool.byProof, candidates[i])
      ensures BatchOk(batch, commitEpoch, binds)
      ensures forall p | p in batch :: p in pool.byProof && batch[p] == pool.byProof[p]
      ensures forall c | c in candidates && c.signed.epoch == commitEpoch :: c.proof in batch && batch[c.proof] == c
    {
      batch := map[];
      for i := 0 to |candidates|
        invariant BatchOk(batch, commitEpoch, binds)
        invariant forall p | p in batch :: p in pool.byProof && batch[p] == pool.byProof[p]
        invariant forall c | c in candidates[..i] && c.signed.epoch == commitEpoch :: c.proof in batch && batch[c.proof] == c
      {
        assert Holds(pool.byProof, candidates[i]);
        if candidates[i].signed.epoch == commitEpoch {
          batch := batch[candidates[i].proof := candidates[i]];
        }
      }
      assert candidates[..|candidates|] == candidates;
    }

    /** The block before the first of the epoch's commit window. */
    function WindowStart(commitEpoch: nat): (n: nat) {
      commitEpoch * epochLength
    }

    /** The window's block numbers fit the machine word. */
    predicate InRange(commitEpoch: nat) {
      epochLength == 0 || commitEpoch <= (MAX_U64 - 1) / epochLength
    }

    predicate ScanApplies(blockNumber: nat, commitEpoch: nat) {
      epochLength != 0 && blockNumber != 0 && commitEpoch != 0 && blockNumber > WindowStart(commitEpoch) + 1
    }

    /** Where a scan resumes: at the cursor while it is in the window, otherwise at the window's start. */
    function ResumesAt(blockNumber: nat, commitEpoch: nat): (n: nat)
      reads this`scannedEpoch, this`scannedThrough
      ensures n >= commitEpoch * epochLength
      ensures n > commitEpoch * epochLength ==> n == scannedThrough < blockNumber && scannedEpoch == commitEpoch
    {
      if scannedEpoch == commitEpoch && WindowStart(commitEpoch) <= scannedThrough < blockNumber then scannedThrough
      else WindowStart(commitEpoch)
    }

    /** Quarantine pending candidates that the canonical chain already includes. */
    method ReconcileCanonicalPending(blockNumber: nat, commitEpoch: nat, view: View, ghost binds: Binding) returns (ok: bool)
      requires Valid(binds) && SelectsFrom(view)
      modifies this`removed, this`scannedEpoch, this`scannedThrough, pool`byProof, pool`writes
      ensures Valid(binds)
      ensures Moves(old(pool.byProof), pool.byProof, old(removed), removed, commitEpoch, view)
      ensures AlwaysSelects(view) && InRange(commitEpoch) ==> ok
      ensures blockNumber != 0 && commitEpoch != 0 && !InRange(commitEpoch) ==> !ok
      ensures !InRange(commitEpoch) || !ScanApplies(blockNumber, commitEpoch) ==>
                && pool.byProof == old(pool.byProof) && removed == old(removed)
                && scannedEpoch == old(scannedEpoch) && scannedThrough == old(scannedThrough)
      ensures AddedBetween(old(removed), removed, old(ResumesAt(blockNumber, commitEpoch)), blockNumber)
      ensures ok && ScanApplies(blockNumber, commitEpoch) ==>
                && scannedEpoch == commitEpoch && scannedThrough == blockNumber - 1
                && view.select(old(pool.byProof)).Some?
                && (Reliable(pool) ==>
                      OfferedGone(view.select(old(pool.byProof)).value, commitEpoch, old(ResumesAt(blockNumber, commitEpoch)),
                        blockNumber, view, pool.byProof))
    {
      if epochLength == 0 || blockNumber == 0 || commitEpoch == 0 {
        return true;
      }
      if commitEpoch > (MAX_U64 - 1) / epochLength {
        return false;
      }
      var windowStart := commitEpoch * epochLength + 1;
      if blockNumber <= windowStart {
        return true;
      }
      if scannedEpoch != commitEpoch || scannedThrough < windowStart - 1 || scannedThrough >= blockNumber {
        scannedEpoch := commitEpoch;
        scannedThrough := windowStart - 1;
      }
      match view.select(pool.byProof)
      case None => return false;
      case Some(candidates) =>
        var batch := Batch(candidates, commitEpoch, binds);
        ghost var from := scannedThrough;
        Scan(batch, blockNumber, commitEpoch, view, binds);
        if Reliable(pool) { BatchGone(candidates, batch, commitEpoch, from, blockNumber, view, pool.byProof); }
        return true;
    }

    /** Reconcile the quarantine and the pool with the canonical chain. First, to `mid` and `retained`, what is no longer
        included goes back to the pool; then what the pool offers and the chain includes is quarantined. */
    method ReconcileCanonical(blockNumber: nat, commitEpoch: nat, view: View, ghost binds: Binding)
      returns (ok: bool, ghost mid: Entries, ghost retained: seq<Removal>)
      requires Valid(binds) && SelectsFrom(view)
      modifies this`removed, this`scannedEpoch, this`scannedThrough, pool`byProof, pool`writes
      ensures Valid(binds)
      ensures blockNumber == 0 || commitEpoch == 0 ==> !ok && unchanged(this) && unchanged(pool)
      ensures !InRange(commitEpoch) ==> !ok
      ensures blockNumber != 0 && commitEpoch != 0 && AlwaysSelects(view) && InRange(commitEpoch) ==> ok
      ensures ok && ScanApplies(blockNumber, commitEpoch) ==>
                && scannedEpoch == commitEpoch && scannedThrough == blockNumber - 1
                && view.select(mid).Some?
                && (Reliable(pool) ==>
                      OfferedGone(view.select(mid).value, commitEpoch, old(ResumesAt(blockNumber, commitEpoch)),
                        blockNumber, view, pool.byProof))
      ensures blockNumber != 0 && commitEpoch != 0 ==>
                && ReconciledSoFar(old(removed), retained, old(pool.byProof), mid, commitEpoch, view, binds)
                && Moves(mid, pool.byProof, retained, removed, commitEpoch, view)
                && Kept(old(pool.byProof), pool.byProof, old(removed), removed, commitEpoch, view, binds)
      ensures blockNumber != 0 && commitEpoch != 0 ==>
                AddedBetween(retained, removed, old(ResumesAt(blockNumber, commitEpoch)), blockNumber)
      ensures blockNumber != 0 && Roomy(pool, old(pool.byProof), old(removed), commitEpoch, view) ==>
                AllIncluded(removed, view, pool.shaped)
    {
      if blockNumber == 0 || commitEpoch == 0 {
        ok, mid, retained := false, pool.byProof, removed;
        return;
      }
      ghost var from := ResumesAt(blockNumber, commitEpoch);
      ReconcileRemoved(commitEpoch, view, binds);
      assert ResumesAt(blockNumber, commitEpoch) == from;
      mid, retained := pool.byProof, removed;
      ok := ReconcileCanonicalPending(blockNumber, commitEpoch, view, binds);
      KeptInSteps(old(pool.byProof), mid, pool.byProof, old(removed), retained, removed, commitEpoch, view, binds);
      if Roomy(pool, old(pool.byProof), old(removed), commitEpoch, view) {
        RoomyIncluded(old(pool.byProof), mid, pool.byProof, old(removed), retained, removed, commitEpoch, view, binds, pool.capacity, pool.shaped);
      }
    }

    /** Have the pool of the epoch, `start`, and reconcile it. */
    method Refresh(blockNumber: nat, commitEpoch: nat, loaded: Option<seq<Candidate>>, view: View, ghost binds: Binding)
      returns (ok: bool, ghost start: Entries, ghost mid: Entries, ghost retained: seq<Removal>)
      requires Valid(binds) && SelectsFrom(view) && blockNumber != 0 && commitEpoch != 0
      requires loaded.Some? ==> AllGenuine(loaded.value, binds)
      modifies this`removed, this`scannedEpoch, this`scannedThrough, pool
      ensures Valid(binds)
      ensures pool.epoch == commitEpoch || pool.epoch == old(pool.epoch)
      ensures ok ==> pool.epoch == commitEpoch && InRange(commitEpoch)
      ensures commitEpoch == old(pool.epoch) ==> start == old(pool.byProof)
      ensures pool.epoch == commitEpoch ==>
                && (commitEpoch != old(pool.epoch) ==> loaded.Some? && Indexes(start, loaded.value, |loaded.value|))
                && ReconciledSoFar(old(removed), retained, start, mid, commitEpoch, view, binds)
                && Moves(mid, pool.byProof, retained, removed, commitEpoch, view)
                && Kept(start, pool.byProof, old(removed), removed, commitEpoch, view, binds)
                && (Roomy(pool, start, old(removed), commitEpoch, view) ==> AllIncluded(removed, view, pool.shaped))
      ensures commitEpoch == old(pool.epoch) || Restores(commitEpoch, pool.capacity, pool.shaped, loaded) ==>
                AlwaysSelects(view) && InRange(commitEpoch) ==> ok
      ensures ok && ScanApplies(blockNumber, commitEpoch) ==>
                && scannedEpoch == commitEpoch && scannedThrough == blockNumber - 1
                && view.select(mid).Some?
                && (Reliable(pool) ==>
                      OfferedGone(view.select(mid).value, commitEpoch, old(ResumesAt(blockNumber, commitEpoch)),
                        blockNumber, view, pool.byProof))
    {
      start, mid, retained := pool.byProof, pool.byProof, removed;
      ok := pool.ResetCommitEpoch(commitEpoch, loaded, binds);
      if ok {
        start := pool.byProof;
        ok, mid, retained := ReconcileCanonical(blockNumber, commitEpoch, view, binds);
      }
    }

    /** Reserve what the pool offers for the block. */
    method Reserve(blockNumber: nat, commitEpoch: nat, candidates: seq<Candidate>, ghost binds: Binding)
      requires pool.Valid(binds) && forall i | 0 <= i < |candidates| :: Holds(pool.byProof, candidates[i])
      modifies this`reservedBlock, this`reservedEpoch, this`reserved
      ensures reservedBlock == blockNumber && reservedEpoch == commitEpoch
      ensures reserved == FirstOfEpoch(candidates, commitEpoch, MAX_TICKETS)
      ensures var all := OfEpoch(candidates, commitEpoch); reserved == if |all| <= 8 then all else all[..8]
      ensures CandidatesOk(reserved, commitEpoch, binds)
    {
      var usable := Usable(candidates, commitEpoch);
      FirstOfEpochMembers(candidates, commitEpoch, MAX_TICKETS);
      FirstOfEpochIsFirst(candidates, commitEpoch, MAX_TICKETS);
      forall i | 0 <= i < |usable| ensures usable[i].signed.epoch == commitEpoch && Genuine(usable[i], binds) {
        assert usable[i] in usable;
        var j :| 0 <= j < |candidates| && candidates[j] == usable[i];
        assert Holds(pool.byProof, candidates[j]);
      }
      reservedBlock, reservedEpoch, reserved := blockNumber, commitEpoch, usable;
    }

    /** Give up another block's reservation and reserve for this one. */
    method Renew(blockNumber: nat, commitEpoch: nat, view: View, ghost binds: Binding) returns (ok: bool)
      requires Valid(binds) && SelectsFrom(view)
      modifies this`reservedBlock, this`reservedEpoch, this`reserved, this`removed, pool`byProof, pool`writes
      ensures Valid(binds)
      ensures Moves(old(pool.byProof), pool.byProof, old(removed), removed, pool.epoch, view)
      ensures 0 < old(reservedBlock) < blockNumber && Reliable(pool) ==>
                IncludedGone(old(reserved), old(reservedBlock), view, pool.byProof)
      ensures old(reservedBlock) >= blockNumber ==> pool.byProof == old(pool.byProof) && removed == old(removed)
      ensures ok <==> view.select(pool.byProof).Some?
      ensures ok ==>
                && reservedBlock == blockNumber && reservedEpoch == commitEpoch
                && reserved == FirstOfEpoch(view.select(pool.byProof).value, commitEpoch, MAX_TICKETS)
    {
      PassReservation(blockNumber, view, binds);
      match view.select(pool.byProof)
      case None => return false;
      case Some(candidates) =>
        Reserve(blockNumber, commitEpoch, candidates, binds);
        return true;
    }

    /** The engine's request for a block's tickets. Within one epoch no tracked proof is forgotten without a
        representative, a repeated request gets the same reservation, and a new one gets the first tickets the pool
        offers for the epoch. From `start`, the pool of the epoch, the quarantine is reconciled to `mid` and `retained`;
        from there on proofs only move to the quarantine. */
    method Provide(blockNumber: nat, commitEpoch: nat, loaded: Option<seq<Candidate>>, view: View, ghost binds: Binding)
      returns (r: Option<seq<Ticket>>, ghost start: Entries, ghost mid: Entries, ghost retained: seq<Removal>)
      requires Valid(binds) && SelectsFrom(view)
      requires loaded.Some? ==> AllGenuine(loaded.value, binds)
      modifies this, pool
      ensures Valid(binds)
      ensures blockNumber != 0 && commitEpoch != 0 && commitEpoch == old(pool.epoch) ==>
                pool.epoch == commitEpoch && start == old(pool.byProof) && Kept(start, pool.byProof, old(removed), removed, commitEpoch, view, binds)
      ensures blockNumber != 0 && commitEpoch != 0 && pool.epoch == commitEpoch ==>
                && (commitEpoch != old(pool.epoch) ==> loaded.Some? && Indexes(start, loaded.value, |loaded.value|))
                && ReconciledSoFar(old(removed), retained, start, mid, commitEpoch, view, binds)
                && Moves(mid, pool.byProof, retained, removed, commitEpoch, view)
                && (Roomy(pool, start, old(removed), commitEpoch, view) ==> AllIncluded(removed, view, pool.shaped))
      ensures blockNumber == 0 || commitEpoch == 0 ==> r.None? && unchanged(this) && unchanged(pool)
      ensures r.Some? ==> pool.epoch == commitEpoch && InRange(commitEpoch)
      ensures r.Some? && ScanApplies(blockNumber, commitEpoch) ==>
                && scannedEpoch == commitEpoch && scannedThrough == blockNumber - 1
                && view.select(mid).Some?
                && (Reliable(pool) ==>
                      OfferedGone(view.select(mid).value, commitEpoch, old(ResumesAt(blockNumber, commitEpoch)),
                        blockNumber, view, pool.byProof))
      ensures blockNumber != 0 && commitEpoch != 0 &&
              (commitEpoch == old(pool.epoch) || Restores(commitEpoch, pool.capacity, pool.shaped, loaded)) ==>
                AlwaysSelects(view) && InRange(commitEpoch) ==> r.Some?
      ensures r.Some? && Reliable(pool) && 0 < old(reservedBlock) < blockNumber ==>
                IncludedGone(old(reserved), old(reservedBlock), view, pool.byProof)
      ensures r.Some? ==> reservedBlock == blockNumber && reservedEpoch == commitEpoch && r.value == TicketsOf(reserved)
      ensures r.Some? && old(reservedBlock) == blockNumber && old(reservedEpoch) == commitEpoch ==> reserved == old(reserved)
      ensures r.Some? && !(old(reservedBlock) == blockNumber && old(reservedEpoch) == commitEpoch) ==>
                && view.select(pool.byProof).Some?
                && reserved == FirstOfEpoch(view.select(pool.byProof).value, commitEpoch, MAX_TICKETS)
    {
      r, start, mid, retained := None, pool.byProof, pool.byProof, removed;
      if blockNumber == 0 || commitEpoch == 0 {
        return;
      }
      var ok;
      ok, start, mid, retained := Refresh(blockNumber, commitEpoch, loaded, view, binds);
      if !ok {
        return;
      }
      if reservedBlock == blockNumber && reservedEpoch == commitEpoch {
        r := Some(TicketsOf(reserved));
        return;
      }
      ghost var entries, quarantine := pool.byProof, removed;
      ok := Renew(blockNumber, commitEpoch, view, binds);
      MoveOn(start, mid, entries, pool.byProof, old(removed), retained, quarantine, removed, commitEpoch, view, binds, pool.shaped);
      if ok {
        r := Some(TicketsOf(reserved));
      }
    }
  }

  // Runs within one commit epoch.

  datatype Snapshot = Snapshot(entries: Entries, removed: seq<Removal>)

  ghost function TrackedIn(s: Snapshot, epoch: nat): (r: set<Proof>) {
    Tracked(s.entries, s.removed, epoch)
  }

  ghost predicate Called(s: Snapshot, t: Snapshot, epoch: nat, binds: Binding) {
    exists view :: Kept(s.entries, t.entries, s.removed, t.removed, epoch, view, binds)
  }

  ghost predicate AddedOne(s: Snapshot, t: Snapshot) {
    exists c: Candidate :: c.proof !in s.entries && t == s.(entries := s.entries[c.proof := c])
  }

  /** A request or a reconciliation, whatever the canonical chain is then, or a new candidate. */
  ghost predicate Step(s: Snapshot, t: Snapshot, epoch: nat, binds: Binding) {
    Called(s, t, epoch, binds) || AddedOne(s, t)
  }

  ghost predicate IsRun(run: seq<Snapshot>, epoch: nat, binds: Binding) {
    forall i, j | 0 <= i < j < |run| && j == i + 1 :: Step(run[i], run[j], epoch, binds)
  }

  lemma StepRepresents(s: Snapshot, t: Snapshot, epoch: nat, binds: Binding, p: Proof)
    requires Step(s, t, epoch, binds) && Represented(p, TrackedIn(s, epoch), binds)
    ensures Represented(p, TrackedIn(t, epoch), binds)
  {
    var q :| q in TrackedIn(s, epoch) && binds(q) == binds(p);
    if Called(s, t, epoch, binds) {
      var view :| Kept(s.entries, t.entries, s.removed, t.removed, epoch, view, binds);
      assert Represented(q, TrackedIn(t, epoch), binds);
    } else {
      assert q in TrackedIn(t, epoch);
    }
  }

  /** Over any run, the participant of every tracked candidate stays tracked. */
  lemma {:induction false} ParticipantNeverLost(run: seq<Snapshot>, epoch: nat, binds: Binding, p: Proof, i: nat, j: nat)
    requires IsRun(run, epoch, binds) && i <= j < |run| && p in TrackedIn(run[i], epoch)
    ensures Represented(p, TrackedIn(run[j], epoch), binds)
  {
    if i == j {
      assert p in TrackedIn(run[j], epoch) && binds(p) == binds(p);
    } else {
      ParticipantNeverLost(run, epoch, binds, p, i, j - 1);
      StepRepresents(run[j - 1], run[j], epoch, binds, p);
    }
  }

  /** No two tracked proofs belong to the same participant. */
  ghost predicate Exclusive(tracked: set<Proof>, binds: Binding) {
    forall p, q | p in tracked && q in tracked && binds(p) == binds(q) :: p == q
  }

  lemma StepKeepsTracked(s: Snapshot, t: Snapshot, epoch: nat, binds: Binding, p: Proof)
    requires Step(s, t, epoch, binds) && Exclusive(TrackedIn(s, epoch), binds) && p in TrackedIn(s, epoch)
    ensures p in TrackedIn(t, epoch)
  {
    if Called(s, t, epoch, binds) {
      var view :| Kept(s.entries, t.entries, s.removed, t.removed, epoch, view, binds);
      assert Represented(p, TrackedIn(t, epoch), binds);
      var q :| q in TrackedIn(t, epoch) && binds(q) == binds(p);
      assert q in TrackedIn(s, epoch);
    }
  }

  /** As long as no participant has two candidates, every candidate stays in the pool or in quarantine. */
  lemma {:induction false} CandidateNeverLost(run: seq<Snapshot>, epoch: nat, binds: Binding, p: Proof, i: nat, j: nat)
    requires IsRun(run, epoch, binds) && i <= j < |run| && p in TrackedIn(run[i], epoch)
    requires forall k | i <= k < j :: Exclusive(TrackedIn(run[k], epoch), binds)
    ensures p in TrackedIn(run[j], epoch)
  {
    if i < j {
      CandidateNeverLost(run, epoch, binds, p, i, j - 1);
      StepKeepsTracked(run[j - 1], run[j], epoch, binds, p);
    }
  }

  /** A reconciliation can lose a candidate: one participant, one candidate in the pool, another coming back. */
  method LostToRival() returns (readmitted: bool, held: bool)
    ensures readmitted && !held
  {
    ghost var binds: Binding := p => (1, 7);
    var pool := new CommitPool(8, t => true, (n, m) => true);
    var rival := Candidate(Ticket(1, 1, 7, 20, []), 2);
    assert Restores(1, pool.capacity, pool.shaped, Some([rival]));
    var prepared := pool.ResetCommitEpoch(1, Some([rival]), binds);
    var c := Candidate(Ticket(1, 1, 7, 10, []), 1);
    assert [rival][0] == rival && pool.byProof[2] == rival;
    assert Rivalled(pool.byProof, c);
    readmitted := Readmit(pool, c, Some(1), binds);
    held := c.proof in pool.byProof;
  }
}
