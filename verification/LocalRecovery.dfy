/** Crash recovery of an LQC node: the persistent target marker and the re-execution of
    stored blocks up to it. */
module LocalRecovery {
  import opened Basics
  import opened Chain
  import opened Bytes

  const HASH_LENGTH: nat := 32
  const NUMBER_SPACE: nat := 0x1_0000_0000_0000_0000
  const BATCH_LIMIT: nat := 32

  type Number = n: int | 0 <= n < NUMBER_SPACE

  datatype Error =
    | OrphanMetadata | BadTargetLength | BadTarget | BadMetadataLength | TargetMismatch | BadNumber | HeightMismatch
    | NotLQC | BlockUnavailable | StateUnavailable | Conflict | NoAncestor | ParentUnavailable
    | BlockDisappeared | ValidationFailed | NotRestored

  datatype Result<+T> = Ok(value: T) | Err(error: Error)

  /** The chain as recovery sees it. */
  datatype View = View(
    blocks: Store,
    numbers: map<Hash, Number>,
    canonical: map<nat, Hash>,
    states: set<Hash>,
    head: Header,
    headBlockHash: Hash)

  /** The two marker entries of the database, next to the chain. */
  datatype Disk = Disk(target: Option<seq<Byte>>, metadata: Option<seq<Byte>>, view: View)

  /** What importing one batch did: whether it was accepted, and the chain afterwards. */
  datatype Insertion = Insertion(ok: bool, view: View)

  function BlockByHash(v: View, h: Hash): (r: Option<Header>) {
    if h in v.numbers then GetHeader(v.blocks, h, v.numbers[h]) else None
  }

  predicate CanonicalAt(v: View, n: nat, h: Hash) {
    n in v.canonical && v.canonical[n] == h
  }

  /** The pending target, or the empty hash when there is none. */
  function ReadMarker(d: Disk): (r: Result<Hash>) {
    if d.target.None? then
      if d.metadata.Some? then Err(OrphanMetadata) else Ok(ZERO_HASH)
    else if |d.target.value| != HASH_LENGTH then Err(BadTargetLength)
    else
      HashSpace();
      var target: Hash := Decode(d.target.value);
      if target == ZERO_HASH then Err(BadTarget)
      else if d.metadata.None? then Ok(target)
      else
        var m := d.metadata.value;
        if |m| != HASH_LENGTH + 8 then Err(BadMetadataLength)
        else if Decode(m[..HASH_LENGTH]) != target then Err(TargetMismatch)
        else
          var number := Decode(m[HASH_LENGTH..]);
          if number == 0 then Err(BadNumber)
          else if target in d.view.numbers && d.view.numbers[target] != number then Err(HeightMismatch)
          else Ok(target)
  }

  lemma HashSpace()
    ensures Pow256(HASH_LENGTH) == HASH_SPACE && Pow256(8) == NUMBER_SPACE
  {
    EightBytes();
    SixteenBytes();
    PowAdds(16, 16);
  }

  lemma EightBytes()
    ensures Pow256(8) == NUMBER_SPACE
  {
    assert Pow256(2) == 0x1_0000;
    PowAdds(2, 2);
    assert Pow256(4) == 0x1_0000_0000;
    PowAdds(4, 4);
  }

  lemma SixteenBytes()
    ensures Pow256(16) == 0x1_0000_0000_0000_0000_0000_0000_0000_0000
  {
    EightBytes();
    PowAdds(8, 8);
  }

  function EncodeTarget(target: Hash): (bs: seq<Byte>) {
    Encode(target, HASH_LENGTH)
  }

  /** The marker `Prepare` writes for a block. */
  function WithMarker(d: Disk, target: Hash, number: Number): (r: Disk) {
    d.(target := Some(EncodeTarget(target)), metadata := Some(EncodeTarget(target) + Encode(number, 8)))
  }

  /** A marker that is written for a real block is read back as its target. */
  lemma MarkerRoundTrip(d: Disk, target: Hash, number: Number)
    requires target != ZERO_HASH && number != 0
    requires target in d.view.numbers ==> d.view.numbers[target] == number
    ensures ReadMarker(WithMarker(d, target, number)) == Ok(target)
  {
    HashSpace();
    DecodeEncode(target, HASH_LENGTH);
    DecodeEncode(number, 8);
    var m := EncodeTarget(target) + Encode(number, 8);
    assert m[..HASH_LENGTH] == EncodeTarget(target);
    assert m[HASH_LENGTH..] == Encode(number, 8);
  }

  /** Reading accepts exactly what is written: the marker of a real block, or the older one without metadata. */
  lemma MarkerReads(d: Disk, target: Hash)
    requires target != ZERO_HASH
    ensures ReadMarker(d) == Ok(target) <==>
              && d.target == Some(EncodeTarget(target))
              && (d.metadata.None? || exists n: Number :: MarkedAt(d, target, n))
  {
    HashSpace();
    DecodeEncode(target, HASH_LENGTH);
    if ReadMarker(d) == Ok(target) {
      EncodeDecode(d.target.value);
      if d.metadata.Some? {
        var m := d.metadata.value;
        EncodeDecode(m[..HASH_LENGTH]);
        EncodeDecode(m[HASH_LENGTH..]);
        assert m == m[..HASH_LENGTH] + m[HASH_LENGTH..];
        assert MarkedAt(d, target, Decode(m[HASH_LENGTH..]));
      }
    }
    if n: Number :| MarkedAt(d, target, n) {
      MarkerRoundTrip(d, target, n);
      if d.target == Some(EncodeTarget(target)) { assert d == WithMarker(d, target, n); }
    }
  }

  /** The metadata is that of the target at a block number, which is the one the database knows, if it knows one. */
  ghost predicate MarkedAt(d: Disk, target: Hash, n: Number) {
    && n != 0 && d.metadata == Some(EncodeTarget(target) + Encode(n, 8))
    && (target in d.view.numbers ==> d.view.numbers[target] == n)
  }

  /** There is no pending target exactly when nothing is written; everything else that is not a marker is refused. */
  lemma MarkerErrors(d: Disk)
    ensures ReadMarker(d) == Ok(ZERO_HASH) <==> d.target.None? && d.metadata.None?
    ensures ReadMarker(d) == Err(OrphanMetadata) <==> d.target.None? && d.metadata.Some?
    ensures ReadMarker(d) == Err(BadTargetLength) <==> d.target.Some? && |d.target.value| != 32
    ensures ReadMarker(d) == Err(BadTarget) <==> d.target == Some(EncodeTarget(ZERO_HASH))
  {
    HashSpace();
    DecodeEncode(ZERO_HASH, HASH_LENGTH);
    if d.target.Some? && |d.target.value| == HASH_LENGTH { EncodeDecode(d.target.value); }
  }

  /** The marker of a target at another number than the database knows. */
  ghost predicate Mismatched(d: Disk, target: Hash, n: Number) {
    && target in d.view.numbers && d.view.numbers[target] != n
    && d.target == Some(EncodeTarget(target)) && d.metadata == Some(EncodeTarget(target) + Encode(n, 8))
  }

  lemma HeightErrors(d: Disk)
    requires ReadMarker(d) == Err(HeightMismatch)
    ensures exists target: Hash, n: Number :: Mismatched(d, target, n)
  {
    HashSpace();
    var m := d.metadata.value;
    EncodeDecode(d.target.value);
    EncodeDecode(m[..HASH_LENGTH]);
    EncodeDecode(m[HASH_LENGTH..]);
    assert m == m[..HASH_LENGTH] + m[HASH_LENGTH..];
    assert Mismatched(d, Decode(d.target.value), Decode(m[HASH_LENGTH..]));
  }

  /** Startup, before the chain can rewind: remember the head, unless a target is pending. */
  function Prepared(d: Disk): (r: (Disk, Result<Hash>))
    ensures r.1.Ok? && r.1.value != ZERO_HASH ==> ReadMarker(r.0) == r.1
    ensures d.target.Some? || d.metadata.Some? ==> r.0 == d && r.1 == ReadMarker(d)
    ensures d.target.None? && d.metadata.None? ==>
              if Remembered(d.view)
              then var n := d.view.numbers[d.view.headBlockHash];
                   r == (Disk(Some(EncodeTarget(d.view.headBlockHash)), Some(EncodeTarget(d.view.headBlockHash) + Encode(n, 8)), d.view),
                         Ok(d.view.headBlockHash))
              else r == (d, Ok(ZERO_HASH))
    ensures r.0.view == d.view
  {
    var pending := ReadMarker(d);
    if pending.Err? || pending.value != ZERO_HASH then (d, pending)
    else
      var target := d.view.headBlockHash;
      if target == ZERO_HASH || target !in d.view.numbers || d.view.numbers[target] == 0 then (d, Ok(ZERO_HASH))
      else
        MarkerRoundTrip(d, target, d.view.numbers[target]);
        (WithMarker(d, target, d.view.numbers[target]), Ok(target))
  }

  /** The head a start remembers: a block the database knows, above genesis. */
  predicate Remembered(v: View) {
    v.headBlockHash != ZERO_HASH && v.headBlockHash in v.numbers && v.numbers[v.headBlockHash] != 0
  }

  /** A target that was remembered once is kept over any number of restarts, whatever the chain looks like then: the
      marker is never written again, and it is read as long as the database does not know another number for it. */
  lemma TargetSurvives(d: Disk, later: View)
    requires Prepared(d).1.Ok? && Prepared(d).1.value != ZERO_HASH
    ensures var (marked, target) := (Prepared(d).0, Prepared(d).1.value);
            var restart := Prepared(marked.(view := later));
            && restart.0 == marked.(view := later)
            && (restart.1 == Ok(target) <==>
                  marked.metadata.None? || exists n: Number :: MarkedAt(marked.(view := later), target, n))
            && (restart.1 != Ok(target) ==> restart.1 == Err(HeightMismatch))
  {
    var (marked, target) := (Prepared(d).0, Prepared(d).1.value);
    MarkerReads(marked, target);
    MarkerReads(marked.(view := later), target);
  }

  /** A block execution can restart from: canonical, and with its state available. */
  predicate Anchor(v: View, b: Header) {
    CanonicalAt(v, b.number, b.hash) && b.root in v.states
  }

  /** `missing` lists, newest first, the blocks from `tip` down to just above its highest anchor `base`. */
  ghost predicate MissingAbove(v: View, tip: Header, missing: seq<Header>, base: Header) {
    var run := missing + [base];
    && run[0] == tip
    && (forall i, j | 0 <= i < j < |run| && j == i + 1 :: GetHeader(v.blocks, run[i].parent, run[i].number - 1) == Some(run[j]))
    && (forall b | b in missing :: !(b.number in v.canonical && v.canonical[b.number] == b.hash && b.root in v.states))
    && base.number in v.canonical && v.canonical[base.number] == base.hash && base.root in v.states
  }

  function HashesOf(bs: seq<Header>): (hs: seq<Hash>)
    ensures |hs| == |bs| && forall i | 0 <= i < |hs| :: hs[i] == bs[i].hash
  {
    if bs == [] then [] else HashesOf(bs[..|bs|-1]) + [bs[|bs|-1].hash]
  }

  function OldestFirst(newest: seq<Hash>): (r: seq<Hash>)
    ensures |r| == |newest| && forall i | 0 <= i < |r| :: r[i] == newest[|newest| - 1 - i]
  {
    if newest == [] then [] else OldestFirst(newest[1..]) + [newest[0]]
  }

  ghost function Concat(batches: seq<seq<Hash>>): (r: seq<Hash>) {
    if batches == [] then [] else Concat(batches[..|batches|-1]) + batches[|batches|-1]
  }

  /** Non-empty batches within the limit, all but the last one full. */
  ghost predicate BatchesShaped(batches: seq<seq<Hash>>) {
    && (forall b | b in batches :: 1 <= |b| <= BATCH_LIMIT)
    && (forall i | 0 <= i < |batches| - 1 :: |batches[i]| == BATCH_LIMIT)
  }

  ghost predicate AllFull(batches: seq<seq<Hash>>) {
    forall b | b in batches :: |b| == BATCH_LIMIT
  }

  /** When a target may be forgotten: it is canonical, and a head with state is at or above it. */
  ghost predicate SafeToClear(v: View, target: Hash) {
    exists n: nat :: n in v.canonical && v.canonical[n] == target && n <= v.head.number && v.head.root in v.states
  }

  /** What block import guarantees about the chain it leaves: its head is canonical and is the block its hash names. */
  ghost predicate Sane(before: View, after: View) {
    && CanonicalAt(after, after.head.number, after.head.hash)
    && (after.head.hash in before.blocks ==> before.blocks[after.head.hash] == after.head)
  }

  /** The blocks the walk down from a block visits: it stops at an anchor, at the repaired head's height, or where
      the parent is missing. */
  ghost function WalkDown(v: View, block: Header): (w: seq<Header>)
    ensures |w| > 0
    decreases block.number
  {
    var parent := GetHeader(v.blocks, block.parent, block.number - 1);
    if Anchor(v, block) || block.number <= v.head.number || parent.None? then [block]
    else [block] + WalkDown(v, parent.value)
  }

  lemma WalkOneMore(v: View, missing: seq<Header>, block: Header, parent: Header)
    requires !Anchor(v, block) && block.number > v.head.number
    requires GetHeader(v.blocks, block.parent, block.number - 1) == Some(parent)
    ensures missing + WalkDown(v, block) == missing + [block] + WalkDown(v, parent)
  {
  }

  lemma MissingOneMore(v: View, block: Header, parent: Header, missing: seq<Header>, base: Header)
    requires MissingAbove(v, parent, missing, base) && !Anchor(v, block)
    requires GetHeader(v.blocks, block.parent, block.number - 1) == Some(parent)
    ensures MissingAbove(v, block, [block] + missing, base)
  {
    var run, longer := missing + [base], [block] + missing + [base];
    forall i, j | 0 <= i < j < |longer| && j == i + 1
      ensures GetHeader(v.blocks, longer[i].parent, longer[i].number - 1) == Some(longer[j])
    {
      if i > 0 { assert longer[i] == run[i - 1] && longer[j] == run[j - 1]; }
    }
  }

  /** A walk that ends at an anchor lists exactly what is missing above it. */
  lemma {:induction false} WalkToAnchor(v: View, block: Header)
    requires var w := WalkDown(v, block); Anchor(v, w[|w|-1])
    ensures var w := WalkDown(v, block); MissingAbove(v, block, w[..|w|-1], w[|w|-1])
    decreases block.number
  {
    var w := WalkDown(v, block);
    if !Anchor(v, block) {
      var parent := GetHeader(v.blocks, block.parent, block.number - 1).value;
      var rest := WalkDown(v, parent);
      WalkToAnchor(v, parent);
      MissingOneMore(v, block, parent, rest[..|rest|-1], rest[|rest|-1]);
      assert w[..|w|-1] == [block] + rest[..|rest|-1];
    }
  }

  /** Where the walk ends decides the outcome. */
  ghost predicate Collected(v: View, tip: Header, r: Result<seq<Hash>>) {
    var w := WalkDown(v, tip);
    var end := w[|w|-1];
    if Anchor(v, end) then r == Ok(HashesOf(w[..|w|-1]))
    else r == Err(if end.number <= v.head.number then NoAncestor else ParentUnavailable)
  }

  lemma HashesAppend(bs: seq<Header>, b: Header)
    ensures HashesOf(bs + [b]) == HashesOf(bs) + [b.hash]
  {
    assert (bs + [b])[..|bs|] == bs;
  }

  lemma WalkEnds(v: View, tip: Header, missing: seq<Header>, block: Header)
    requires missing + WalkDown(v, block) == WalkDown(v, tip) && WalkDown(v, block) == [block]
    ensures var w := WalkDown(v, tip); w[..|w|-1] == missing && w[|w|-1] == block
  {
  }

  /** Collect the hashes to replay. It succeeds exactly when the walk down ends at an anchor; otherwise the end of the
      walk decides the error. */
  method CollectMissing(v: View, tip: Header) returns (r: Result<seq<Hash>>, ghost missing: seq<Header>, ghost base: Header)
    ensures Collected(v, tip, r)
    ensures r.Ok? ==> MissingAbove(v, tip, missing, base) && r.value == HashesOf(missing)
  {
    var reverse, block := [], tip;
    missing := [];
    while !Anchor(v, block)
      invariant reverse == HashesOf(missing)
      invariant missing + WalkDown(v, block) == WalkDown(v, tip)
      decreases block.number
    {
      if block.number <= v.head.number {
        WalkEnds(v, tip, missing, block);
        return Err(NoAncestor), missing, block;
      }
      var parent := GetHeader(v.blocks, block.parent, block.number - 1);
      if parent.None? {
        WalkEnds(v, tip, missing, block);
        return Err(ParentUnavailable), missing, block;
      }
      WalkOneMore(v, missing, block, parent.value);
      HashesAppend(missing, block);
      reverse := reverse + [block.hash];
      missing := missing + [block];
      block := parent.value;
    }
    WalkEnds(v, tip, missing, block);
    WalkToAnchor(v, tip);
    return Ok(reverse), missing, block;
  }

  /** Load one batch, oldest block first, from `newest[start..end]`. */
  method LoadBatch(v: View, newest: seq<Hash>, start: nat, end: nat) returns (ok: bool, batch: seq<Hash>)
    requires start <= end <= |newest|
    ensures ok <==> forall i | start <= i < end :: BlockByHash(v, newest[i]).Some?
    ensures ok ==> batch == OldestFirst(newest)[|newest|-end..|newest|-start]
  {
    batch := [];
    var i := end;
    while i > start
      invariant start <= i <= end
      invariant forall j | i <= j < end :: BlockByHash(v, newest[j]).Some?
      invariant batch == OldestFirst(newest)[|newest|-end..|newest|-i]
    {
      i := i - 1;
      if BlockByHash(v, newest[i]).None? {
        return false, batch;
      }
      batch := batch + [newest[i]];
    }
    return true, batch;
  }

  /** One more batch extends the replayed prefix and keeps the shape. */
  lemma BatchAppended(batches: seq<seq<Hash>>, batch: seq<Hash>, newest: seq<Hash>, start: nat, end: nat)
    requires 0 < end <= |newest| && start == if end < BATCH_LIMIT then 0 else end - BATCH_LIMIT
    requires Concat(batches) == OldestFirst(newest)[..|newest|-end] && AllFull(batches)
    requires batch == OldestFirst(newest)[|newest|-end..|newest|-start]
    ensures Concat(batches + [batch]) == OldestFirst(newest)[..|newest|-start]
    ensures BatchesShaped(batches + [batch]) && (start > 0 ==> AllFull(batches + [batch]))
  {
    var more := batches + [batch];
    assert more[..|more|-1] == batches;
  }

  /** The missing blocks from the oldest one up to the last `end` have been replayed. */
  ghost predicate Replayed(batches: seq<seq<Hash>>, newest: seq<Hash>, end: nat) {
    && end <= |newest|
    && Concat(batches) == OldestFirst(newest)[..|newest|-end]
    && BatchesShaped(batches) && (end > 0 ==> AllFull(batches))
  }

  lemma ReplayedPrefix(batches: seq<seq<Hash>>, newest: seq<Hash>, end: nat)
    requires Replayed(batches, newest, end)
    ensures BatchesShaped(batches) && Concat(batches) <= OldestFirst(newest)
    ensures end == 0 ==> Concat(batches) == OldestFirst(newest)
  {
  }

  ghost predicate AllAccepted(outcomes: seq<Insertion>, n: nat) {
    n <= |outcomes| && forall k | 0 <= k < n :: outcomes[k].ok
  }

  /** The chain after the first `n` batches. */
  ghost function LastView(before: View, outcomes: seq<Insertion>, n: nat): (v: View)
    requires n <= |outcomes|
    ensures ViewFrom(v, before, outcomes)
  {
    if n == 0 then before else outcomes[n-1].view
  }

  /** The view is the one before, or one that block import left behind. */
  ghost predicate ViewFrom(v: View, before: View, outcomes: seq<Insertion>) {
    v == before || exists o :: o in outcomes && v == o.view
  }

  /** A target that is no longer stored but canonical below a consistent head with state. */
  predicate Superseded(v: View, target: Hash) {
    && target in v.numbers && v.head.number > v.numbers[target] && CanonicalAt(v, v.numbers[target], target)
    && CanonicalAt(v, v.head.number, v.head.hash) && v.headBlockHash == v.head.hash && v.head.root in v.states
  }

  /** The target is stored above the repaired head. */
  predicate MustReplay(v: View, target: Hash) {
    BlockByHash(v, target).Some? && BlockByHash(v, target).value.number > v.head.number
  }

  /** The target is canonical below the head, and the head is canonical, the stored head block, and has its state. */
  ghost predicate Retired(v: View, target: Hash) {
    && target in v.numbers && v.numbers[target] in v.canonical && v.canonical[v.numbers[target]] == target
    && v.numbers[target] + 1 <= v.head.number
    && v.head.number in v.canonical && v.canonical[v.head.number] == v.head.hash == v.headBlockHash && v.head.root in v.states
  }

  /** What a recovery answers where no block has to be replayed, and when it gives up before replaying. */
  ghost predicate Outcome(lqc: bool, v: View, target: Hash, stateReadable: bool, r: Result<bool>) {
    var tip := BlockByHash(v, target);
    if !lqc then r == Err(NotLQC)
    else if tip.None? then
      if !Retired(v, target) then r == Err(BlockUnavailable)
      else r == if stateReadable then Ok(true) else Err(StateUnavailable)
    else if v.head.number >= tip.value.number then
      r == if CanonicalAt(v, tip.value.number, target) && v.head.root in v.states then Ok(true) else Err(Conflict)
    else
      var w := WalkDown(v, tip.value);
      !Anchor(v, w[|w|-1]) ==> r == Err(if w[|w|-1].number <= v.head.number then NoAncestor else ParentUnavailable)
  }

  /** The hashes a recovery up to `tip` has to replay, newest first. */
  ghost function ToReplay(v: View, tip: Header): (hs: seq<Hash>) {
    var w := WalkDown(v, tip);
    HashesOf(w[..|w|-1])
  }

  /** The first `n` batches were accepted, and the chain is the one the last of them left. */
  ghost predicate ImportedAll(before: View, after: View, outcomes: seq<Insertion>, n: nat) {
    AllAccepted(outcomes, n) && after == LastView(before, outcomes, n)
  }

  /** Of `n` batches all but the last were accepted; the last one was refused. */
  ghost predicate LastRefused(before: View, after: View, outcomes: seq<Insertion>, n: nat) {
    && n > 0 && AllAccepted(outcomes, n - 1) && !AllAccepted(outcomes, n)
    && after == LastView(before, outcomes, if n <= |outcomes| then n else n - 1)
  }

  /** Why a replay did not succeed: no anchor to start from, a refused batch, a block that disappeared after the batches
      before it were imported, or a complete replay that does not end at the target with its state. */
  ghost predicate GaveUp(before: View, after: View, tip: Header, target: Hash, outcomes: seq<Insertion>, batches: seq<seq<Hash>>, e: Error) {
    var w := WalkDown(before, tip);
    match e
    case NoAncestor => !Anchor(before, w[|w|-1]) && batches == [] && after == before
    case ParentUnavailable => !Anchor(before, w[|w|-1]) && batches == [] && after == before
    case ValidationFailed => Anchor(before, w[|w|-1]) && LastRefused(before, after, outcomes, |batches|)
    case BlockDisappeared =>
      && Anchor(before, w[|w|-1]) && ImportedAll(before, after, outcomes, |batches|)
      && exists h :: h in ToReplay(before, tip) && BlockByHash(after, h).None?
    case NotRestored =>
      && Anchor(before, w[|w|-1]) && ImportedAll(before, after, outcomes, |batches|)
      && Concat(batches) == OldestFirst(ToReplay(before, tip))
      && (after.head.hash != target || tip.root !in after.states)
    case _ => false
  }

  /** A replay that succeeded: exactly the missing blocks were imported, oldest first, and the chain that the last
      import left ends at the target with its state. */
  ghost predicate Restored(before: View, after: View, tip: Header, target: Hash, outcomes: seq<Insertion>,
                           batches: seq<seq<Hash>>, missing: seq<Header>, base: Header) {
    && MissingAbove(before, tip, missing, base) && Concat(batches) == OldestFirst(HashesOf(missing))
    && ImportedAll(before, after, outcomes, |batches|)
    && after.head.hash == target && tip.root in after.states
  }

  class Recovery {
    const lqc: bool
    var disk: Disk

    method Prepare() returns (r: Result<Hash>)
      modifies this
      ensures (disk, r) == Prepared(old(disk))
      ensures old(disk).target.Some? || old(disk).metadata.Some? ==> disk == old(disk) && r == ReadMarker(old(disk))
      ensures old(disk).target.None? && old(disk).metadata.None? && Remembered(old(disk).view) ==>
                && disk.target == Some(EncodeTarget(disk.view.headBlockHash)) && disk.view == old(disk).view
                && r == Ok(disk.view.headBlockHash) == ReadMarker(disk)
      ensures old(disk).target.None? && old(disk).metadata.None? && !Remembered(old(disk).view) ==>
                disk == old(disk) && r == Ok(ZERO_HASH)
    {
      r := ReadMarker(disk);
      if r.Err? || r.value != ZERO_HASH {
        return r;
      }
      var target := disk.view.headBlockHash;
      if target == ZERO_HASH {
        return Ok(target);
      }
      if target !in disk.view.numbers || disk.view.numbers[target] == 0 {
        return Ok(ZERO_HASH);
      }
      disk := WithMarker(disk, target, disk.view.numbers[target]);
      return Ok(target);
    }

    method Clear()
      modifies this
      ensures disk == old(disk).(target := None, metadata := None)
    {
      disk := disk.(target := None, metadata := None);
    }

    /** Import the next batch, with the answer import gives. */
    method InsertChain(k: nat, outcomes: seq<Insertion>, ghost before: View) returns (ok: bool)
      requires ImportedAll(before, disk.view, outcomes, k)
      modifies this
      ensures disk.target == old(disk).target && disk.metadata == old(disk).metadata
      ensures ok ==> ImportedAll(before, disk.view, outcomes, k + 1)
      ensures !ok ==> LastRefused(before, disk.view, outcomes, k + 1)
    {
      if k >= |outcomes| {
        return false;
      }
      disk := disk.(view := outcomes[k].view);
      return outcomes[k].ok;
    }

    /** Why a replay of batches stopped: the last one was refused, or a block disappeared after all were accepted. */
    ghost predicate StoppedBy(error: Error, newest: seq<Hash>, before: View, outcomes: seq<Insertion>, n: nat)
      reads this
    {
      || (error == ValidationFailed && LastRefused(before, disk.view, outcomes, n))
      || (&& error == BlockDisappeared && ImportedAll(before, disk.view, outcomes, n)
          && exists h :: h in newest && BlockByHash(disk.view, h).None?)
    }

    /** Feed the next batch to block import. */
    method ReplayBatch(newest: seq<Hash>, end: nat, batches: seq<seq<Hash>>, outcomes: seq<Insertion>, ghost before: View)
      returns (error: Option<Error>, start: nat, more: seq<seq<Hash>>)
      requires 0 < end <= |newest| && Replayed(batches, newest, end)
      requires ImportedAll(before, disk.view, outcomes, |batches|)
      modifies this
      ensures disk.target == old(disk).target && disk.metadata == old(disk).metadata
      ensures start < end && exists m :: Replayed(more, newest, m)
      ensures error.None? ==> Replayed(more, newest, start) && ImportedAll(before, disk.view, outcomes, |more|)
      ensures error.Some? ==> StoppedBy(error.value, newest, before, outcomes, |more|)
    {
      start := if end < BATCH_LIMIT then 0 else end - BATCH_LIMIT;
      var ok, batch := LoadBatch(disk.view, newest, start, end);
      if !ok {
        return Some(BlockDisappeared), start, batches;
      }
      BatchAppended(batches, batch, newest, start, end);
      more := batches + [batch];
      assert Replayed(more, newest, start);
      var accepted := InsertChain(|batches|, outcomes, before);
      error := if accepted then None else Some(ValidationFailed);
    }

    /** Feed the missing blocks to block import in batches. `outcomes` are the answers of import, in order. */
    method Replay(newest: seq<Hash>, outcomes: seq<Insertion>) returns (error: Option<Error>, batches: seq<seq<Hash>>)
      modifies this
      ensures disk.target == old(disk).target && disk.metadata == old(disk).metadata
      ensures BatchesShaped(batches) && Concat(batches) <= OldestFirst(newest)
      ensures error.None? ==> Concat(batches) == OldestFirst(newest)
      ensures error.None? ==> ImportedAll(old(disk).view, disk.view, outcomes, |batches|)
      ensures error.Some? ==> StoppedBy(error.value, newest, old(disk).view, outcomes, |batches|)
    {
      batches, error := [], None;
      var end := |newest|;
      while end > 0
        invariant 0 <= end <= |newest|
        invariant disk.target == old(disk).target && disk.metadata == old(disk).metadata
        invariant Replayed(batches, newest, end)
        invariant ImportedAll(old(disk).view, disk.view, outcomes, |batches|)
      {
        error, end, batches := ReplayBatch(newest, end, batches, outcomes, old(disk).view);
        if error.Some? {
          ghost var m :| Replayed(batches, newest, m);
          ReplayedPrefix(batches, newest, m);
          return;
        }
      }
      ReplayedPrefix(batches, newest, 0);
      return None, batches;
    }

    /** Replay what is missing below the target and see whether that restored it. */
    method ReplayTo(tip: Header, target: Hash, outcomes: seq<Insertion>)
      returns (error: Option<Error>, batches: seq<seq<Hash>>, ghost missing: seq<Header>, ghost base: Header)
      modifies this
      ensures disk.target == old(disk).target && disk.metadata == old(disk).metadata
      ensures error.None? ==> Restored(old(disk).view, disk.view, tip, target, outcomes, batches, missing, base)
      ensures error.Some? ==> GaveUp(old(disk).view, disk.view, tip, target, outcomes, batches, error.value)
      ensures var w := WalkDown(old(disk).view, tip);
              !Anchor(old(disk).view, w[|w|-1]) ==>
                error == Some(if w[|w|-1].number <= old(disk).view.head.number then NoAncestor else ParentUnavailable)
      ensures batches != [] ==>
                && MissingAbove(old(disk).view, tip, missing, base)
                && BatchesShaped(batches) && Concat(batches) <= OldestFirst(HashesOf(missing))
    {
      var newest;
      batches := [];
      newest, missing, base := CollectMissing(disk.view, tip);
      if newest.Err? {
        return Some(newest.error), batches, missing, base;
      }
      error, batches := Replay(newest.value, outcomes);
      if error.Some? {
        return error, batches, missing, base;
      }
      if disk.view.head.hash != target || tip.root !in disk.view.states {
        return Some(NotRestored), batches, missing, base;
      }
    }

    /** What recovery answers when no block has to be replayed. */
    method ConcludeInPlace(target: Hash, stateReadable: bool) returns (r: Result<bool>)
      requires !lqc || !MustReplay(disk.view, target)
      requires Sane(disk.view, disk.view)
      modifies this
      ensures disk.view == old(disk).view && Outcome(lqc, disk.view, target, stateReadable, r)
      ensures r.Err? ==> disk == old(disk)
      ensures r.Ok? ==> lqc && disk.target == None && disk.metadata == None && SafeToClear(disk.view, target)
    {
      if !lqc {
        return Err(NotLQC);
      }
      var v := disk.view;
      var tip := BlockByHash(v, target);
      if tip.None? {
        if !Superseded(v, target) {
          return Err(BlockUnavailable);
        }
        if !stateReadable {
          return Err(StateUnavailable);
        }
        Clear();
        return Ok(true);
      }
      if !CanonicalAt(v, tip.value.number, target) || v.head.root !in v.states {
        return Err(Conflict);
      }
      Clear();
      return Ok(true);
    }

    /** Re-execute stored blocks up to the target, then forget it. The marker is dropped only once the
        target is safely canonical, and every error leaves it in place. */
    method Recover(target: Hash, stateReadable: bool, outcomes: seq<Insertion>)
      returns (r: Result<bool>, batches: seq<seq<Hash>>, ghost missing: seq<Header>, ghost base: Header)
      requires Sane(disk.view, disk.view) && forall o | o in outcomes :: Sane(disk.view, o.view)
      modifies this
      ensures target == ZERO_HASH ==> r.Ok? && unchanged(this) && batches == []
      ensures r.Err? ==> disk.target == old(disk).target && disk.metadata == old(disk).metadata
      ensures target != ZERO_HASH && r.Ok? ==>
                disk.target == None && disk.metadata == None && lqc && SafeToClear(disk.view, target)
      ensures ReadMarker(old(disk)) == Ok(target) ==> Event(old(disk), disk)
      ensures target != ZERO_HASH ==> Outcome(lqc, old(disk).view, target, stateReadable, r)
      ensures batches != [] ==>
                && BlockByHash(old(disk).view, target).Some?
                && MissingAbove(old(disk).view, BlockByHash(old(disk).view, target).value, missing, base)
                && BatchesShaped(batches)
                && Concat(batches) <= OldestFirst(HashesOf(missing))
      ensures target != ZERO_HASH && lqc && MustReplay(old(disk).view, target) ==>
                var tip := BlockByHash(old(disk).view, target).value;
                if r.Ok? then Restored(old(disk).view, disk.view, tip, target, outcomes, batches, missing, base) && batches != []
                else GaveUp(old(disk).view, disk.view, tip, target, outcomes, batches, r.error)
    {
      batches, missing, base := [], [], disk.view.head;
      if target == ZERO_HASH {
        return Ok(true), batches, missing, base;
      }
      var v := disk.view;
      if !lqc || !MustReplay(v, target) {
        r := ConcludeInPlace(target, stateReadable);
        return r, batches, missing, base;
      }
      var error;
      error, batches, missing, base := ReplayTo(BlockByHash(v, target).value, target, outcomes);
      if error.Some? {
        return Err(error.value), batches, missing, base;
      }
      assert Sane(v, disk.view);
      assert CanonicalAt(disk.view, disk.view.head.number, target);
      Clear();
      return Ok(true), batches, missing, base;
    }
  }

  /** One event in the life of the marker: startup, a recovery attempt, or anything else
      the node does to its chain (imports, rewinds, a crash), which leaves the marker alone. */
  ghost predicate Event(before: Disk, after: Disk) {
    || after == Prepared(before).0
    || (after.target == before.target && after.metadata == before.metadata)
    || (after.target == None && after.metadata == None && ReadMarker(before).Ok? && SafeToClear(after.view, ReadMarker(before).value))
  }

  /** `after` forgets the target of `before`, which is then safe. */
  ghost predicate Forgets(before: Disk, after: Disk, target: Hash) {
    ReadMarker(before) == Ok(target) && after.target == None && SafeToClear(after.view, target)
  }

  lemma KeptOrForgotten(before: Disk, after: Disk, target: Hash)
    requires Event(before, after) && target != ZERO_HASH && before.target == Some(EncodeTarget(target))
    ensures after.target == Some(EncodeTarget(target)) || Forgets(before, after, target)
  {
    HashSpace();
    DecodeEncode(target, HASH_LENGTH);
  }

  /** Over every run, a pending target is still pending unless some step forgot it safely. */
  lemma {:induction false} TargetNeverReplaced(run: seq<Disk>, target: Hash)
    requires |run| > 0 && target != ZERO_HASH
    requires forall i, j | 0 <= i < j < |run| && j == i + 1 :: Event(run[i], run[j])
    requires run[0].target == Some(EncodeTarget(target))
    ensures run[|run|-1].target == Some(EncodeTarget(target))
         || exists i :: 0 <= i < |run| - 1 && Forgets(run[i], run[i+1], target)
  {
    if |run| > 1 {
      var rest := run[..|run|-1];
      TargetNeverReplaced(rest, target);
      if rest[|rest|-1].target == Some(EncodeTarget(target)) {
        var n := |run| - 2;
        assert Event(run[n], run[n+1]);
        KeptOrForgotten(run[n], run[n+1], target);
      } else {
        var i :| 0 <= i < |rest| - 1 && Forgets(rest[i], rest[i+1], target);
        assert Forgets(run[i], run[i+1], target);
      }
    }
  }
}
