/** The header chain: the canonical number-to-hash index kept from headers alone, its
    batched reorg, and the rewind that deletes everything above a new head. */
module HeaderChains {
  import opened Basics
  import opened Chain
  import opened Ancestry

  datatype InsertResult = UnknownAncestor | Aborted | MissingParent | AlreadyCanonical | Switched

  /** Consecutive headers, each the parent of the next. */
  ghost predicate Contiguous(hs: seq<Header>) {
    && (forall i | 0 <= i < |hs| :: hs[i].number == hs[0].number + i)
    && (forall i, j | 0 <= i < j < |hs| && j == i + 1 :: hs[j].parent == hs[i].hash)
  }

  ghost predicate AllStored(store: Store, hs: seq<Header>) {
    forall i | 0 <= i < |hs| :: Stored(store, hs[i])
  }

  /** Every write names the hash `path` has at that number. */
  ghost predicate WritesAlong(puts: map<nat, Hash>, path: seq<Header>) {
    forall n: nat | n in puts :: n < |path| && puts[n] == path[n].hash
  }

  /** Every number after `low` and before `high` is written. */
  ghost predicate Covers(puts: map<nat, Hash>, low: int, high: nat) {
    forall n: nat | low < n < high :: n in puts
  }

  /** A contiguous run of stored headers is the end of the path of its last one. */
  lemma {:induction false} RunOnPath(store: Store, genesis: Header, hs: seq<Header>)
    requires Closed(store, genesis) && Contiguous(hs) && hs != [] && AllStored(store, hs)
    ensures var pl := Path(store, genesis, hs[|hs|-1]);
            && |pl| == hs[0].number + |hs|
            && hs == pl[hs[0].number..]
            && Path(store, genesis, hs[0]) == pl[..hs[0].number+1]
    decreases |hs|
  {
    var f, last := hs[0].number, hs[|hs|-1];
    var pl := Path(store, genesis, last);
    if |hs| == 1 {
      assert pl[..f+1] == pl;
      assert pl[f..] == hs;
    } else {
      var rest := hs[..|hs|-1];
      RunOnPath(store, genesis, rest);
      RunExtends(store, genesis, rest, last);
      assert hs == rest + [last];
    }
  }

  /** One more header at the end of a run. */
  lemma RunExtends(store: Store, genesis: Header, rest: seq<Header>, last: Header)
    requires Closed(store, genesis) && rest != [] && Stored(store, last) && Stored(store, rest[|rest|-1]) && Stored(store, rest[0])
    requires last.parent == rest[|rest|-1].hash && last.number == rest[|rest|-1].number + 1
    requires var pr, f := Path(store, genesis, rest[|rest|-1]), rest[0].number;
             |pr| == f + |rest| && rest == pr[f..] && Path(store, genesis, rest[0]) == pr[..f+1]
    ensures var pl, f := Path(store, genesis, last), rest[0].number;
            |pl| == f + |rest| + 1 && rest + [last] == pl[f..] && Path(store, genesis, rest[0]) == pl[..f+1]
  {
    var pr := Path(store, genesis, rest[|rest|-1]);
    ChildOfCurrent(store, genesis, rest[|rest|-1], last);
    SliceOfAppend(pr, last, rest[0].number);
  }

  lemma SliceOfAppend(path: seq<Header>, h: Header, n: nat)
    requires n < |path|
    ensures (path + [h])[n..] == path[n..] + [h]
    ensures (path + [h])[..n+1] == path[..n+1]
  {
  }

  lemma ChildOfCurrent(store: Store, genesis: Header, current: Header, child: Header)
    requires Closed(store, genesis) && Stored(store, current) && Stored(store, child) && child.parent == current.hash
    ensures child.number == current.number + 1
    ensures Path(store, genesis, child) == Path(store, genesis, current) + [child]
  {
    assert WellLinked(store, genesis, child.hash);
    assert WellLinked(store, genesis, current.hash);
    assert ParentOf(store, genesis, child) == current;
  }

  ghost predicate AgreeUpTo(a: seq<Header>, b: seq<Header>, n: nat) {
    n < |a| && n < |b| && forall i | 0 <= i <= n :: a[i] == b[i]
  }

  /** Deleting above the new head and writing its branch turns one exact index into the other. */
  lemma SwitchedIndex(pc: seq<Header>, pl: seq<Header>, cross: nat, puts: map<nat, Hash>, end: nat)
    requires AgreeUpTo(pc, pl, cross)
    requires WritesAlong(puts, pl) && Covers(puts, cross, |pl|)
    requires |pl| <= end && end !in IndexAlong(pc)
    ensures Trim(IndexAlong(pc), |pl| - 1, end) + puts == IndexAlong(pl)
  {
  }

  lemma SwitchSound(store: Store, genesis: Header, current: Header, last: Header, cross: nat, puts: map<nat, Hash>, end: nat)
    requires Closed(store, genesis) && Stored(store, current) && Stored(store, last)
    requires cross <= last.number && cross <= current.number
    requires Path(store, genesis, current)[cross].hash == Path(store, genesis, last)[cross].hash
    requires WritesAlong(puts, Path(store, genesis, last)) && Covers(puts, cross, last.number + 1)
    requires last.number < end && end !in IndexOf(store, genesis, current)
    ensures Trim(IndexOf(store, genesis, current), last.number, end) + puts == IndexOf(store, genesis, last)
  {
    var pc, pl := Path(store, genesis, current), Path(store, genesis, last);
    assert AgreeUpTo(pc, pl, cross) by { PathsMeetAtHash(store, genesis, current, last, cross); }
    assert |pl| == last.number + 1;
    assert Trim(IndexAlong(pc), |pl| - 1, end) + puts == IndexAlong(pl) by { SwitchedIndex(pc, pl, cross, puts, end); }
  }

  /** Paths that have the same hash at a number agree up to it. */
  lemma PathsMeetAtHash(store: Store, genesis: Header, a: Header, b: Header, n: nat)
    requires Closed(store, genesis) && Stored(store, a) && Stored(store, b) && n <= a.number && n <= b.number
    requires Path(store, genesis, a)[n].hash == Path(store, genesis, b)[n].hash
    ensures AgreeUpTo(Path(store, genesis, a), Path(store, genesis, b), n)
  {
    var pa, pb := Path(store, genesis, a), Path(store, genesis, b);
    assert Stored(store, pa[n]) && Stored(store, pb[n]);
    PathsMeet(store, genesis, a, b, n);
  }

  /** Headers on top of the current one need no deletion. */
  lemma ExtendedIndex(pc: seq<Header>, pl: seq<Header>, puts: map<nat, Hash>)
    requires |pc| <= |pl| && pc == pl[..|pc|]
    requires WritesAlong(puts, pl) && Covers(puts, |pc| - 1, |pl|)
    ensures IndexAlong(pc) + puts == IndexAlong(pl)
  {
  }

  lemma ExtendSound(store: Store, genesis: Header, current: Header, last: Header, puts: map<nat, Hash>)
    requires Closed(store, genesis) && Stored(store, current) && Stored(store, last)
    requires current.number < last.number && Path(store, genesis, last)[current.number] == current
    requires WritesAlong(puts, Path(store, genesis, last)) && Covers(puts, current.number, last.number + 1)
    ensures IndexOf(store, genesis, current) + puts == IndexOf(store, genesis, last)
  {
    PathOfAncestor(store, genesis, last, current.number);
    ExtendedIndex(Path(store, genesis, current), Path(store, genesis, last), puts);
  }

  /** No header of `hs` shares its hash with a different header. */
  ghost predicate Collisionless(store: Store, hs: seq<Header>) {
    && (forall i | 0 <= i < |hs| :: hs[i].hash != ZERO_HASH && (hs[i].hash in store ==> store[hs[i].hash] == hs[i]))
    && (forall i, j | 0 <= i < j < |hs| :: hs[i].hash != hs[j].hash)
  }

  /** A contiguous run on a known parent arrives parents first, so storing it keeps the store closed. */
  lemma {:induction false} RunArrives(store: Store, genesis: Header, hs: seq<Header>)
    requires Closed(store, genesis) && Contiguous(hs) && Collisionless(store, hs)
    requires hs != [] ==> GetHeader(store, hs[0].parent, hs[0].number - 1).Some?
    ensures ParentsFirst(store, hs) && Closed(StoreAll(store, hs), genesis) && AllStored(StoreAll(store, hs), hs)
    ensures forall k | k in store :: k in StoreAll(store, hs) && StoreAll(store, hs)[k] == store[k]
    decreases |hs|
  {
    if hs != [] {
      var rest, last := hs[..|hs|-1], hs[|hs|-1];
      RunArrives(store, genesis, rest);
      StoreContents(store, genesis, rest);
      var after := StoreAll(store, rest);
      if rest != [] {
        assert last.parent == rest[|rest|-1].hash && Stored(after, rest[|rest|-1]);
      }
      assert forall h | h in rest :: h.hash != last.hash;
      assert last.hash in after ==> WellLinked(after, genesis, last.hash);
    }
    StoreContents(store, genesis, hs);
    assert forall i | 0 <= i < |hs| :: hs[i] in hs;
  }

  /** What the rewind callback answers: the block it put the head at, and whether to go on to it. */
  datatype Update = Update(head: Header, force: bool)

  predicate Done(h: Header, target: nat, targetTime: nat) {
    if targetTime > 0 then h.time <= targetTime else h.number <= target
  }

  predicate Forces(update: Option<Header -> Update>, h: Header) {
    update.Some? && update.value(h).force
  }

  function Floor(update: Option<Header -> Update>, h: Header): (n: nat)
    requires update.Some?
  {
    update.value(h).head.number
  }

  /** `t` is the lowest of the requested number and the numbers forced while visiting `path[low..high]`. */
  ghost predicate LowestTarget(t: nat, number: nat, path: seq<Header>, low: nat, high: nat, update: Option<Header -> Update>)
    requires high <= |path|
  {
    && t <= number
    && (forall n | low <= n < high && Forces(update, path[n]) :: t <= Floor(update, path[n]))
    && (t == number || exists n :: low <= n < high && Forces(update, path[n]) && t == Floor(update, path[n]))
  }

  /** No block above `low` was a place to stop: when the walk stood there, some number asked for was lower. */
  ghost predicate Passed(number: nat, path: seq<Header>, low: nat, high: nat, update: Option<Header -> Update>)
    requires high <= |path|
  {
    forall n | low < n <= high :: AskedBelow(n, number, path, high, update)
  }

  /** By the time the walk stands at block `n`, a number below it was asked for. */
  ghost predicate AskedBelow(n: nat, number: nat, path: seq<Header>, high: nat, update: Option<Header -> Update>)
    requires high <= |path|
  {
    number < n || exists k :: n <= k < high && Forces(update, path[k]) && Floor(update, path[k]) < n
  }

  /** The first number at which no number asked for so far is lower, and the lowest of those numbers. */
  ghost predicate StopsAt(t: nat, number: nat, path: seq<Header>, high: nat, update: Option<Header -> Update>)
    requires high <= |path|
  {
    if number >= high then t == high
    else t < high && LowestTarget(t, number, path, t, high, update) && Passed(number, path, t, high, update)
  }

  ghost predicate TargetSoFar(t: nat, number: nat, path: seq<Header>, low: nat, high: nat, update: Option<Header -> Update>)
    requires high <= |path|
  {
    && LowestTarget(t, number, path, low, high, update) && (low < high ==> t <= low)
    && low <= high && Passed(number, path, low, high, update)
  }

  ghost predicate LaterThan(path: seq<Header>, n: nat, time: nat) {
    forall i | n < i < |path| :: path[i].time > time
  }

  /** `h` is the highest block of `path` that is not later than `time`. */
  ghost predicate HighestByTime(h: Header, path: seq<Header>, time: nat) {
    h.time <= time && LaterThan(path, h.number, time)
  }

  /** The callback's answer for `h` ends timestamp mode. */
  ghost predicate EndsTimed(update: Option<Header -> Update>, h: Header, time: nat) {
    Forces(update, h) && update.value(h).head.time < time
  }

  ghost predicate NeverEnds(update: Option<Header -> Update>, path: seq<Header>, low: nat, high: nat, time: nat)
    requires high <= |path|
  {
    forall n | low <= n < high :: !EndsTimed(update, path[n], time)
  }

  /** `m` is the highest visited block whose answer ends timestamp mode; everything above it is too late. */
  ghost predicate SwitchesAt(update: Option<Header -> Update>, path: seq<Header>, m: nat, high: nat, time: nat)
    requires m < high <= |path|
  {
    EndsTimed(update, path[m], time) && NeverEnds(update, path, m + 1, high, time) && LaterThan(path, m, time)
  }

  /** From block `m` the walk goes on to the number forced there, or to a lower one forced later on. */
  ghost predicate LowestFrom(head: Header, path: seq<Header>, m: nat, update: Option<Header -> Update>)
    requires m < |path| && update.Some?
  {
    StopsAt(head.number, Floor(update, path[m]), path, m, update)
  }

  /** Where a rewind to a timestamp ends: at the highest block that is not later, or, once an answer ended
      timestamp mode, at the lowest number forced from there on. */
  ghost predicate TimedTarget(head: Header, path: seq<Header>, high: nat, time: nat, update: Option<Header -> Update>)
    requires high <= |path|
  {
    || (HighestByTime(head, path, time) && NeverEnds(update, path, head.number, high, time))
    || exists m: nat :: head.number <= m < high && SwitchesAt(update, path, m, high, time) && LowestFrom(head, path, m, update)
  }

  ghost predicate Occupied(store: Store, n: nat) {
    exists k :: k in store && store[k].number == n
  }

  /** The stored headers with numbers up to `n`. */
  function UpTo(store: Store, n: nat): (r: Store) {
    map k | k in store && store[k].number <= n :: store[k]
  }

  /** The stored headers at numbers that are not deleted. */
  function Without(store: Store, dead: set<nat>): (r: Store) {
    map k | k in store && store[k].number !in dead :: store[k]
  }

  function Range(low: nat, high: nat): (r: set<nat>)
    ensures forall n :: n in r <==> low <= n < high
    decreases high - low
  {
    if low >= high then {} else {low} + Range(low + 1, high)
  }

  /** On a closed store a number without headers has nothing stored above it. */
  lemma NothingAbove(store: Store, genesis: Header, top: nat)
    requires Closed(store, genesis) && !Occupied(store, top)
    ensures forall k | k in store :: store[k].number < top
  {
    forall k | k in store ensures store[k].number < top {
      assert WellLinked(store, genesis, k);
      var p := Path(store, genesis, store[k]);
      assert store[k].number >= top ==> Stored(store, p[top]);
    }
  }

  /** The deleted numbers: everything above `head`, up to a number at which nothing is stored. */
  ghost predicate DeadAbove(store: Store, start: Header, head: Header, dead: set<nat>) {
    exists top: nat :: top > start.number && !Occupied(store, top) && dead == Range(head.number + 1, top)
  }

  /** How far the deletions have come: nothing before the first step, then everything above `head`. */
  ghost predicate Deleting(store: Store, start: Header, head: Header, dead: set<nat>, origin: bool) {
    if origin then head == start && dead == {} else head.number < start.number && DeadAbove(store, start, head, dead)
  }

  /** The numbers deleted once the head steps down to its parent; the first step also wipes what is left above. */
  method DeleteHeight(store: Store, ghost start: Header, head: Header, ghost parent: Header, dead: set<nat>, origin: bool)
    returns (more: set<nat>)
    requires Deleting(store, start, head, dead, origin) && parent.number + 1 == head.number
    ensures Deleting(store, start, parent, more, false)
  {
    more := dead;
    if origin {
      var top := OccupiedEnd(store, head.number + 1);
      more := Range(head.number + 1, top);
    }
    ghost var top: nat :| top > start.number && !Occupied(store, top) && more == Range(head.number + 1, top);
    more := more + {head.number};
    assert more == Range(parent.number + 1, top);
  }

  /** Deleting all headers above an ancestor of the head leaves a closed store with an exact index. */
  lemma RewoundStore(store: Store, genesis: Header, start: Header, head: Header, dead: set<nat>)
    requires Closed(store, genesis) && Stored(store, start) && At(Path(store, genesis, start), head)
    requires DeadAbove(store, start, head, dead)
    ensures var rest := UpTo(store, head.number);
            && rest == Without(store, dead)
            && Closed(rest, genesis) && Stored(rest, head)
            && IndexOf(store, genesis, start) - dead == IndexOf(rest, genesis, head)
  {
    var top: nat :| top > start.number && !Occupied(store, top) && dead == Range(head.number + 1, top);
    assert UpTo(store, head.number) == Without(store, dead) by {
      NothingAbove(store, genesis, top);
      RestAfterDeletion(store, head.number, top);
    }
    var path := Path(store, genesis, start);
    assert IndexAlong(path) - dead == IndexAlong(path[..head.number + 1]) by { CutIndex(path, head.number, dead, top); }
    RewoundHead(store, genesis, start, head);
  }

  lemma RestAfterDeletion(store: Store, n: nat, top: nat)
    requires forall k | k in store :: store[k].number < top
    ensures UpTo(store, n) == Without(store, Range(n + 1, top))
  {
  }

  /** What is stored up to an ancestor is closed, and the ancestor's path there is the lower part of the head's. */
  lemma RewoundHead(store: Store, genesis: Header, start: Header, head: Header)
    requires Closed(store, genesis) && Stored(store, start) && At(Path(store, genesis, start), head)
    ensures var rest := UpTo(store, head.number);
            && Closed(rest, genesis) && Stored(rest, head)
            && IndexOf(rest, genesis, head) == IndexAlong(Path(store, genesis, start)[..head.number + 1])
  {
    var rest, p := UpTo(store, head.number), Path(store, genesis, start);
    assert Stored(store, p[0]) && Stored(store, p[head.number]);
    UpToClosed(store, genesis, head.number);
    PathStable(rest, store, genesis, head);
    PathOfAncestor(store, genesis, start, head.number);
  }

  lemma NothingDeleted(store: Store, index: map<nat, Hash>)
    ensures Without(store, {}) == store && index - {} == index
  {
  }

  lemma UpToClosed(store: Store, genesis: Header, n: nat)
    requires Closed(store, genesis)
    ensures Closed(UpTo(store, n), genesis)
  {
    var rest := UpTo(store, n);
    forall k | k in rest ensures WellLinked(rest, genesis, k) {
      assert WellLinked(store, genesis, k);
    }
  }

  lemma CutIndex(path: seq<Header>, n: nat, dead: set<nat>, top: nat)
    requires n < |path| <= top && dead == Range(n + 1, top)
    ensures IndexAlong(path) - dead == IndexAlong(path[..n+1])
  {
  }

  /** How one callback answer changes the target; a forced answer ends timestamp mode. */
  function NextTarget(update: Option<Header -> Update>, parent: Header, target: nat, targetTime: nat): (r: (nat, nat)) {
    if update.None? then (target, targetTime)
    else
      var u := update.value(parent);
      if u.force && ((targetTime > 0 && u.head.time < targetTime) || (targetTime == 0 && u.head.number < target))
      then (u.head.number, 0) else (target, targetTime)
  }

  lemma TargetStep(target: nat, number: nat, path: seq<Header>, n: nat, high: nat, update: Option<Header -> Update>)
    requires 0 < n <= high <= |path| && target < n
    requires TargetSoFar(target, number, path, n, high, update)
    ensures TargetSoFar(NextTarget(update, path[n-1], target, 0).0, number, path, n - 1, high, update)
  {
    var t := NextTarget(update, path[n-1], target, 0).0;
    if target != number {
      var m :| n <= m < high && Forces(update, path[m]) && target == Floor(update, path[m]);
    }
    assert AskedBelow(n, number, path, high, update);
  }

  /** The walk stops where no number asked for so far is lower. */
  lemma TargetReached(target: nat, number: nat, path: seq<Header>, low: nat, high: nat, update: Option<Header -> Update>)
    requires low <= high <= |path| && low <= target && TargetSoFar(target, number, path, low, high, update)
    ensures StopsAt(low, number, path, high, update)
  {
    if low < high { assert AskedBelow(high, number, path, high, update); }
  }

  /** A rewind to a timestamp, down to block `n`: still in timestamp mode, or sent on to a number at block `m`. */
  ghost predicate TimedSoFar(
      update: Option<Header -> Update>, path: seq<Header>, n: nat, high: nat, time: nat, target: nat, targetTime: nat, m: nat)
    requires high <= |path|
  {
    if targetTime > 0 then targetTime == time && LaterThan(path, n, time) && NeverEnds(update, path, n, high, time)
    else
      && n <= m < high && SwitchesAt(update, path, m, high, time)
      && TargetSoFar(target, Floor(update, path[m]), path, n, m, update)
  }

  lemma TimedStep(
      update: Option<Header -> Update>, path: seq<Header>, n: nat, high: nat, time: nat, target: nat, targetTime: nat, m: nat)
    requires 0 < n <= high < |path| && path[n].number == n
    requires TimedSoFar(update, path, n, high, time, target, targetTime, m) && !Done(path[n], target, targetTime)
    ensures var next := NextTarget(update, path[n-1], target, targetTime);
            TimedSoFar(update, path, n - 1, high, time, next.0, next.1, if targetTime > 0 then n - 1 else m)
  {
    if targetTime == 0 { TargetStep(target, Floor(update, path[m]), path, n, m, update); }
  }

  lemma TimedEnd(
      update: Option<Header -> Update>, path: seq<Header>, head: Header, high: nat, time: nat, target: nat, targetTime: nat, m: nat)
    requires high < |path| && At(path, head) && Done(head, target, targetTime)
    requires TimedSoFar(update, path, head.number, high, time, target, targetTime, m)
    ensures TimedTarget(head, path, high, time, update)
  {
    if targetTime == 0 {
      TargetReached(target, Floor(update, path[m]), path, head.number, m, update);
      assert SwitchesAt(update, path, m, high, time) && LowestFrom(head, path, m, update);
    }
  }

  /** A rewind to a number or a timestamp, down to block `n`. */
  ghost predicate RewindSoFar(
      update: Option<Header -> Update>, path: seq<Header>, n: nat, high: nat, number: nat, time: nat, target: nat, targetTime: nat, m: nat)
    requires high <= |path|
  {
    if time == 0 then targetTime == 0 && TargetSoFar(target, number, path, n, high, update)
    else TimedSoFar(update, path, n, high, time, target, targetTime, m)
  }

  /** Where a rewind ends: at the lowest number ever asked for, or as a timestamp has it. */
  ghost predicate RewindTarget(head: Header, path: seq<Header>, high: nat, number: nat, time: nat, update: Option<Header -> Update>)
    requires high <= |path|
  {
    if time == 0 then StopsAt(head.number, number, path, high, update)
    else TimedTarget(head, path, high, time, update)
  }

  lemma RewindStep(
      update: Option<Header -> Update>, path: seq<Header>, n: nat, high: nat, number: nat, time: nat, target: nat, targetTime: nat, m: nat)
    requires 0 < n <= high < |path| && path[n].number == n && !Done(path[n], target, targetTime)
    requires RewindSoFar(update, path, n, high, number, time, target, targetTime, m)
    ensures var next := NextTarget(update, path[n-1], target, targetTime);
            RewindSoFar(update, path, n - 1, high, number, time, next.0, next.1, if targetTime > 0 then n - 1 else m)
  {
    if time == 0 {
      TargetStep(target, number, path, n, high, update);
    } else {
      TimedStep(update, path, n, high, time, target, targetTime, m);
    }
  }

  lemma RewindEnd(
      update: Option<Header -> Update>, path: seq<Header>, head: Header, high: nat, number: nat, time: nat, target: nat, targetTime: nat, m: nat)
    requires head.number <= high < |path| && At(path, head) && Done(head, target, targetTime)
    requires RewindSoFar(update, path, head.number, high, number, time, target, targetTime, m)
    ensures RewindTarget(head, path, high, number, time, update)
  {
    if time > 0 {
      TimedEnd(update, path, head, high, time, target, targetTime, m);
    } else {
      TargetReached(target, number, path, head.number, high, update);
    }
  }

  lemma StopsOnce(a: nat, b: nat, number: nat, path: seq<Header>, high: nat, update: Option<Header -> Update>)
    requires high <= |path| && StopsAt(a, number, path, high, update) && StopsAt(b, number, path, high, update)
    ensures a == b
  {
    NotAskedBelow(a, number, path, high, update);
    NotAskedBelow(b, number, path, high, update);
  }

  lemma NotAskedBelow(t: nat, number: nat, path: seq<Header>, high: nat, update: Option<Header -> Update>)
    requires high <= |path| && StopsAt(t, number, path, high, update)
    ensures t <= high && !AskedBelow(t, number, path, high, update)
  {
  }

  lemma TimedOnce(a: Header, b: Header, path: seq<Header>, high: nat, time: nat, update: Option<Header -> Update>)
    requires |path| == high + 1 && At(path, a) && At(path, b)
    requires TimedTarget(a, path, high, time, update) && TimedTarget(b, path, high, time, update)
    ensures a.number == b.number
  {
    if m: nat :| a.number <= m < high && SwitchesAt(update, path, m, high, time) && LowestFrom(a, path, m, update) {
      if n: nat :| b.number <= n < high && SwitchesAt(update, path, n, high, time) && LowestFrom(b, path, n, update) {
        assert EndsTimed(update, path[m], time) && EndsTimed(update, path[n], time);
        StopsOnce(a.number, b.number, Floor(update, path[m]), path, m, update);
      }
    }
  }

  /** A rewind has exactly one place to end. */
  lemma RewindIsUnique(a: Header, b: Header, path: seq<Header>, high: nat, number: nat, time: nat, update: Option<Header -> Update>)
    requires |path| == high + 1 && At(path, a) && At(path, b)
    requires RewindTarget(a, path, high, number, time, update) && RewindTarget(b, path, high, number, time, update)
    ensures a == b
  {
    if time == 0 {
      StopsOnce(a.number, b.number, number, path, high, update);
    } else {
      TimedOnce(a, b, path, high, time, update);
    }
  }

  /** The end of the run of numbers from `from` on at which some header is stored. */
  method OccupiedEnd(store: Store, from: nat) returns (end: nat)
    ensures from <= end && !Occupied(store, end)
    ensures forall n: nat | from <= n < end :: Occupied(store, n)
  {
    var numbers := set k | k in store :: store[k].number;
    end := from;
    while end in numbers
      invariant from <= end
      invariant forall n: nat | from <= n < end :: Occupied(store, n)
      decreases Bound(numbers) - end
    {
      var k :| k in store && store[k].number == end;
      end := end + 1;
    }
    assert forall k | k in store :: store[k].number in numbers;
  }

  /** The database read of the canonical index: a missing number reads as the empty hash. */
  function ReadCanonical(canonical: map<nat, Hash>, number: nat): (h: Hash) {
    if number in canonical then canonical[number] else ZERO_HASH
  }

  predicate IsCanonical(canonical: map<nat, Hash>, hash: Hash, number: nat) {
    ReadCanonical(canonical, number) == hash
  }

  /** The walk back from `h` to the canonical chain comes to a block whose parent is missing. */
  ghost predicate LosesWay(store: Store, canonical: map<nat, Hash>, h: Header)
    decreases h.number
  {
    var parent := GetHeader(store, h.parent, h.number - 1);
    && !IsCanonical(canonical, h.hash, h.number) && h.number > 0
    && (parent.None? || LosesWay(store, canonical, parent.value))
  }

  /** How many blocks of `path`, counting down from number `n`, are off the canonical chain. */
  ghost function OffCanonical(canonical: map<nat, Hash>, path: seq<Header>, n: nat): (d: nat)
    requires n < |path|
    ensures d <= n + 1
  {
    if IsCanonical(canonical, path[n].hash, n) then 0
    else if n == 0 then 1
    else 1 + OffCanonical(canonical, path, n - 1)
  }

  ghost predicate RealHashes(path: seq<Header>) {
    forall i | 0 <= i < |path| :: path[i].hash != ZERO_HASH
  }

  /** `path` leads to the block with this hash and number through stored headers. */
  ghost predicate PathTo(store: Store, path: seq<Header>, hash: Hash, number: nat) {
    |path| == number + 1 && IsPath(store, path, path[number]) && path[number].hash == hash && RealHashes(path)
  }

  lemma PathIsReal(store: Store, genesis: Header, h: Header)
    requires Closed(store, genesis) && Stored(store, h)
    ensures IsPath(store, Path(store, genesis, h), h) && RealHashes(Path(store, genesis, h))
  {
    var p := Path(store, genesis, h);
    forall n | 0 <= n < |p| ensures p[n].hash != ZERO_HASH {
      assert Stored(store, p[n]);
      assert WellLinked(store, genesis, p[n].hash);
    }
  }

  /** The queries the shortcut answers like the plain walk. The empty hash matches any number that is missing from
      the index, so a query for it above the head must not reach back to the index by more than one step. */
  predicate Answerable(hash: Hash, number: nat, ancestor: nat, headNumber: nat) {
    hash != ZERO_HASH || number <= headNumber || ancestor <= 1 || ancestor > number || number - ancestor > headNumber
  }

  lemma HashIsReal(store: Store, genesis: Header, k: Hash)
    requires Closed(store, genesis) && k in store
    ensures k != ZERO_HASH && Stored(store, store[k]) && store[k].hash == k
  {
    assert WellLinked(store, genesis, k);
  }

  /** The empty hash names no stored header, so a plain walk from it goes nowhere. */
  lemma EmptyHashGoesNowhere(store: Store, genesis: Header, number: int, k: nat)
    requires Closed(store, genesis) && k > 0
    ensures GetHeader(store, ZERO_HASH, number) == None && AncestorHash(store, ZERO_HASH, number, k) == None
  {
    if ZERO_HASH in store {
      HashIsReal(store, genesis, ZERO_HASH);
      assert false;
    }
  }

  /** The parent of a stored header above genesis has a hash of its own. */
  lemma ParentIsReal(store: Store, genesis: Header, hash: Hash, number: nat)
    requires Closed(store, genesis) && number > 0 && GetHeader(store, hash, number).Some?
    ensures GetHeader(store, hash, number).value.parent != ZERO_HASH
  {
    assert WellLinked(store, genesis, hash);
    HashIsReal(store, genesis, store[hash].parent);
  }

  /** How many headers an ancestor query reads one by one, if its budget allows. */
  ghost function Reads(store: Store, genesis: Header, canonical: map<nat, Hash>, hash: Hash, number: nat, ancestor: nat): (n: nat)
    requires Closed(store, genesis)
  {
    if ancestor <= 1 || ancestor > number then 0
    else if GetHeader(store, hash, number).Some? then
      HashIsReal(store, genesis, hash);
      Min(ancestor, OffCanonical(canonical, Path(store, genesis, store[hash]), number))
    else if IsCanonical(canonical, hash, number) then 0
    else 1
  }

  class HeaderChain {
    const genesis: Header

    var headers: Store
    var canonical: map<nat, Hash>
    var headHeaderHash: Hash
    var currentHeader: Header
    var currentHeaderHash: Hash

    /** A chain that holds its genesis block only. */
    constructor (genesis: Header)
      requires genesis.number == 0 && genesis.hash != ZERO_HASH && genesis.parent == ZERO_HASH
      ensures this.genesis == genesis && Valid() && headers == map[genesis.hash := genesis] && currentHeader == genesis
    {
      this.genesis, currentHeader := genesis, genesis;
      headers, canonical := map[genesis.hash := genesis], map[0 := genesis.hash];
      headHeaderHash, currentHeaderHash := genesis.hash, genesis.hash;
    }

    ghost predicate Valid()
      reads this
    {
      && Closed(headers, genesis)
      && Stored(headers, currentHeader)
      && canonical == IndexOf(headers, genesis, currentHeader)
      && headHeaderHash == currentHeaderHash == currentHeader.hash
    }

    /** Going back from `first`, collect index writes until a block that is already canonical. */
    method CrossLink(first: Header, ghost path: seq<Header>) returns (ok: bool, puts: map<nat, Hash>, cross: nat)
      ensures IsPath(headers, path, first) && RealHashes(path) && IsCanonical(canonical, path[0].hash, 0) ==>
                && ok && cross <= first.number
                && cross in canonical && canonical[cross] == path[cross].hash
                && WritesAlong(puts, path) && Covers(puts, cross, |path|)
      ensures ok <==> !LosesWay(headers, canonical, first)
    {
      ghost var good := IsPath(headers, path, first) && RealHashes(path) && IsCanonical(canonical, path[0].hash, 0);
      puts := map[];
      var header := first;
      while !IsCanonical(canonical, header.hash, header.number)
        invariant good ==> At(path, header) && WritesAlong(puts, path) && Covers(puts, header.number, |path|)
        invariant LosesWay(headers, canonical, header) <==> LosesWay(headers, canonical, first)
        decreases header.number
      {
        puts := puts[header.number := header.hash];
        if header.number == 0 {
          break;
        }
        if good { StepBack(headers, path, first, header); }
        var parent := GetHeader(headers, header.parent, header.number - 1);
        if parent.None? {
          return false, map[], 0;
        }
        header := parent.value;
      }
      return true, puts, header.number;
    }

    /** The index writes for the new headers themselves, taking each hash from its child where there is one. */
    method CollectWrites(hs: seq<Header>, before: map<nat, Hash>, ghost path: seq<Header>) returns (puts: map<nat, Hash>)
      requires hs != [] && Contiguous(hs)
      ensures WritesAlong(before, path) && hs[0].number <= |path| && hs == path[hs[0].number..] ==> WritesAlong(puts, path)
      ensures forall n | n in before :: n in puts
      ensures Covers(puts, hs[0].number - 1, hs[0].number + |hs|)
    {
      ghost var good := WritesAlong(before, path) && hs[0].number <= |path| && hs == path[hs[0].number..];
      puts := before;
      for i := 0 to |hs| - 1
        invariant good ==> WritesAlong(puts, path)
        invariant forall n | n in before :: n in puts
        invariant Covers(puts, hs[0].number - 1, hs[0].number + i)
      {
        assert hs[i+1].parent == hs[i].hash;
        puts := puts[hs[i].number := hs[i+1].parent];
      }
      puts := puts[hs[|hs|-1].number := hs[|hs|-1].hash];
    }

    /** The canonical index after the reorg's batch is written. */
    method PlanReorg(hs: seq<Header>) returns (ok: bool, index: map<nat, Hash>)
      requires Contiguous(hs) && hs != []
      ensures Valid() && AllStored(headers, hs) ==> ok && index == IndexOf(headers, genesis, hs[|hs|-1])
      ensures ok <==> hs[0].parent == currentHeaderHash || !LosesWay(headers, canonical, hs[0])
    {
      ghost var good := Valid() && AllStored(headers, hs);
      var first, last := hs[0], hs[|hs|-1];
      ghost var pl := if good then Path(headers, genesis, last) else [];
      ghost var pf := if good then Path(headers, genesis, first) else [];
      if good {
        RunOnPath(headers, genesis, hs);
        PathIsReal(headers, genesis, first);
      }
      if first.parent != currentHeaderHash {
        var end := RunEnd(canonical, last.number + 1);
        var found, puts, cross := CrossLink(first, pf);
        if !found {
          return false, canonical;
        }
        puts := CollectWrites(hs, puts, pl);
        if good { SwitchSound(headers, genesis, currentHeader, last, cross, puts, end); }
        return true, Trim(canonical, last.number, end) + puts;
      } else {
        var puts := CollectWrites(hs, map[], pl);
        if good {
          ChildOfCurrent(headers, genesis, currentHeader, first);
          ExtendSound(headers, genesis, currentHeader, last, puts);
        }
        return true, canonical + puts;
      }
    }

    /** Switch the canonical chain to the one that ends in `hs`. All writes go out in one batch, so a
        missing parent leaves everything as it was. */
    method Reorg(hs: seq<Header>) returns (ok: bool)
      requires Contiguous(hs)
      modifies this
      ensures headers == old(headers)
      ensures hs == [] || !ok ==> unchanged(this)
      ensures ok <==> hs == [] || hs[0].parent == old(currentHeaderHash) || !LosesWay(headers, old(canonical), hs[0])
      ensures ok && hs != [] ==> currentHeader == hs[|hs|-1] && headHeaderHash == currentHeaderHash == currentHeader.hash
      ensures old(Valid()) && hs != [] && AllStored(headers, hs) ==> ok && Valid() && currentHeader == hs[|hs|-1]
    {
      if hs == [] {
        return true;
      }
      var last := hs[|hs|-1];
      var index;
      ok, index := PlanReorg(hs);
      if ok {
        canonical := index;
        headHeaderHash := last.hash;
        currentHeaderHash := last.hash;
        currentHeader := last;
      }
    }

    /** Store a contiguous run of headers on a known parent. */
    method WriteHeaders(hs: seq<Header>, interrupted: bool) returns (known: bool, stored: bool)
      requires Valid() && hs != [] && Contiguous(hs) && Collisionless(headers, hs)
      modifies this`headers
      ensures known <==> GetHeader(old(headers), hs[0].parent, hs[0].number - 1).Some?
      ensures stored <==> known && !interrupted
      ensures headers == if stored then StoreAll(old(headers), hs) else old(headers)
      ensures Valid() && (stored ==> AllStored(headers, hs))
      ensures forall k | k in old(headers) :: k in headers && headers[k] == old(headers)[k]
    {
      if GetHeader(headers, hs[0].parent, hs[0].number - 1).None? {
        return false, false;
      }
      var batch: Store := headers;
      for i := 0 to |hs|
        invariant batch == StoreAll(headers, hs[..i])
      {
        assert hs[..i+1][..i] == hs[..i];
        batch := batch[hs[i].hash := hs[i]];
      }
      if interrupted {
        return true, false;
      }
      assert hs[..|hs|] == hs;
      RunArrives(headers, genesis, hs);
      PathStable(headers, batch, genesis, currentHeader);
      headers := batch;
      return true, true;
    }

    /** Store a run of headers and make its last one the head, unless it already is canonical. */
    method WriteHeadersAndSetHead(hs: seq<Header>, interrupted: bool) returns (r: InsertResult)
      requires Valid() && hs != [] && Contiguous(hs) && Collisionless(headers, hs)
      modifies this
      ensures Valid()
      ensures r == UnknownAncestor <==> GetHeader(old(headers), hs[0].parent, hs[0].number - 1).None?
      ensures r == Aborted <==> r != UnknownAncestor && interrupted
      ensures r == UnknownAncestor || r == Aborted ==> unchanged(this)
      ensures Stored(headers, old(currentHeader))
      ensures r != UnknownAncestor && !interrupted ==>
                && AllStored(headers, hs)
                && (r == AlreadyCanonical || r == Switched)
                && (r == AlreadyCanonical <==> At(Path(headers, genesis, old(currentHeader)), hs[|hs|-1]))
                && currentHeader == (if r == Switched then hs[|hs|-1] else old(currentHeader))
    {
      var known, stored := WriteHeaders(hs, interrupted);
      if !known {
        return UnknownAncestor;
      }
      if !stored {
        return Aborted;
      }
      var last := hs[|hs|-1];
      assert Stored(headers, hs[|hs|-1]);
      ghost var p := Path(headers, genesis, currentHeader);
      assert last.number <= currentHeader.number ==> Stored(headers, p[last.number]);
      if IsCanonical(canonical, last.hash, last.number) && last.number <= currentHeader.number {
        return AlreadyCanonical;
      }
      var ok := Reorg(hs);
      return if ok then Switched else MissingParent;
    }

    /** The walk down of a rewind: where it stops, and the numbers whose headers are deleted. */
    method PlanSetHead(number: nat, time: nat, update: Option<Header -> Update>, ghost path: seq<Header>)
      returns (head: Header, dead: set<nat>)
      requires IsPath(headers, path, currentHeader) && path[0] == genesis
      requires time == 0 || genesis.time <= time
      ensures At(path, head) && Done(currentHeader, number, time) == (head == currentHeader)
      ensures head == currentHeader ==> dead == {}
      ensures head != currentHeader ==> DeadAbove(headers, currentHeader, head, dead)
      ensures RewindTarget(head, path, currentHeader.number, number, time, update)
    {
      var target, targetTime := number, time;
      ghost var m := 0;
      head, dead := currentHeader, {};
      var origin := true;
      while !Done(head, target, targetTime)
        invariant At(path, head)
        invariant Deleting(headers, currentHeader, head, dead, origin)
        invariant if origin then target == number && targetTime == time else !Done(currentHeader, number, time)
        invariant RewindSoFar(update, path, head.number, currentHeader.number, number, time, target, targetTime, m)
        decreases head.number
      {
        var num := head.number;
        StepBack(headers, path, currentHeader, head);
        var found := GetHeader(headers, head.parent, num - 1);
        var parent := if found.Some? then found.value else genesis;
        RewindStep(update, path, num, currentHeader.number, number, time, target, targetTime, m);
        m := if targetTime > 0 then num - 1 else m;
        target, targetTime := NextTarget(update, parent, target, targetTime).0, NextTarget(update, parent, target, targetTime).1;
        dead := DeleteHeight(headers, currentHeader, head, parent, dead, origin);
        origin, head := false, parent;
      }
      RewindEnd(update, path, head, currentHeader.number, number, time, target, targetTime, m);
    }

    /** Rewind to a block number or, when `time` is not zero, to a timestamp, deleting every header on
        every fork above the new head. `update` is the caller's callback: it may force a lower target. */
    method SetHead(number: nat, time: nat, update: Option<Header -> Update>) returns (ok: bool)
      requires Valid()
      modifies this
      ensures ok <==> time == 0 || genesis.time <= time
      ensures !ok ==> unchanged(this)
      ensures Valid() && At(Path(old(headers), genesis, old(currentHeader)), currentHeader)
      ensures ok ==> (currentHeader == old(currentHeader) <==> Done(old(currentHeader), number, time))
      ensures ok ==>
                (currentHeader == old(currentHeader) <==>
                   if time > 0 then old(currentHeader).time <= time else old(currentHeader).number <= number)
      ensures headers == if currentHeader == old(currentHeader) then old(headers) else UpTo(old(headers), currentHeader.number)
      ensures forall k :: k in headers <==>
                k in old(headers) && (currentHeader != old(currentHeader) ==> old(headers)[k].number <= currentHeader.number)
      ensures forall k | k in headers :: headers[k] == old(headers)[k]
      ensures ok ==>
                RewindTarget(currentHeader, Path(old(headers), genesis, old(currentHeader)), old(currentHeader).number,
                             number, time, update)
    {
      if time > 0 && genesis.time > time {
        return false;
      }
      ghost var path := Path(headers, genesis, currentHeader);
      var head, dead := PlanSetHead(number, time, update, path);
      if head != currentHeader {
        RewoundStore(headers, genesis, currentHeader, head, dead);
      } else {
        NothingDeleted(headers, canonical);
      }
      headHeaderHash := head.hash;
      currentHeader := head;
      currentHeaderHash := head.hash;
      headers := Without(headers, dead);
      canonical := canonical - dead;
      return true;
    }

    /** The walk of `GetAncestor`: read parents until the canonical index can be used. */
    method WalkOrJump(hash0: Hash, number0: nat, ancestor0: nat, maxNonCanonical: nat, ghost path: seq<Header>)
      returns (hash: Hash, number: nat, left: nat)
      requires Valid() && ancestor0 <= number0
      ensures hash0 != ZERO_HASH && hash != ZERO_HASH ==>
                number == number0 - ancestor0 && AncestorHash(headers, hash0, number0, ancestor0) == Some(hash)
      ensures hash0 == ZERO_HASH && ancestor0 > 0 ==>
                if number0 <= currentHeader.number then hash == ZERO_HASH
                else number == number0 - ancestor0 && hash == ReadCanonical(canonical, number)
      ensures hash0 == ZERO_HASH && ancestor0 == 0 ==> hash == ZERO_HASH
      ensures PathTo(headers, path, hash0, number0) ==>
                (hash != ZERO_HASH <==> Min(ancestor0, OffCanonical(canonical, path, number0)) <= maxNonCanonical)
      ensures PathTo(headers, path, hash0, number0) ==>
                left == maxNonCanonical - Min(maxNonCanonical, Min(ancestor0, OffCanonical(canonical, path, number0)))
      ensures GetHeader(headers, hash0, number0).None? ==>
                left == maxNonCanonical - if ancestor0 == 0 || IsCanonical(canonical, hash0, number0) then 0 else Min(maxNonCanonical, 1)
    {
      ghost var known := PathTo(headers, path, hash0, number0);
      ghost var pc := Path(headers, genesis, currentHeader);
      PathIsReal(headers, genesis, currentHeader);
      hash, number, left := hash0, number0, maxNonCanonical;
      var ancestor := ancestor0;
      while ancestor != 0
        invariant 0 <= ancestor <= number <= number0 && number - ancestor == number0 - ancestor0
        invariant left + (number0 - number) == maxNonCanonical
        invariant AncestorHash(headers, hash, number, ancestor) == AncestorHash(headers, hash0, number0, ancestor0)
        invariant hash == ZERO_HASH && ancestor > 0 ==> hash0 == ZERO_HASH
        invariant hash0 == ZERO_HASH ==> hash == ZERO_HASH && number == number0
        invariant GetHeader(headers, hash0, number0).None? ==> hash == hash0 && number == number0 && ancestor == ancestor0
        invariant known ==> hash == path[number].hash
        invariant known ==> OffCanonical(canonical, path, number0) == number0 - number + OffCanonical(canonical, path, number)
        decreases ancestor
      {
        if IsCanonical(canonical, hash, number) {
          if hash != ZERO_HASH { WalkAlongPath(headers, pc, currentHeader, number, ancestor); }
          return ReadCanonical(canonical, number - ancestor), number - ancestor, left;
        }
        if left == 0 {
          return ZERO_HASH, 0, 0;
        }
        if known { StepBack(headers, path, path[number0], path[number]); }
        if hash == ZERO_HASH {
          EmptyHashGoesNowhere(headers, genesis, number, ancestor);
        } else if GetHeader(headers, hash, number).Some? {
          ParentIsReal(headers, genesis, hash, number);
        }
        left := left - 1;
        ancestor := ancestor - 1;
        var header := GetHeader(headers, hash, number);
        if header.None? {
          return ZERO_HASH, 0, left;
        }
        hash := header.value.parent;
        number := number - 1;
      }
    }

    /** The `ancestor`-th ancestor of a block, jumping through the canonical index as soon as the walk
        meets it. Any hash it returns is the one of the plain walk exactly when the query is answerable; on a
        stored block it finds one unless more than `maxNonCanonical` blocks have to be read off the canonical
        chain. The counter falls by what is read, down to zero. */
    method GetAncestor(hash0: Hash, number0: nat, ancestor0: nat, maxNonCanonical: nat)
      returns (hash: Hash, number: nat, left: nat)
      requires Valid()
      ensures (hash != ZERO_HASH ==>
                 && ancestor0 <= number0 && number == number0 - ancestor0
                 && AncestorHash(headers, hash0, number0, ancestor0) == Some(hash))
              <==> Answerable(hash0, number0, ancestor0, currentHeader.number)
      ensures !Answerable(hash0, number0, ancestor0, currentHeader.number) ==>
                number == number0 - ancestor0 && number in canonical && hash == canonical[number]
      ensures ancestor0 > number0 ==> hash == ZERO_HASH && number == 0
      ensures GetHeader(headers, hash0, number0).Some? && ancestor0 <= number0 ==>
                (hash != ZERO_HASH <==> Reads(headers, genesis, canonical, hash0, number0, ancestor0) <= maxNonCanonical)
      ensures left == maxNonCanonical - Min(maxNonCanonical, Reads(headers, genesis, canonical, hash0, number0, ancestor0))
    {
      ghost var known := GetHeader(headers, hash0, number0).Some?;
      if known { HashIsReal(headers, genesis, hash0); }
      ghost var path := if known then Path(headers, genesis, headers[hash0]) else [];
      PathIsReal(headers, genesis, currentHeader);
      if known { PathIsReal(headers, genesis, headers[hash0]); }
      if ancestor0 > number0 {
        return ZERO_HASH, 0, maxNonCanonical;
      }
      if ancestor0 == 1 {
        var header := GetHeader(headers, hash0, number0);
        if header.Some? {
          assert AncestorHash(headers, header.value.parent, number0 - 1, 0) == Some(header.value.parent);
          assert known ==> header.value.parent == path[number0 - 1].hash;
          return header.value.parent, number0 - 1, maxNonCanonical;
        }
        return ZERO_HASH, 0, maxNonCanonical;
      }
      if hash0 == ZERO_HASH && ancestor0 > 0 { EmptyHashGoesNowhere(headers, genesis, number0, ancestor0); }
      hash, number, left := WalkOrJump(hash0, number0, ancestor0, maxNonCanonical, path);
    }
  }

  /** A query that is not answerable: asked for the second ancestor of the empty hash at number two, a chain that
      holds only its genesis block answers with genesis, where the plain walk finds nothing. */
  method EmptyHashFindsGenesis() returns (hash: Hash, number: nat)
    ensures hash == 1 && number == 0
    ensures AncestorHash(map[1 := Header(1, ZERO_HASH, 0, 0, 0)], ZERO_HASH, 2, 2) == None
  {
    var genesis := Header(1, ZERO_HASH, 0, 0, 0);
    var chain := new HeaderChain(genesis);
    var left;
    hash, number, left := chain.GetAncestor(ZERO_HASH, 2, 2, 0);
    EmptyHashGoesNowhere(chain.headers, genesis, 2, 2);
  }
}
