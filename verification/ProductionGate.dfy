/** The production gate: an event loop that starts and stops the LQC block producer from
    downloader events, clock ticks and what peers advertise.

    The chain, the peers and the clock change while one iteration of the loop runs, so
    each read of them is its own observation. */
module ProductionGate {
  import opened Basics
  import opened Chain
  import opened ForkChoice

  const SECOND: int := 1_000_000_000
  const HEAD_FRESHNESS: int := 600 * SECOND
  const HEAD_FUTURE_TOLERANCE: int := 30 * SECOND
  const SYNC_DISCOVERY_GRACE: int := 20 * SECOND
  const OFFLINE_RECOVERY_GRACE: int := 60 * SECOND

  /** A peer's advertised head, or nothing. */
  type Advert = Option<(nat, Hash)>

  /** One look at the node: current block, readable state roots, whether fork recovery is busy,
      the connected peers and the time in nanoseconds. */
  datatype Env = Env(head: Option<Header>, states: set<Hash>, busy: bool, peers: seq<Advert>, now: int)

  predicate IsLive(h: Header, now: int) {
    h.number != 0 && -HEAD_FUTURE_TOLERANCE <= now - h.time * SECOND <= HEAD_FRESHNESS
  }

  predicate MayRecoverWithoutSync(h: Header, peers: nat, elapsed: int, now: int) {
    if peers == 0 then false
    else if h.number == 0 then elapsed >= SYNC_DISCOVERY_GRACE
    else if elapsed >= OFFLINE_RECOVERY_GRACE then true
    else elapsed >= SYNC_DISCOVERY_GRACE && IsLive(h, now)
  }

  predicate RealAdvert(a: Advert) {
    a.Some? && a.value.1 != ZERO_HASH
  }

  /** The peer's head comes before `h` in the fork choice. */
  predicate Preferred(a: Advert, h: Header) {
    RealAdvert(a) && (a.value.0 > h.number || (a.value.0 == h.number && a.value.1 < h.hash))
  }

  /** A peer's head is preferred exactly when a real header with its number and hash would be ahead. */
  lemma PreferredIsAhead(remote: Header, h: Header)
    ensures Preferred(Some((remote.number, remote.hash)), h) <==> remote.hash != ZERO_HASH && Ahead(remote, h)
    ensures Preferred(Some((remote.number, remote.hash)), h) <==> PeerHeadRequiresSync(h.number, h.hash, remote.number, remote.hash)
  {
  }

  /** A peer advertises exactly `h`, none advertises a head that is preferred to it, and no recovery is under way. */
  ghost predicate Confirmed(env: Env, h: Header) {
    && !env.busy
    && h.hash != ZERO_HASH && Some((h.number, h.hash)) in env.peers
    && (forall a | a in env.peers :: !Preferred(a, h))
  }

  ghost predicate NeedsSync(env: Env, h: Header) {
    env.busy || exists a :: a in env.peers && Preferred(a, h)
  }

  method PeerHeadConfirmed(env: Env, h: Header) returns (ok: bool)
    ensures ok <==> Confirmed(env, h)
  {
    if env.busy {
      return false;
    }
    var confirmed := false;
    for i := 0 to |env.peers|
      invariant confirmed <==> h.hash != ZERO_HASH && Some((h.number, h.hash)) in env.peers[..i]
      invariant forall a | a in env.peers[..i] :: !Preferred(a, h)
    {
      var a := env.peers[i];
      assert env.peers[..i+1] == env.peers[..i] + [a];
      if a.None? || a.value.1 == ZERO_HASH {
        continue;
      }
      if a.value.0 > h.number {
        assert a in env.peers && Preferred(a, h);
        return false;
      }
      if a.value.0 == h.number {
        if a.value.1 < h.hash {
          assert a in env.peers && Preferred(a, h);
          return false;
        }
        if a.value.1 == h.hash {
          confirmed := true;
        }
      }
    }
    assert env.peers[..|env.peers|] == env.peers;
    return confirmed;
  }

  method ProductionNeedsSync(env: Env, header: Option<Header>) returns (needs: bool)
    ensures needs <==> header.None? || NeedsSync(env, header.value)
  {
    if header.None? || env.busy {
      return true;
    }
    var h := header.value;
    for i := 0 to |env.peers|
      invariant forall a | a in env.peers[..i] :: !Preferred(a, h)
    {
      var a := env.peers[i];
      assert env.peers[..i+1] == env.peers[..i] + [a];
      if a.None? {
        continue;
      }
      if PeerHeadRequiresSync(h.number, h.hash, a.value.0, a.value.1) {
        assert a in env.peers && Preferred(a, h);
        return true;
      }
    }
    assert env.peers[..|env.peers|] == env.peers;
    return false;
  }

  /** The failed-sync gate. */
  datatype Gate = Gate(required: bool, failedSync: bool, failedNumber: nat)

  const OPEN := Gate(false, false, 0)

  class FailedSyncGate {
    var required: bool
    var failedSync: bool
    var failedNumber: nat

    function Abs(): (g: Gate)
      reads this
    {
      Gate(required, failedSync, failedNumber)
    }

    constructor ()
      ensures Abs() == OPEN
    {
      required, failedSync, failedNumber := false, false, 0;
    }

    method Started()
      modifies this
      ensures Abs() == Gate(true, false, 0)
    {
      required, failedSync, failedNumber := true, false, 0;
    }

    method Failed(number: nat)
      modifies this
      ensures Abs() == Gate(true, true, number)
    {
      required, failedSync, failedNumber := true, true, number;
    }

    method Completed()
      modifies this
      ensures Abs() == OPEN
    {
      required, failedSync, failedNumber := false, false, 0;
    }

    method Recover(number: nat, live: bool, stateAvailable: bool, peerConfirmed: bool, recoveryPending: bool) returns (ok: bool)
      modifies this
      ensures ok <==> old(required) && old(failedSync) && number > old(failedNumber)
                      && live && stateAvailable && peerConfirmed && !recoveryPending
      ensures Abs() == if ok then OPEN else old(Abs())
    {
      if !required || !failedSync || number <= failedNumber || !live || !stateAvailable || !peerConfirmed || recoveryPending {
        return false;
      }
      Completed();
      return true;
    }
  }

  datatype Event = SyncStarted | SyncFailed | SyncCompleted | Tick

  /** Where in one iteration an observation is made. */
  datatype Site = FailHead | Gated(part: Part) | PeerCount | RunningCheck(part: Part) | Idle(part: Part) | Ready(afterSync: bool, part: Part)

  datatype Part = Head | State | Confirm | Needs | Clock

  type Observations = Site -> Env

  /** Why the producer was started: right after a completed sync, or by the grace-period check. */
  datatype Start = AfterSync | AfterGrace

  function Height(env: Env): (n: nat) {
    if env.head.Some? then env.head.value.number else 0
  }

  /** The point a start is made at: readable state, a peer on exactly this head, and nothing preferred. */
  ghost predicate SafeStart(obs: Observations, why: Start) {
    var at := (part: Part) => obs(Ready(why == AfterSync, part));
    && at(Head).head.Some?
    && at(Head).head.value.root in at(State).states
    && Confirmed(at(Confirm), at(Head).head.value)
    && !NeedsSync(at(Needs), at(Head).head.value)
  }

  /** The gate right after the event of the iteration is handled. */
  function AfterEvent(g: Gate, ev: Event, obs: Observations): (r: Gate) {
    match ev
    case SyncStarted => Gate(true, false, 0)
    case SyncFailed => Gate(true, true, Height(obs(FailHead)))
    case SyncCompleted => OPEN
    case Tick => g
  }

  /** All checks that let production resume after a failed sync: the executed head moved past the
      failure, is live, has state, is confirmed by a peer and nothing is preferred to it. */
  ghost predicate RecoveryChecks(obs: Observations, failedNumber: nat) {
    && obs(Gated(Head)).head.Some?
    && var h := obs(Gated(Head)).head.value;
    && h.number > failedNumber
    && IsLive(h, obs(Gated(Clock)).now)
    && h.root in obs(Gated(State)).states
    && Confirmed(obs(Gated(Confirm)), h)
    && !NeedsSync(obs(Gated(Needs)), h)
  }

  ghost predicate Recovered(g: Gate, obs: Observations) {
    g.required && g.failedSync && RecoveryChecks(obs, g.failedNumber)
  }

  /** The gate at the end of an iteration. */
  ghost function NextGate(g: Gate, ev: Event, obs: Observations): (r: Gate) {
    var after := AfterEvent(g, ev, obs);
    if Recovered(after, obs) then OPEN else after
  }

  datatype Snapshot = Snapshot(gate: Gate, running: bool, startedAt: int)

  /** Whether the producer runs once the event is handled. */
  ghost predicate RunsAfterEvent(running: bool, enabled: bool, ev: Event, obs: Observations) {
    match ev
    case SyncStarted => false
    case SyncFailed => false
    case SyncCompleted => SafeStart(obs, AfterSync) && (running || enabled)
    case Tick => running
  }

  /** Without a completed sync, a start needs the grace period to be over, a confirmed head, and a safe start. */
  ghost predicate GraceReady(startedAt: int, obs: Observations) {
    var now := obs(Idle(Clock)).now;
    && obs(Idle(Head)).head.Some?
    && MayRecoverWithoutSync(obs(Idle(Head)).head.value, |obs(PeerCount).peers|, now - startedAt, now)
    && Confirmed(obs(Idle(Confirm)), obs(Idle(Head)).head.value)
    && SafeStart(obs, AfterGrace)
  }

  /** A running producer is left running: the head it has needs no sync. */
  ghost predicate Continues(running: bool, obs: Observations) {
    var head := obs(RunningCheck(Head)).head;
    running && head.Some? && !NeedsSync(obs(RunningCheck(Needs)), head.value)
  }

  /** Whether the producer runs at the end of an iteration that went past the gate. */
  ghost predicate RunsAtEnd(running: bool, enabled: bool, startedAt: int, obs: Observations) {
    obs(PeerCount).peers != [] && (Continues(running, obs) || (enabled && GraceReady(startedAt, obs)))
  }

  /** One iteration, as the state it leads to. */
  ghost function Next(s: Snapshot, enabled: bool, ev: Event, obs: Observations): (r: Snapshot) {
    var gate := NextGate(s.gate, ev, obs);
    var running := RunsAfterEvent(s.running, enabled, ev, obs);
    Snapshot(gate, !gate.required && RunsAtEnd(running, enabled, s.startedAt, obs),
             if !gate.required && obs(PeerCount).peers == [] then obs(PeerCount).now else s.startedAt)
  }

  /** The starts an iteration makes: after a completed sync, and by the grace-period check. */
  ghost function SyncStarts(running: bool, enabled: bool, ev: Event, obs: Observations): (r: seq<Start>) {
    if ev == SyncCompleted && enabled && !running && SafeStart(obs, AfterSync) then [AfterSync] else []
  }

  ghost function GraceStarts(running: bool, enabled: bool, startedAt: int, obs: Observations): (r: seq<Start>) {
    if obs(PeerCount).peers != [] && enabled && !Continues(running, obs) && GraceReady(startedAt, obs) then [AfterGrace] else []
  }

  ghost function StartsOf(s: Snapshot, enabled: bool, ev: Event, obs: Observations): (r: seq<Start>) {
    SyncStarts(s.running, enabled, ev, obs) +
    if NextGate(s.gate, ev, obs).required then []
    else GraceStarts(RunsAfterEvent(s.running, enabled, ev, obs), enabled, s.startedAt, obs)
  }

  class Producer {
    const gate: FailedSyncGate
    const enabled: bool
    var running: bool
    var startedAt: int

    ghost predicate Valid()
      reads this, gate
    {
      running ==> enabled && !gate.required
    }

    function Abs(): (s: Snapshot)
      reads this, gate
    {
      Snapshot(gate.Abs(), running, startedAt)
    }

    constructor (enabled: bool, now: int)
      ensures Valid() && fresh(gate) && Abs() == Snapshot(OPEN, false, now) && this.enabled == enabled
    {
      gate := new FailedSyncGate();
      this.enabled := enabled;
      running := false;
      startedAt := now;
    }

    method StopProducer()
      modifies this`running
      ensures running == (old(running) && !enabled)
    {
      if enabled && running {
        running := false;
      }
    }

    /** Start if the head read now is safe to produce on. */
    method MarkReady(obs: Observations, why: Start) returns (ready: bool, starts: seq<Start>)
      modifies this`running
      ensures ready <==> SafeStart(obs, why)
      ensures running == (old(running) || (ready && enabled))
      ensures starts == if ready && enabled && !old(running) then [why] else []
    {
      var at := (part: Part) => obs(Ready(why == AfterSync, part));
      var head := at(Head).head;
      if head.None? || head.value.root !in at(State).states {
        return false, [];
      }
      var confirmed := PeerHeadConfirmed(at(Confirm), head.value);
      if !confirmed {
        return false, [];
      }
      var needs := ProductionNeedsSync(at(Needs), head);
      if needs {
        return false, [];
      }
      if !enabled || running {
        return true, [];
      }
      running := true;
      return true, [why];
    }

    /** React to a downloader event. */
    method HandleEvent(ev: Event, obs: Observations) returns (starts: seq<Start>)
      requires Valid()
      modifies this`running, gate
      ensures Valid() && gate.Abs() == AfterEvent(old(gate.Abs()), ev, obs)
      ensures running <==> RunsAfterEvent(old(running), enabled, ev, obs)
      ensures starts == SyncStarts(old(running), enabled, ev, obs)
    {
      starts := [];
      match ev {
        case SyncStarted =>
          gate.Started();
          StopProducer();
        case SyncFailed =>
          gate.Failed(Height(obs(FailHead)));
          StopProducer();
        case SyncCompleted =>
          gate.Completed();
          var ready;
          ready, starts := MarkReady(obs, AfterSync);
          if !ready {
            StopProducer();
          }
        case Tick =>
      }
    }

    /** The failed-sync exit: may the iteration go past the gate? */
    method PassGate(obs: Observations) returns (pass: bool)
      modifies gate
      ensures gate.Abs() == if Recovered(old(gate.Abs()), obs) then OPEN else old(gate.Abs())
      ensures pass <==> !gate.required
    {
      if !gate.required {
        return true;
      }
      var head := obs(Gated(Head)).head;
      if !gate.failedSync || head.None? || head.value.number <= gate.failedNumber {
        return false;
      }
      var confirmed := PeerHeadConfirmed(obs(Gated(Confirm)), head.value);
      var needs := ProductionNeedsSync(obs(Gated(Needs)), head);
      pass := gate.Recover(head.value.number, IsLive(head.value, obs(Gated(Clock)).now),
                           head.value.root in obs(Gated(State)).states, confirmed, needs);
    }

    /** Past the gate: stop without peers or on a conflict, start when a check succeeds. */
    method CheckProduction(obs: Observations) returns (starts: seq<Start>)
      requires Valid() && !gate.required
      modifies this`running, this`startedAt
      ensures Valid()
      ensures running <==> RunsAtEnd(old(running), enabled, old(startedAt), obs)
      ensures startedAt == if obs(PeerCount).peers == [] then obs(PeerCount).now else old(startedAt)
      ensures starts == GraceStarts(old(running), enabled, old(startedAt), obs)
    {
      starts := [];
      var peers := |obs(PeerCount).peers|;
      if peers == 0 {
        StopProducer();
        startedAt := obs(PeerCount).now;
        return starts;
      }
      if running {
        var needs := ProductionNeedsSync(obs(RunningCheck(Needs)), obs(RunningCheck(Head)).head);
        if !needs {
          return starts;
        }
        StopProducer();
      }
      var head := obs(Idle(Head)).head;
      if head.None? {
        return starts;
      }
      var now := obs(Idle(Clock)).now;
      if !MayRecoverWithoutSync(head.value, peers, now - startedAt, now) {
        return starts;
      }
      var confirmed := PeerHeadConfirmed(obs(Idle(Confirm)), head.value);
      if !confirmed {
        return starts;
      }
      var _, more := MarkReady(obs, AfterGrace);
      return more;
    }

    /** One iteration of the loop. */
    method Iterate(ev: Event, obs: Observations) returns (starts: seq<Start>)
      requires Valid()
      modifies this, gate
      ensures Valid() && Abs() == Next(old(Abs()), enabled, ev, obs)
      ensures starts == StartsOf(old(Abs()), enabled, ev, obs)
    {
      starts := HandleEvent(ev, obs);
      var pass := PassGate(obs);
      if !pass {
        return starts;
      }
      var more := CheckProduction(obs);
      return starts + more;
    }
  }

  /** One iteration of a run: the event and what was observed. */
  datatype Turn = Turn(ev: Event, obs: Observations)

  /** A run of the loop: `states[i]` is the state before iteration `i`. */
  ghost predicate IsRun(states: seq<Snapshot>, turns: seq<Turn>, enabled: bool) {
    && |states| == |turns| + 1 && states[0].gate == OPEN && !states[0].running
    && forall i | 0 <= i < |turns| :: Stepped(states, turns, enabled, i)
  }

  ghost predicate Stepped(states: seq<Snapshot>, turns: seq<Turn>, enabled: bool, i: nat)
    requires |states| == |turns| + 1 && i < |turns|
  {
    states[i+1] == Next(states[i], enabled, turns[i].ev, turns[i].obs)
  }

  ghost function StartsAt(states: seq<Snapshot>, turns: seq<Turn>, enabled: bool, i: nat): (r: seq<Start>)
    requires |states| == |turns| + 1 && i < |turns|
  {
    StartsOf(states[i], enabled, turns[i].ev, turns[i].obs)
  }

  /** Iteration `i` leaves a running producer running: no sync began or failed, the gate is open, there are peers, and
      none of them has a head that is preferred to ours. */
  ghost predicate Undisturbed(states: seq<Snapshot>, turns: seq<Turn>, i: nat)
    requires |states| == |turns| + 1 && i < |turns|
  {
    && turns[i].ev != SyncStarted && turns[i].ev != SyncFailed && !states[i+1].gate.required
    && turns[i].obs(PeerCount).peers != [] && Continues(true, turns[i].obs)
  }

  /** Iteration `k` starts the producer, at a safe point and with the gate open. */
  ghost predicate SafelyStarted(states: seq<Snapshot>, turns: seq<Turn>, enabled: bool, k: nat)
    requires |states| == |turns| + 1 && k < |turns|
  {
    && StartsAt(states, turns, enabled, k) != [] && enabled && !states[k+1].gate.required
    && forall why | why in StartsAt(states, turns, enabled, k) :: SafeStart(turns[k].obs, why)
  }

  /** Every start is a safe one. */
  lemma StartsAreSafe(states: seq<Snapshot>, turns: seq<Turn>, enabled: bool, i: nat)
    requires IsRun(states, turns, enabled) && i < |turns| && StartsAt(states, turns, enabled, i) != []
    ensures SafelyStarted(states, turns, enabled, i)
  {
    assert Stepped(states, turns, enabled, i);
  }

  /** A producer that runs was started, or was running and undisturbed. */
  lemma StartedOrKept(states: seq<Snapshot>, turns: seq<Turn>, enabled: bool, i: nat)
    requires IsRun(states, turns, enabled) && i < |turns| && states[i+1].running
    ensures !states[i+1].gate.required
    ensures StartsAt(states, turns, enabled, i) != [] || (states[i].running && Undisturbed(states, turns, i))
  {
    assert Stepped(states, turns, enabled, i);
  }

  lemma StartedSafelyOrKept(states: seq<Snapshot>, turns: seq<Turn>, enabled: bool, i: nat) returns (started: bool)
    requires IsRun(states, turns, enabled) && i < |turns| && states[i+1].running
    ensures !states[i+1].gate.required
    ensures if started then SafelyStarted(states, turns, enabled, i) else states[i].running && Undisturbed(states, turns, i)
  {
    StartedOrKept(states, turns, enabled, i);
    started := StartsAt(states, turns, enabled, i) != [];
    if started { StartsAreSafe(states, turns, enabled, i); }
  }

  ghost predicate UndisturbedBetween(states: seq<Snapshot>, turns: seq<Turn>, k: nat, i: nat)
    requires |states| == |turns| + 1 && i <= |turns|
  {
    forall n | k < n < i :: Undisturbed(states, turns, n)
  }

  lemma UndisturbedOneMore(states: seq<Snapshot>, turns: seq<Turn>, k: nat, i: nat)
    requires |states| == |turns| + 1 && 0 < i <= |turns|
    requires UndisturbedBetween(states, turns, k, i - 1) && Undisturbed(states, turns, i - 1)
    ensures UndisturbedBetween(states, turns, k, i)
  {
  }

  /** Over every run, a running producer was started at some iteration at a safe point, and nothing disturbed it
      since; in particular no sync is required while it runs. */
  lemma {:induction false} RunsAreSafe(states: seq<Snapshot>, turns: seq<Turn>, enabled: bool, i: nat) returns (k: nat)
    requires IsRun(states, turns, enabled) && i < |states| && states[i].running
    ensures !states[i].gate.required
    ensures k < i && SafelyStarted(states, turns, enabled, k) && UndisturbedBetween(states, turns, k, i)
  {
    var started := StartedSafelyOrKept(states, turns, enabled, i - 1);
    if started {
      k := i - 1;
    } else {
      k := RunsAreSafe(states, turns, enabled, i - 1);
      UndisturbedOneMore(states, turns, k, i);
    }
  }

  /** The producer may start without a sync once it has had peers for a minute, or for twenty seconds if its chain is
      empty or its head is at most ten minutes old and at most half a minute ahead of the clock. */
  lemma WaitsLongEnough(h: Header, peers: nat, elapsed: int, now: int)
    ensures MayRecoverWithoutSync(h, peers, elapsed, now) <==>
              && peers > 0
              && (|| elapsed >= 60_000_000_000
                  || (elapsed >= 20_000_000_000 && (h.number == 0 || -30_000_000_000 <= now - h.time * 1_000_000_000 <= 600_000_000_000)))
    ensures IsLive(h, now) <==> h.number != 0 && -30_000_000_000 <= now - h.time * 1_000_000_000 <= 600_000_000_000
  {
  }

  /** Iteration `l` found the gate open and no peers. */
  ghost predicate Alone(states: seq<Snapshot>, turns: seq<Turn>, l: nat)
    requires |states| == |turns| + 1 && l < |turns|
  {
    !states[l+1].gate.required && turns[l].obs(PeerCount).peers == []
  }

  /** The clock of the grace period started when the loop was last alone, or at its start. */
  lemma {:induction false} WaitsSinceAlone(states: seq<Snapshot>, turns: seq<Turn>, enabled: bool, i: nat)
    requires IsRun(states, turns, enabled) && i < |states|
    ensures || (states[i].startedAt == states[0].startedAt && forall l | 0 <= l < i :: !Alone(states, turns, l))
            || exists l :: 0 <= l < i && Alone(states, turns, l) && states[i].startedAt == turns[l].obs(PeerCount).now
                           && forall k | l < k < i :: !Alone(states, turns, k)
  {
    if i > 0 {
      assert Stepped(states, turns, enabled, i - 1);
      WaitsSinceAlone(states, turns, enabled, i - 1);
    }
  }

  /** A start by the grace-period check had a confirmed head, peers, and at least twenty seconds since the clock of the
      grace period started; less than a minute only with an empty chain or a live head. */
  lemma GraceStartsWait(states: seq<Snapshot>, turns: seq<Turn>, enabled: bool, i: nat)
    requires IsRun(states, turns, enabled) && i < |turns| && AfterGrace in StartsAt(states, turns, enabled, i)
    ensures var obs := turns[i].obs;
            var waited := obs(Idle(Clock)).now - states[i].startedAt;
            && obs(PeerCount).peers != [] && obs(Idle(Head)).head.Some?
            && Confirmed(obs(Idle(Confirm)), obs(Idle(Head)).head.value)
            && waited >= 20_000_000_000
            && (waited < 60_000_000_000 ==>
                  obs(Idle(Head)).head.value.number == 0 || IsLive(obs(Idle(Head)).head.value, obs(Idle(Clock)).now))
  {
    var s, obs := states[i], turns[i].obs;
    assert AfterGrace in GraceStarts(RunsAfterEvent(s.running, enabled, turns[i].ev, obs), enabled, s.startedAt, obs);
  }

  /** What events do to the gate and the producer, in every iteration of every run: a sync that began closes the gate and
      stops the producer, one that completed opens it, and the producer then runs if its head was safe to start on and
      there are peers and none needs a sync. */
  lemma EventsDecide(states: seq<Snapshot>, turns: seq<Turn>, enabled: bool, i: nat)
    requires IsRun(states, turns, enabled) && i < |turns|
    ensures turns[i].ev == SyncStarted ==> states[i+1].gate.required && !states[i+1].running
    ensures turns[i].ev == SyncCompleted ==> !states[i+1].gate.required
    ensures turns[i].ev == SyncCompleted && enabled && SafeStart(turns[i].obs, AfterSync)
            && turns[i].obs(PeerCount).peers != [] && Continues(true, turns[i].obs) ==>
              states[i+1].running && (states[i].running || AfterSync in StartsAt(states, turns, enabled, i))
    ensures turns[i].ev == Tick && !states[i].gate.required ==> !states[i+1].gate.required
  {
    assert Stepped(states, turns, enabled, i);
  }

  /** The gate of iteration `m` once its event is handled. */
  ghost function GateAt(states: seq<Snapshot>, turns: seq<Turn>, m: nat): (g: Gate)
    requires |states| == |turns| + 1 && m < |turns|
  {
    AfterEvent(states[m].gate, turns[m].ev, turns[m].obs)
  }

  /** `l` is the last failed sync up to iteration `m`. */
  ghost predicate LatestFailure(turns: seq<Turn>, l: nat, m: nat) {
    l <= m < |turns| && turns[l].ev == SyncFailed && forall k | l < k <= m :: turns[k].ev != SyncFailed
  }

  /** A gate that remembers a failure remembers the height of the latest one. */
  lemma {:induction false} RemembersLatest(states: seq<Snapshot>, turns: seq<Turn>, enabled: bool, m: nat) returns (l: nat)
    requires IsRun(states, turns, enabled) && m < |turns| && GateAt(states, turns, m).failedSync
    ensures LatestFailure(turns, l, m) && GateAt(states, turns, m).failedNumber == Height(turns[l].obs(FailHead))
    decreases m
  {
    if turns[m].ev == SyncFailed {
      l := m;
    } else {
      assert m > 0;
      assert Stepped(states, turns, enabled, m - 1);
      l := RemembersLatest(states, turns, enabled, m - 1);
    }
  }

  /** What lets production resume: a completed sync, or a head above the latest failure height
      with every check true. */
  ghost predicate Unlocks(turns: seq<Turn>, m: nat)
    requires m < |turns|
  {
    || turns[m].ev == SyncCompleted
    || exists l: nat :: LatestFailure(turns, l, m) && RecoveryChecks(turns[m].obs, Height(turns[l].obs(FailHead)))
  }

  /** After a failure the gate opens exactly when something unlocks it. */
  lemma OpensExactly(states: seq<Snapshot>, turns: seq<Turn>, enabled: bool, m: nat)
    requires IsRun(states, turns, enabled) && m < |turns| && states[m].gate.failedSync && turns[m].ev != SyncStarted
    ensures !states[m+1].gate.required <==> Unlocks(turns, m)
  {
    assert Stepped(states, turns, enabled, m);
    if turns[m].ev != SyncCompleted {
      var l := RemembersLatest(states, turns, enabled, m);
      GateIsClosed(states, turns, enabled, m);
      forall k: nat | LatestFailure(turns, k, m) ensures k == l {
      }
    }
  }

  /** A gate that remembers a failure is closed. */
  lemma {:induction false} GateIsClosed(states: seq<Snapshot>, turns: seq<Turn>, enabled: bool, m: nat)
    requires IsRun(states, turns, enabled) && m < |states|
    ensures states[m].gate.failedSync ==> states[m].gate.required
  {
    if m > 0 {
      GateIsClosed(states, turns, enabled, m - 1);
      assert Stepped(states, turns, enabled, m - 1);
    }
  }

  /** While nothing unlocks it, the gate stays closed after a failure. */
  lemma {:induction false} StaysClosed(states: seq<Snapshot>, turns: seq<Turn>, enabled: bool, i: nat, j: nat)
    requires IsRun(states, turns, enabled) && i <= j < |turns| && turns[i].ev == SyncFailed
    requires forall m | i <= m <= j :: !Unlocks(turns, m)
    ensures states[j+1].gate.required
    decreases j
  {
    if j > i {
      StaysClosed(states, turns, enabled, i, j - 1);
    }
    assert Stepped(states, turns, enabled, j);
    assert !Unlocks(turns, j);
    if GateAt(states, turns, j).failedSync {
      var l := RemembersLatest(states, turns, enabled, j);
    }
  }

  /** After a failed sync the producer is started again only once something unlocked it. */
  lemma RestartAfterFailure(states: seq<Snapshot>, turns: seq<Turn>, enabled: bool, i: nat, j: nat)
    requires IsRun(states, turns, enabled) && i <= j < |turns|
    requires turns[i].ev == SyncFailed && StartsAt(states, turns, enabled, j) != []
    ensures exists m :: i <= m <= j && Unlocks(turns, m)
  {
    StartsAreSafe(states, turns, enabled, j);
    if forall m | i <= m <= j :: !Unlocks(turns, m) {
      StaysClosed(states, turns, enabled, i, j);
    }
  }
}
