/** The fair verifier: one expensive verification at a time, at most one per peer, first come first served. */
module FairVerifier {
  type Peer = string

  /** A request to verify; every accepted one has its own number. */
  datatype Task = Task(id: nat, peer: Peer)

  datatype Admission = Accepted | Invalid | Closed | PeerPending

  /** What the lock protects. */
  datatype Shared = Shared(queue: seq<Task>, pending: set<Peer>, closed: bool)

  function PeersOf(tasks: seq<Task>): (s: set<Peer>) {
    if tasks == [] then {} else PeersOf(tasks[..|tasks|-1]) + {tasks[|tasks|-1].peer}
  }

  lemma {:induction false} PeerIn(tasks: seq<Task>, p: Peer)
    ensures p in PeersOf(tasks) <==> exists i | 0 <= i < |tasks| :: tasks[i].peer == p
  {
    if tasks != [] {
      var rest := tasks[..|tasks|-1];
      PeerIn(rest, p);
      if i :| 0 <= i < |rest| && rest[i].peer == p {
        assert tasks[i].peer == p;
      }
    }
  }

  function Admit(s: Shared, peer: Peer): (a: Admission) {
    if peer == "" then Invalid
    else if s.closed then Closed
    else if peer in s.pending then PeerPending
    else Accepted
  }

  function Enqueued(s: Shared, t: Task): (r: Shared) {
    s.(queue := s.queue + [t], pending := s.pending + {t.peer})
  }

  function Dequeued(s: Shared): (r: Shared)
    requires s.queue != []
  {
    s.(queue := s.queue[1..])
  }

  function Released(s: Shared, t: Task): (r: Shared) {
    s.(pending := s.pending - {t.peer})
  }

  function Shut(s: Shared): (r: Shared) {
    Shared([], s.pending - PeersOf(s.queue), true)
  }

  /** The verifier's fields; each method is the body of one locked section. */
  class Verifier {
    var queue: seq<Task>
    var pending: set<Peer>
    var closed: bool

    function State(): (s: Shared)
      reads this
    {
      Shared(queue, pending, closed)
    }

    constructor ()
      ensures State() == Shared([], {}, false)
    {
      queue, pending, closed := [], {}, false;
    }

    method Run(t: Task) returns (a: Admission)
      modifies this
      ensures a == Admit(old(State()), t.peer)
      ensures a == Invalid <==> t.peer == ""
      ensures a == Closed <==> t.peer != "" && old(closed)
      ensures a == Accepted <==> t.peer != "" && !old(closed) && t.peer !in old(pending)
      ensures State() == if a == Accepted then Enqueued(old(State()), t) else old(State())
    {
      if t.peer == "" {
        return Invalid;
      }
      if closed {
        return Closed;
      }
      if t.peer in pending {
        return PeerPending;
      }
      pending := pending + {t.peer};
      queue := queue + [t];
      return Accepted;
    }

    /** The worker takes the oldest task, if there is one. */
    method Take() returns (taken: seq<Task>)
      modifies this
      ensures taken == if old(queue) == [] then [] else [old(queue)[0]]
      ensures State() == if old(queue) == [] then old(State()) else Dequeued(old(State()))
    {
      if |queue| == 0 {
        return [];
      }
      taken := [queue[0]];
      queue := queue[1..];
    }

    method Release(t: Task)
      modifies this
      ensures State() == Released(old(State()), t)
    {
      pending := pending - {t.peer};
    }

    /** Closing takes the queue away; only the first call does anything. */
    method Close() returns (queued: seq<Task>)
      modifies this
      ensures queued == if old(closed) then [] else old(queue)
      ensures State() == if old(closed) then old(State()) else Shut(old(State()))
    {
      if closed {
        return [];
      }
      closed := true;
      queued := queue;
      queue := [];
      for i := 0 to |queued|
        invariant queue == [] && closed && queued == old(queue)
        invariant pending == old(pending) - PeersOf(queued[..i])
      {
        assert queued[..i + 1][..i] == queued[..i];
        pending := pending - {queued[i].peer};
      }
      assert queued[..|queued|] == queued;
    }
  }

  // All interleavings of the callers, the worker loop and the closer.

  datatype Worker = Idle | Working(task: Task) | Delivering(task: Task) | Stopped

  /** The shared part, the worker, what the closer has yet to answer, and the history: tasks accepted,
      tasks whose own result was delivered, tasks that were delivered the closed error. */
  datatype World = World(
    shared: Shared, worker: Worker, flushing: seq<Task>, accepted: seq<Task>, worked: seq<Task>, refused: seq<Task>)

  const START := World(Shared([], {}, false), Idle, [], [], [], [])

  ghost predicate Calls(w: World, v: World, peer: Peer) {
    var t := Task(|w.accepted|, peer);
    if Admit(w.shared, peer) == Accepted
    then v == w.(shared := Enqueued(w.shared, t), accepted := w.accepted + [t])
    else v == w
  }

  ghost predicate Takes(w: World, v: World) {
    w.worker == Idle && w.shared.queue != [] && v == w.(shared := Dequeued(w.shared), worker := Working(w.shared.queue[0]))
  }

  ghost predicate Stops(w: World, v: World) {
    w.worker == Idle && w.shared.closed && w.shared.queue == [] && v == w.(worker := Stopped)
  }

  ghost predicate Finishes(w: World, v: World) {
    w.worker.Working? && v == w.(shared := Released(w.shared, w.worker.task), worker := Delivering(w.worker.task))
  }

  ghost predicate Delivers(w: World, v: World) {
    w.worker.Delivering? && v == w.(worker := Idle, worked := w.worked + [w.worker.task])
  }

  ghost predicate Closes(w: World, v: World) {
    !w.shared.closed && v == w.(shared := Shut(w.shared), flushing := w.shared.queue)
  }

  ghost predicate Flushes(w: World, v: World) {
    w.flushing != [] && v == w.(flushing := w.flushing[1..], refused := w.refused + [w.flushing[0]])
  }

  ghost predicate Step(w: World, v: World) {
    || (exists peer :: Calls(w, v, peer))
    || Takes(w, v) || Stops(w, v) || Finishes(w, v) || Delivers(w, v) || Closes(w, v) || Flushes(w, v)
  }

  function Current(k: Worker): (ts: seq<Task>) {
    if k.Working? || k.Delivering? then [k.task] else []
  }

  function Busy(k: Worker): (ts: seq<Task>) {
    if k.Working? then [k.task] else []
  }

  ghost predicate DistinctPeers(ts: seq<Task>) {
    forall i, j | 0 <= i < j < |ts| :: ts[i].peer != ts[j].peer
  }

  /** Tasks are answered in the order they were accepted; the rest are with the worker, queued, or being refused. */
  ghost predicate InOrder(w: World) {
    && w.accepted == w.worked + Current(w.worker) + (if w.shared.closed then w.refused + w.flushing else w.shared.queue)
    && (w.shared.closed ==> w.shared.queue == [])
    && (!w.shared.closed ==> w.refused == [] && w.flushing == [])
    && (w.worker == Stopped ==> w.shared.closed)
    && forall i | 0 <= i < |w.accepted| :: w.accepted[i].id == i
  }

  /** The pending peers are exactly those of the running and the queued tasks, and none has two. */
  ghost predicate PendingExact(w: World) {
    var ts := Busy(w.worker) + w.shared.queue;
    w.shared.pending == PeersOf(ts) && DistinctPeers(ts)
  }

  ghost predicate Inv(w: World) {
    InOrder(w) && PendingExact(w)
  }

  lemma CallKeepsOrder(w: World, v: World, peer: Peer)
    requires InOrder(w) && Calls(w, v, peer)
    ensures InOrder(v)
  {
    if Admit(w.shared, peer) == Accepted {
      var t := Task(|w.accepted|, peer);
      assert v.accepted == w.worked + Current(w.worker) + (w.shared.queue + [t]);
    }
  }

  lemma WorkKeepsOrder(w: World, v: World)
    requires InOrder(w) && (Takes(w, v) || Stops(w, v) || Finishes(w, v) || Delivers(w, v))
    ensures InOrder(v)
  {
    if Takes(w, v) {
      assert w.shared.queue == [w.shared.queue[0]] + v.shared.queue;
    }
  }

  lemma CloseKeepsOrder(w: World, v: World)
    requires InOrder(w) && (Closes(w, v) || Flushes(w, v))
    ensures InOrder(v)
  {
    if Closes(w, v) {
      assert v.refused + v.flushing == w.shared.queue;
    } else {
      assert w.flushing == [w.flushing[0]] + v.flushing;
      assert v.refused + v.flushing == w.refused + w.flushing;
    }
  }

  lemma StepKeepsOrder(w: World, v: World)
    requires InOrder(w) && Step(w, v)
    ensures InOrder(v)
  {
    if Takes(w, v) || Stops(w, v) || Finishes(w, v) || Delivers(w, v) {
      WorkKeepsOrder(w, v);
    } else if Closes(w, v) || Flushes(w, v) {
      CloseKeepsOrder(w, v);
    } else {
      var peer :| Calls(w, v, peer);
      CallKeepsOrder(w, v, peer);
    }
  }

  lemma AcceptKeepsPending(ts: seq<Task>, pending: set<Peer>, t: Task)
    requires pending == PeersOf(ts) && DistinctPeers(ts) && t.peer !in pending
    ensures pending + {t.peer} == PeersOf(ts + [t]) && DistinctPeers(ts + [t])
  {
    assert (ts + [t])[..|ts|] == ts;
    PeerIn(ts, t.peer);
  }

  /** Releasing the first task's peer leaves the others'. */
  lemma ReleaseKeepsPending(ts: seq<Task>, pending: set<Peer>)
    requires ts != [] && pending == PeersOf(ts) && DistinctPeers(ts)
    ensures pending - {ts[0].peer} == PeersOf(ts[1..]) && DistinctPeers(ts[1..])
  {
    var rest := ts[1..];
    assert ts == [ts[0]] + rest;
    PeersConcat([ts[0]], rest);
    PeerIn(rest, ts[0].peer);
    assert PeersOf([ts[0]]) == {ts[0].peer};
  }

  /** Dropping the queue's peers leaves the running task's. */
  lemma CloseKeepsPending(busy: seq<Task>, queue: seq<Task>, pending: set<Peer>)
    requires pending == PeersOf(busy + queue) && DistinctPeers(busy + queue)
    ensures pending - PeersOf(queue) == PeersOf(busy) && DistinctPeers(busy)
  {
    var ts := busy + queue;
    forall i, j | 0 <= i < j < |busy| ensures busy[i].peer != busy[j].peer {
      assert ts[i].peer != ts[j].peer;
    }
    PeersConcat(busy, queue);
    forall p | p in PeersOf(busy) ensures p !in PeersOf(queue) {
      PeerIn(busy, p);
      PeerIn(queue, p);
      var i :| 0 <= i < |busy| && busy[i].peer == p;
      forall j | 0 <= j < |queue| ensures queue[j].peer != p {
        assert ts[i].peer != ts[|busy| + j].peer;
      }
    }
  }

  lemma {:induction false} PeersConcat(a: seq<Task>, b: seq<Task>)
    ensures PeersOf(a + b) == PeersOf(a) + PeersOf(b)
  {
    if b == [] {
      assert a + b == a;
    } else {
      var rest := b[..|b| - 1];
      PeersConcat(a, rest);
      assert (a + b)[..|a + b| - 1] == a + rest;
    }
  }

  lemma CallKeepsPending(w: World, v: World, peer: Peer)
    requires Inv(w) && Calls(w, v, peer)
    ensures PendingExact(v)
  {
    if Admit(w.shared, peer) == Accepted {
      var ts, t := Busy(w.worker) + w.shared.queue, Task(|w.accepted|, peer);
      AcceptKeepsPending(ts, w.shared.pending, t);
      assert Busy(v.worker) + v.shared.queue == ts + [t];
    }
  }

  lemma StepKeepsPending(w: World, v: World)
    requires Inv(w) && Step(w, v)
    ensures PendingExact(v)
  {
    var ts := Busy(w.worker) + w.shared.queue;
    if Takes(w, v) {
      assert Busy(v.worker) + v.shared.queue == ts;
    } else if Finishes(w, v) {
      ReleaseKeepsPending(ts, w.shared.pending);
      assert Busy(v.worker) + v.shared.queue == ts[1..];
    } else if Closes(w, v) {
      CloseKeepsPending(Busy(w.worker), w.shared.queue, w.shared.pending);
      assert Busy(v.worker) + v.shared.queue == Busy(w.worker);
    } else if Stops(w, v) || Delivers(w, v) || Flushes(w, v) {
      assert Busy(v.worker) + v.shared.queue == ts;
    } else {
      var peer :| Calls(w, v, peer);
      CallKeepsPending(w, v, peer);
    }
  }

  ghost predicate IsRun(run: seq<World>) {
    run != [] && run[0] == START && forall i, j | 0 <= i < j < |run| && j == i + 1 :: Step(run[i], run[j])
  }

  /** In every interleaving, every state is in order and its pending peers are exact. */
  lemma {:induction false} RunsKeepInv(run: seq<World>, n: nat)
    requires IsRun(run) && n < |run|
    ensures Inv(run[n])
  {
    if n > 0 {
      RunsKeepInv(run, n - 1);
      assert Step(run[n - 1], run[n]);
      StepKeepsOrder(run[n - 1], run[n]);
      StepKeepsPending(run[n - 1], run[n]);
    }
  }

  /** In every reachable state exactly these peers are turned away: the empty one, every one once closed, and those
      with a task that is queued or being worked on. */
  lemma AdmitsExactly(run: seq<World>, n: nat, peer: Peer)
    requires IsRun(run) && n < |run|
    ensures var w := run[n];
            Admit(w.shared, peer) == Accepted <==>
              && peer != "" && !w.shared.closed
              && (w.worker.Working? ==> w.worker.task.peer != peer)
              && forall i | 0 <= i < |w.shared.queue| :: w.shared.queue[i].peer != peer
  {
    RunsKeepInv(run, n);
    var w := run[n];
    PeersConcat(Busy(w.worker), w.shared.queue);
    PeerIn(Busy(w.worker), peer);
    PeerIn(w.shared.queue, peer);
    if w.worker.Working? { assert Busy(w.worker)[0].peer == w.worker.task.peer; }
  }

  /** No accepted task is answered twice. */
  lemma AnsweredOnce(run: seq<World>, n: nat, i: nat, j: nat)
    requires IsRun(run) && n < |run|
    requires var answers := run[n].worked + run[n].refused; i < j < |answers|
    ensures var answers := run[n].worked + run[n].refused; answers[i] != answers[j]
  {
    RunsKeepInv(run, n);
    var w := run[n];
    var answers := w.worked + w.refused;
    var shift := |Current(w.worker)|;
    assert answers[i] == w.accepted[if i < |w.worked| then i else i + shift];
    assert answers[j] == w.accepted[if j < |w.worked| then j else j + shift];
  }

  /** Tasks are started in the order they were accepted: those answered or in hand are a prefix of the accepted ones. */
  lemma FirstInFirstOut(run: seq<World>, n: nat)
    requires IsRun(run) && n < |run|
    ensures run[n].worked + Current(run[n].worker) <= run[n].accepted
  {
    RunsKeepInv(run, n);
  }

  /** Once the closer is done and the worker has stopped, every accepted task has been answered. */
  lemma AllAnswered(run: seq<World>, n: nat)
    requires IsRun(run) && n < |run| && run[n].worker == Stopped && run[n].flushing == []
    ensures run[n].accepted == run[n].worked + run[n].refused
  {
    RunsKeepInv(run, n);
  }

  /** How many steps of the worker and the closer are left until everything accepted is answered. */
  ghost function Left(w: World): (n: nat) {
    3 * |w.shared.queue| + (if w.worker.Working? then 2 else if w.worker.Delivering? then 1 else 0) + |w.flushing|
  }

  /** The worlds follow each other by steps, from `w`, and nothing is accepted meanwhile. */
  ghost predicate Follows(w: World, path: seq<World>) {
    && path != [] && path[0] == w && path[|path|-1].accepted == w.accepted
    && forall i, j | 0 <= i < j < |path| && j == i + 1 :: Step(path[i], path[j])
  }

  lemma FollowsOn(w: World, v: World, path: seq<World>)
    requires Step(w, v) && v.accepted == w.accepted && Follows(v, path)
    ensures Follows(w, [w] + path)
  {
    var longer := [w] + path;
    forall i, j | 0 <= i < j < |longer| && j == i + 1 ensures Step(longer[i], longer[j]) {
      if i > 0 { assert longer[i] == path[i - 1] && longer[j] == path[j - 1]; }
    }
  }

  /** The worker and the closer are never stuck: from every reachable state they can answer all that was accepted, in as
      many steps as are left. */
  lemma {:induction false} CanAnswerAll(w: World) returns (path: seq<World>)
    requires Inv(w)
    ensures Follows(w, path) && |path| == Left(w) + 1
    ensures var end := path[|path|-1]; end.accepted == end.worked + end.refused
    decreases Left(w)
  {
    var v := w;
    if w.worker.Working? {
      v := w.(shared := Released(w.shared, w.worker.task), worker := Delivering(w.worker.task));
      assert Finishes(w, v);
    } else if w.worker.Delivering? {
      v := w.(worker := Idle, worked := w.worked + [w.worker.task]);
      assert Delivers(w, v);
    } else if w.shared.queue != [] {
      v := w.(shared := Dequeued(w.shared), worker := Working(w.shared.queue[0]));
      assert Takes(w, v);
    } else if w.flushing != [] {
      v := w.(flushing := w.flushing[1..], refused := w.refused + [w.flushing[0]]);
      assert Flushes(w, v);
    } else {
      path := [w];
      return;
    }
    StepKeepsOrder(w, v);
    StepKeepsPending(w, v);
    path := CanAnswerAll(v);
    FollowsOn(w, v, path);
    path := [w] + path;
  }

  /** Nothing is accepted or started; answers only move along. */
  ghost predicate OnlyAnswers(w: World, v: World) {
    && v.shared.closed && v.accepted == w.accepted
    && v.worked + Current(v.worker) == w.worked + Current(w.worker)
    && v.refused + v.flushing == w.refused + w.flushing
  }

  /** A step of a closed verifier only moves answers along. */
  lemma ClosedStep(w: World, v: World)
    requires InOrder(w) && w.shared.closed && Step(w, v)
    ensures OnlyAnswers(w, v)
  {
    assert !Takes(w, v) && !Closes(w, v);
  }

  /** After closing, what was queued then is exactly what gets the closed error, in order; nothing else does. */
  lemma {:induction false} QueuedAreRefused(run: seq<World>, c: nat, n: nat)
    requires IsRun(run) && c < n < |run| && Closes(run[c], run[c + 1])
    ensures run[n].shared.closed && run[n].refused + run[n].flushing == run[c].shared.queue
  {
    if n == c + 1 {
      RunsKeepInv(run, c);
    } else {
      QueuedAreRefused(run, c, n - 1);
      ClosedStepOf(run, n);
    }
  }

  lemma ClosedStepOf(run: seq<World>, n: nat)
    requires IsRun(run) && 0 < n < |run| && run[n - 1].shared.closed
    ensures OnlyAnswers(run[n - 1], run[n])
  {
    RunsKeepOrder(run, n - 1);
    StepOf(run, n);
    ClosedStep(run[n - 1], run[n]);
  }

  lemma RunsKeepOrder(run: seq<World>, n: nat)
    requires IsRun(run) && n < |run|
    ensures InOrder(run[n])
  {
    RunsKeepInv(run, n);
  }

  lemma StepOf(run: seq<World>, n: nat)
    requires IsRun(run) && 0 < n < |run|
    ensures Step(run[n - 1], run[n])
  {
    var i, j := n - 1, n;
    assert Step(run[i], run[j]);
  }

  /** Once closed, no task is accepted or started any more. */
  lemma {:induction false} ClosedStartsNothing(run: seq<World>, c: nat, n: nat)
    requires IsRun(run) && c <= n < |run| && run[c].shared.closed
    ensures run[n].shared.closed && run[n].accepted == run[c].accepted
    ensures run[n].worked + Current(run[n].worker) == run[c].worked + Current(run[c].worker)
  {
    if n > c {
      ClosedStartsNothing(run, c, n - 1);
      ClosedStepOf(run, n);
    }
  }
}
