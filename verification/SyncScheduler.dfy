/** The LQC fork-recovery scheduler: one worker, one current and one pending target,
    changed by concurrent handlers under a mutex. Every mutex-protected section is one step. */
module SyncScheduler {
  import opened Basics
  import opened Chain
  import opened ForkChoice

  /** A head to recover to, and the peer that advertised it. */
  datatype Target = Target(peer: nat, header: Header)

  /** A peer's advertised head; absent until it announces one. */
  type Range = Option<(nat, Hash)>

  predicate Better(candidate: Option<Target>, current: Option<Target>) {
    if candidate.None? then false
    else if current.None? then true
    else
      var c, d := candidate.value.header, current.value.header;
      if c.number != d.number then c.number > d.number else c.hash != d.hash && c.hash < d.hash
  }

  /** Competing targets are compared by the fork choice. */
  lemma BetterIsAhead(candidate: Target, current: Target)
    ensures Better(Some(candidate), Some(current)) <==> Ahead(candidate.header, current.header)
    ensures Better(Some(candidate), Some(current)) <==> Prefer(Some(current.header), Some(candidate.header))
  {
  }

  predicate RangeContains(range: Range, number: nat, hash: Hash) {
    if range.None? then true
    else if range.value.0 != number then range.value.0 > number
    else range.value.1 == hash
  }

  /** A peer that advertises this range no longer has the target. */
  ghost predicate Dropped(range: Range, h: Header) {
    range.Some? && (range.value.0 < h.number || (range.value.0 == h.number && range.value.1 != h.hash))
  }

  /** The candidate is ahead of the pending target, and of the current one unless the candidate's own peer was to
      provide that and has dropped it. */
  ghost predicate Supersedes(s: Slots, candidate: Target, range: Range) {
    && (s.pending.Some? ==> Ahead(candidate.header, s.pending.value.header))
    && (s.current.Some? && !(s.current.value.peer == candidate.peer && Dropped(range, s.current.value.header)) ==>
          Ahead(candidate.header, s.current.value.header))
  }

  /** The fields the mutex protects. */
  datatype Slots = Slots(running: bool, current: Option<Target>, pending: Option<Target>)

  /** What scheduling an admitted target does to the slots. A stopped scheduler also starts a worker. */
  function Scheduled(s: Slots, candidate: Target, range: Range): (r: Slots)
    ensures r.running
  {
    if !s.running then s.(running := true, current := Some(candidate))
    else if s.current.Some? && s.current.value.peer == candidate.peer
            && !RangeContains(range, s.current.value.header.number, s.current.value.header.hash) then
      if s.pending.None? || Better(Some(candidate), s.pending) then s.(pending := Some(candidate)) else s
    else
      var best := if Better(s.pending, s.current) then s.pending else s.current;
      if Better(Some(candidate), best) then s.(pending := Some(candidate)) else s
  }

  function TakenPending(s: Slots): (r: Slots) {
    Slots(s.running && s.pending.Some?, s.pending, None)
  }

  function TakenBetter(s: Slots, current: Target): (r: (Slots, Option<Target>)) {
    if Better(s.pending, Some(current)) then (s.(pending := None), s.pending) else (s, None)
  }

  function Restored(s: Slots, target: Target): (r: Slots) {
    if Better(Some(target), s.pending) then s.(pending := Some(target)) else s
  }

  function Retried(s: Slots, target: Target): (r: (Slots, Target)) {
    if s.pending.Some? then (s.(current := s.pending, pending := None), s.pending.value)
    else (s.(current := Some(target)), target)
  }

  const STOPPED := Slots(false, None, None)

  class Scheduler {
    var running: bool
    var current: Option<Target>
    var pending: Option<Target>

    function Abs(): (s: Slots)
      reads this
    {
      Slots(running, current, pending)
    }

    /** `chainHead` and `range` are what the chain and the peer report at this moment. */
    method Schedule(candidate: Target, chainHead: Option<Header>, range: Range) returns (admitted: bool, spawn: bool)
      modifies this
      ensures admitted <==> ShouldStartSync(chainHead, candidate.header.number, candidate.header.hash)
      ensures Abs() == if admitted then Scheduled(old(Abs()), candidate, range) else old(Abs())
      ensures admitted && !old(running) ==> Abs() == Slots(true, Some(candidate), old(pending))
      ensures admitted && old(running) ==>
                running && current == old(current)
                && pending == if Supersedes(old(Abs()), candidate, range) then Some(candidate) else old(pending)
      ensures spawn <==> admitted && !old(running)
    {
      if !ShouldStartSync(chainHead, candidate.header.number, candidate.header.hash) {
        return false, false;
      }
      if !running {
        running := true;
        current := Some(candidate);
        return true, true;
      }
      if current.Some? && current.value.peer == candidate.peer
         && !RangeContains(range, current.value.header.number, current.value.header.hash) {
        if pending.None? || Better(Some(candidate), pending) {
          pending := Some(candidate);
        }
        return true, false;
      }
      var best := current;
      if Better(pending, best) {
        best := pending;
      }
      if Better(Some(candidate), best) {
        pending := Some(candidate);
      }
      return true, false;
    }

    method TakePending() returns (next: Option<Target>)
      modifies this
      ensures next == old(pending) && Abs() == TakenPending(old(Abs()))
      ensures current == next && pending == None && running == (old(running) && next.Some?)
    {
      next := pending;
      pending := None;
      current := next;
      if next.None? {
        running := false;
      }
    }

    method TakeBetter(than: Target) returns (next: Option<Target>)
      modifies this
      ensures (Abs(), next) == TakenBetter(old(Abs()), than)
      ensures next.Some? <==> old(pending).Some? && Ahead(old(pending).value.header, than.header)
      ensures next.Some? ==> next == old(pending) && pending == None
      ensures next.None? ==> pending == old(pending)
      ensures running == old(running) && current == old(current)
    {
      if !Better(pending, Some(than)) {
        return None;
      }
      next := pending;
      pending := None;
    }

    method Restore(target: Target)
      modifies this
      ensures Abs() == Restored(old(Abs()), target)
      ensures pending == if old(pending).None? || Ahead(target.header, old(pending).value.header) then Some(target) else old(pending)
      ensures running == old(running) && current == old(current)
    {
      if Better(Some(target), pending) {
        pending := Some(target);
      }
    }

    method Retry(target: Target) returns (next: Target)
      modifies this
      ensures (Abs(), next) == Retried(old(Abs()), target)
      ensures next == if old(pending).Some? then old(pending).value else target
      ensures running == old(running) && current == Some(next) && pending == None
    {
      next := target;
      if pending.Some? {
        next := pending.value;
        pending := None;
      }
      current := Some(next);
    }

    method Shutdown()
      modifies this
      ensures Abs() == STOPPED
    {
      running, current, pending := false, None, None;
    }
  }

  /** Where a worker is: working on a target, holding a better one it has taken, or
      having switched to that one without having published it yet. */
  datatype Phase = Working(target: Target) | Holding(target: Target, next: Target) | Switching(next: Target)

  /** Slots and workers, with the targets still owed: admitted since the last shutdown, and no target at least as good
      was current at their admission or has become current since. */
  datatype State = State(slots: Slots, workers: map<nat, Phase>, owed: set<Target>)

  datatype Step =
    | Admit(candidate: Target, range: Range, id: nat)
    | TakeNext(id: nat)
    | TakeImproved(id: nat)
    | PutBack(id: nat)
    | Switch(id: nat)
    | Publish(id: nat)
    | TryAgain(id: nat)
    | Quit(id: nat)

  const INITIAL := State(STOPPED, map[], {})

  predicate Enabled(s: State, step: Step) {
    match step
    case Admit(_, _, id) => id !in s.workers
    case TakeNext(id) => id in s.workers && s.workers[id].Working?
    case TakeImproved(id) => id in s.workers && s.workers[id].Working?
    case PutBack(id) => id in s.workers && s.workers[id].Holding?
    case Switch(id) => id in s.workers && s.workers[id].Holding?
    case Publish(id) => id in s.workers && s.workers[id].Switching?
    case TryAgain(id) => id in s.workers && s.workers[id].Working?
    case Quit(id) => id in s.workers && s.workers[id].Working?
  }

  /** What a step does to slots and workers; an admission adds what is owed. */
  function Move(s: State, step: Step): (r: State)
    requires Enabled(s, step)
  {
    match step
    case Admit(c, range, id) =>
      var started := State(Scheduled(s.slots, c, range), s.workers, s.owed + {c});
      if s.slots.running then started else started.(workers := s.workers[id := Working(c)])
    case TakeNext(id) =>
      var slots := TakenPending(s.slots);
      if slots.current.None? then s.(slots := slots, workers := s.workers - {id})
      else s.(slots := slots, workers := s.workers[id := Working(slots.current.value)])
    case TakeImproved(id) =>
      var t := s.workers[id].target;
      var (slots, next) := TakenBetter(s.slots, t);
      if next.None? then s else s.(slots := slots, workers := s.workers[id := Holding(t, next.value)])
    case PutBack(id) =>
      s.(slots := Restored(s.slots, s.workers[id].next), workers := s.workers[id := Working(s.workers[id].target)])
    case Switch(id) => s.(workers := s.workers[id := Switching(s.workers[id].next)])
    case Publish(id) =>
      var next := s.workers[id].next;
      s.(slots := s.slots.(current := Some(next)), workers := s.workers[id := Working(next)])
    case TryAgain(id) =>
      var (slots, next) := Retried(s.slots, s.workers[id].target);
      s.(slots := slots, workers := s.workers[id := Working(next)])
    case Quit(id) => State(STOPPED, s.workers - {id}, {})
  }

  /** A current target settles whatever it is at least as good as. */
  function Apply(s: State, step: Step): (r: State)
    requires Enabled(s, step)
  {
    var r := Move(s, step);
    r.(owed := Unmet(r.owed, r.slots))
  }

  /** `y` is at least as good as `x`. */
  predicate Covers(y: Target, x: Target) {
    !Better(Some(x), Some(y))
  }

  /** The current target is at least as good as `x`. */
  predicate Met(slots: Slots, x: Target) {
    slots.current.Some? && Covers(slots.current.value, x)
  }

  function Unmet(xs: set<Target>, slots: Slots): (r: set<Target>) {
    set x | x in xs && !Met(slots, x)
  }

  /** The targets that will become current: the pending one, and the one a worker holds. */
  ghost function InFlight(s: State): (r: set<Target>) {
    (if s.slots.pending.Some? then {s.slots.pending.value} else {})
    + (set id | id in s.workers && !s.workers[id].Working? :: s.workers[id].next)
  }

  ghost predicate Covered(known: set<Target>, x: Target) {
    exists y :: y in known && Covers(y, x)
  }

  /** The worker exists exactly while the scheduler runs, and there is never a second one. */
  ghost predicate OneWorker(s: State) {
    if s.slots.running then exists id :: s.workers.Keys == {id} else s.workers.Keys == {}
  }

  /** A stopped scheduler has no target; a running one has a current target, which is the one its
      worker works on except while a switch is being published. */
  ghost predicate SlotsMatch(s: State) {
    && (!s.slots.running ==> s.slots == STOPPED)
    && (s.slots.running ==> s.slots.current.Some?)
    && (forall id | id in s.workers && !s.workers[id].Switching? :: s.slots.current == Some(s.workers[id].target))
  }

  /** No target that is owed is lost: one at least as good is pending or held. */
  ghost predicate NoneLost(s: State) {
    forall x | x in s.owed :: Covered(InFlight(s), x)
  }

  ghost predicate Inv(s: State) {
    OneWorker(s) && SlotsMatch(s) && NoneLost(s)
  }

  lemma CoversTransitive(x: Target, y: Target, z: Target)
    requires Covers(y, x) && Covers(z, y)
    ensures Covers(z, x)
  {
  }

  lemma WorkersMatch(s: State, step: Step)
    requires Inv(s) && Enabled(s, step)
    ensures OneWorker(Apply(s, step)) && SlotsMatch(Apply(s, step))
  {
    var r := Apply(s, step);
    if step.Admit? {
      if !s.slots.running { assert r.workers.Keys == {step.id}; }
    } else {
      assert s.workers.Keys == {step.id};
      assert r.workers.Keys == {step.id} || r.workers.Keys == {};
    }
  }

  /** What is in flight stays in flight or becomes current, up to targets at least as good. */
  lemma FlightKept(s: State, step: Step, y: Target)
    requires Inv(s) && Enabled(s, step) && !step.Quit? && y in InFlight(s)
    ensures Met(Apply(s, step).slots, y) || Covered(InFlight(Apply(s, step)), y)
  {
    var r := Apply(s, step);
    if !step.Admit? { assert s.workers.Keys == {step.id}; }
    assert step.TakeImproved? && r.workers != s.workers ==> r.workers[step.id].next in InFlight(r);
    assert step.Switch? ==> r.workers[step.id].next in InFlight(r);
    if y in InFlight(r) {
      assert Covers(y, y);
    } else if r.slots.pending.Some? && Covers(r.slots.pending.value, y) {
      assert r.slots.pending.value in InFlight(r);
    }
  }

  /** A newly admitted target is met at once, or in flight, or not better than one that is. */
  lemma AdmittedInFlight(s: State, step: Step)
    requires Inv(s) && Enabled(s, step) && step.Admit?
    ensures Met(Apply(s, step).slots, step.candidate) || Covered(InFlight(Apply(s, step)), step.candidate)
  {
    var r := Apply(s, step);
    if r.slots.pending.Some? && Covers(r.slots.pending.value, step.candidate) {
      assert r.slots.pending.value in InFlight(r);
    }
  }

  /** What a worker's steps do: it takes a pending target that is ahead of its own and holds it, puts it back, switches
      to it, or goes on with whatever is pending. */
  lemma WorkerSteps(s: State, step: Step)
    requires Inv(s) && Enabled(s, step) && !step.Admit?
    ensures var (w, r, pending) := (s.workers[step.id], Apply(s, step), s.slots.pending);
            match step
            case TakeImproved(id) =>
              if pending.Some? && Ahead(pending.value.header, w.target.header)
              then r.workers == map[id := Holding(w.target, pending.value)] && r.slots == s.slots.(pending := None)
              else r.workers == s.workers && r.slots == s.slots
            case PutBack(id) =>
              && r.workers == map[id := Working(w.target)]
              && r.slots.pending == if pending.None? || Ahead(w.next.header, pending.value.header) then Some(w.next) else pending
            case Switch(id) => r.workers == map[id := Switching(w.next)] && r.slots == s.slots
            case Publish(id) => r.workers == map[id := Working(w.next)] && r.slots == s.slots.(current := Some(w.next))
            case TryAgain(id) =>
              var next := if pending.Some? then pending.value else w.target;
              r.workers == map[id := Working(next)] && r.slots == Slots(true, Some(next), None)
            case TakeNext(id) =>
              if pending.Some? then r.workers == map[id := Working(pending.value)] && r.slots == Slots(true, pending, None)
              else r.workers == map[] && r.slots == STOPPED
            case Quit(id) => r == INITIAL
            case Admit(_, _, _) => true
  {
    assert s.workers.Keys == {step.id};
  }

  lemma StepKeepsInv(s: State, step: Step)
    requires Inv(s) && Enabled(s, step)
    ensures Inv(Apply(s, step))
  {
    WorkersMatch(s, step);
    var r := Apply(s, step);
    forall x | x in r.owed ensures Covered(InFlight(r), x) {
      if x in s.owed {
        var y :| y in InFlight(s) && Covers(y, x);
        FlightKept(s, step, y);
        StillCovered(r, x, y);
      } else {
        AdmittedInFlight(s, step);
      }
    }
  }

  /** What is owed is covered by whatever covers a target that covered it. */
  lemma StillCovered(r: State, x: Target, y: Target)
    requires Covers(y, x) && !Met(r.slots, x) && (Met(r.slots, y) || Covered(InFlight(r), y))
    ensures Covered(InFlight(r), x)
  {
    if Met(r.slots, y) {
      CoversTransitive(x, y, r.slots.current.value);
    } else {
      var z :| z in InFlight(r) && Covers(z, y);
      CoversTransitive(x, y, z);
    }
  }

  ghost predicate Stepped(s: State, step: Step, r: State) {
    Enabled(s, step) && r == Apply(s, step)
  }

  /** The states a sequence of steps goes through. */
  ghost predicate IsRun(states: seq<State>, steps: seq<Step>) {
    && |states| == |steps| + 1 && states[0] == INITIAL
    && forall i, j | 0 <= i < |steps| && j == i + 1 :: Stepped(states[i], steps[i], states[j])
  }

  /** Every interleaving of schedulers and workers keeps the invariant, from start to finish. */
  lemma {:induction false} RunsKeepInv(states: seq<State>, steps: seq<Step>, i: nat)
    requires IsRun(states, steps) && i < |states|
    ensures Inv(states[i])
    decreases i
  {
    if i > 0 {
      RunsKeepInv(states, steps, i - 1);
      assert Stepped(states[i-1], steps[i-1], states[i]);
      StepKeepsInv(states[i-1], steps[i-1]);
    }
  }

  /** In every reachable state the node counts as recovering exactly while a worker runs. */
  lemma BusyIsRunning(states: seq<State>, steps: seq<Step>, i: nat)
    requires IsRun(states, steps) && i < |states|
    ensures |states[i].workers| <= 1
    ensures var s := states[i].slots;
            (s.running || s.current.Some? || s.pending.Some?) <==> |states[i].workers| == 1
  {
    RunsKeepInv(states, steps, i);
    assert |states[i].workers| == |states[i].workers.Keys|;
  }

  /** An admitted target stays owed until one at least as good is current. */
  lemma {:induction false} OwedUntilTried(states: seq<State>, steps: seq<Step>, k: nat, i: nat, x: Target)
    requires IsRun(states, steps) && k < i < |states| && steps[k].Admit? && steps[k].candidate == x
    requires forall j | k <= j < i :: !steps[j].Quit?
    ensures x in states[i].owed || exists j :: k < j <= i && Met(states[j].slots, x)
    decreases i
  {
    assert Stepped(states[i-1], steps[i-1], states[i]);
    if i > k + 1 {
      OwedUntilTried(states, steps, k, i - 1, x);
      assert !steps[i-1].Quit?;
    }
  }

  /** The steps lead from one state to another. */
  ghost predicate Leads(s: State, steps: seq<Step>, r: State)
    decreases steps
  {
    if steps == [] then r == s else Enabled(s, steps[0]) && Leads(Apply(s, steps[0]), steps[1..], r)
  }

  lemma LeadsOn(s: State, step: Step, steps: seq<Step>, r: State)
    requires Enabled(s, step) && Leads(Apply(s, step), steps, r)
    ensures Leads(s, [step] + steps, r)
  {
    assert ([step] + steps)[1..] == steps;
  }

  /** A worker is never stuck: from any state it can reach, in at most four steps of its own, it publishes what it holds,
      works on what is pending, and rests with nothing owed. */
  lemma CanRest(s: State) returns (steps: seq<Step>, r: State)
    requires Inv(s)
    ensures |steps| <= 4 && (forall step | step in steps :: step.Switch? || step.Publish? || step.TakeNext?)
    ensures Leads(s, steps, r) && r.slots == STOPPED && r.workers == map[] && r.owed == {}
  {
    if !s.slots.running {
      steps, r := [], s;
      RestOwesNothing(s);
      assert s.workers.Keys == {};
    } else {
      var id :| s.workers.Keys == {id};
      assert id in s.workers;
      if s.workers[id].Working? {
        steps, r := RestsFromWork(s, id);
      } else {
        var t := s;
        if s.workers[id].Holding? {
          StepKeepsInv(s, Switch(id));
          t := Apply(s, Switch(id));
        }
        StepKeepsInv(t, Publish(id));
        var u := Apply(t, Publish(id));
        assert u.workers.Keys == {id};
        steps, r := RestsFromWork(u, id);
        LeadsOn(t, Publish(id), steps, r);
        steps := [Publish(id)] + steps;
        if s.workers[id].Holding? {
          LeadsOn(s, Switch(id), steps, r);
          steps := [Switch(id)] + steps;
        }
      }
    }
  }

  lemma RestsFromWork(s: State, id: nat) returns (steps: seq<Step>, r: State)
    requires Inv(s) && s.slots.running && s.workers.Keys == {id} && s.workers[id].Working?
    ensures 1 <= |steps| <= 2 && forall step | step in steps :: step.TakeNext?
    ensures Leads(s, steps, r) && r.slots == STOPPED && r.workers == map[] && r.owed == {}
  {
    var next := TakeNext(id);
    StepKeepsInv(s, next);
    var t := Apply(s, next);
    if s.slots.pending.None? {
      steps, r := [next], t;
      RestOwesNothing(t);
      assert t.workers.Keys == {};
      LeadsOn(s, next, [], t);
    } else {
      assert t.workers.Keys == {id};
      StepKeepsInv(t, next);
      r := Apply(t, next);
      RestOwesNothing(r);
      assert r.workers.Keys == {};
      LeadsOn(t, next, [], r);
      LeadsOn(s, next, [next], r);
      steps := [next] + [next];
    }
  }

  /** A resting scheduler owes nothing: every target admitted since the last shutdown was worked on after its
      admission, or one at least as good was. */
  lemma RestMeansTried(states: seq<State>, steps: seq<Step>, k: nat, i: nat, x: Target)
    requires IsRun(states, steps) && k < i < |states| && steps[k].Admit? && steps[k].candidate == x
    requires !states[i].slots.running && forall j | k <= j < i :: !steps[j].Quit?
    ensures states[i].owed == {}
    ensures exists j :: k < j <= i && Met(states[j].slots, x)
  {
    RunsKeepInv(states, steps, i);
    RestOwesNothing(states[i]);
    OwedUntilTried(states, steps, k, i, x);
  }

  lemma RestOwesNothing(s: State)
    requires Inv(s) && !s.slots.running
    ensures s.owed == {}
  {
    assert InFlight(s) == {};
    assert forall x :: !Covered(InFlight(s), x);
  }
}
