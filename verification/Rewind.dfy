/** The hash-scheme search for a block with state when the head is rewound. */
module Rewind {
  import opened Basics
  import opened Chain

  const FULL_IMMUTABILITY_THRESHOLD: nat := 90000

  /** `NilHeader` is the dereference of a missing parent, which ends the process. */
  datatype Outcome = Rewound(head: Header, rootNumber: nat) | NilHeader

  /** What a rewind is asked for: the state root to pass (or the empty hash), the oldest
      block to look at, and the state roots that are available. */
  datatype Search = Search(root: Hash, limit: nat, states: set<Hash>)

  /** The pivot of a snap sync, or as far back as the history a node relies on. */
  function LimitFor(head: Header, pivot: Option<nat>): (limit: nat)
    ensures pivot.Some? ==> limit == pivot.value
    ensures pivot.None? ==> limit + 90000 == head.number || (limit == 0 && head.number <= 90000)
  {
    if pivot.Some? then pivot.value
    else if head.number > FULL_IMMUTABILITY_THRESHOLD then head.number - FULL_IMMUTABILITY_THRESHOLD
    else 0
  }

  /** `h` and its ancestors, newest first, down to genesis or to the first missing parent. */
  ghost function Walk(store: Store, h: Header): (w: seq<Header>)
    ensures |w| > 0 && w[0] == h
    ensures forall i | 0 <= i < |w| :: w[i].number + i == h.number
    decreases h.number
  {
    var p := GetHeader(store, h.parent, h.number - 1);
    if p.None? then [h] else [h] + Walk(store, p.value)
  }

  /** Block `w[i]` is acceptable: not below the limit, with state, at or below the requested root. */
  ghost predicate Candidate(w: seq<Header>, s: Search, i: nat)
    requires i < |w|
  {
    && w[i].number >= s.limit
    && w[i].root in s.states
    && (s.root == ZERO_HASH || exists j :: 0 <= j <= i && w[j].root == s.root)
  }

  /** Block `w[j]` has the requested root and is looked at before the limit ends the search. */
  ghost predicate Crossed(w: seq<Header>, s: Search, j: nat)
    requires j < |w|
  {
    s.root != ZERO_HASH && w[j].root == s.root && (j == 0 || w[j].number + 1 >= s.limit)
  }

  ghost predicate NoCandidate(w: seq<Header>, s: Search, end: nat)
    requires end <= |w|
  {
    forall i | 0 <= i < end :: !Candidate(w, s, i)
  }

  /** The search runs off the stored chain: it ends at a block above genesis that has state but
      may not be used, because no block met so far has the requested root. */
  ghost predicate RunsOff(w: seq<Header>, s: Search)
    requires |w| > 0
  {
    var last := w[|w|-1];
    && last.number > 0 && last.number >= s.limit
    && last.root in s.states
    && s.root != ZERO_HASH && forall j | 0 <= j < |w| :: w[j].root != s.root
  }

  /** `n` is the number of the highest crossed block among the first `end`, or zero. */
  ghost predicate RootUpTo(w: seq<Header>, s: Search, end: nat, n: nat)
    requires end <= |w|
  {
    || (exists j :: 0 <= j < end && Crossed(w, s, j) && n == w[j].number && forall i | 0 <= i < j :: !Crossed(w, s, i))
    || (n == 0 && forall j | 0 <= j < end :: !Crossed(w, s, j))
  }

  /** The reported root number: that of the highest block crossed, or zero. */
  ghost predicate RootReported(w: seq<Header>, s: Search, n: nat) {
    RootUpTo(w, s, |w|, n)
  }

  /** The head found: the highest acceptable ancestor, or genesis when there is none. */
  ghost predicate HeadFound(w: seq<Header>, s: Search, genesis: Header, head: Header) {
    || (exists i :: 0 <= i < |w| && head == w[i] && Candidate(w, s, i) && NoCandidate(w, s, i))
    || (head == genesis && forall i | 0 <= i < |w| && Candidate(w, s, i) :: w[i].number == 0)
  }

  /** The whole answer of a search over the walk `w`. */
  ghost predicate Answers(w: seq<Header>, s: Search, genesis: Header, r: Outcome)
    requires |w| > 0
  {
    && (r.NilHeader? <==> RunsOff(w, s))
    && (r.Rewound? ==> HeadFound(w, s, genesis, r.head) && RootReported(w, s, r.rootNumber))
  }

  /** Only genesis has number zero. */
  ghost predicate OneGenesis(store: Store, genesis: Header) {
    genesis.number == 0 && forall k | k in store && store[k].number == 0 :: store[k] == genesis
  }

  /** A requested root has been met among the first `end` blocks, or none was requested. */
  ghost predicate Beyond(w: seq<Header>, s: Search, end: nat)
    requires end <= |w|
  {
    s.root == ZERO_HASH || exists j :: 0 <= j < end && w[j].root == s.root
  }

  /** What the search knows before it looks at `w[i]`. */
  ghost predicate Looking(w: seq<Header>, s: Search, i: nat, beyond: bool, n: nat) {
    && i < |w| && Descending(w)
    && NoCandidate(w, s, i)
    && (forall j | 0 <= j < i :: w[j].number >= s.limit)
    && beyond == Beyond(w, s, i)
    && RootUpTo(w, s, i, n)
  }

  /** What it knows after comparing the root of `w[i]`. */
  ghost predicate Looked(w: seq<Header>, s: Search, i: nat, beyond: bool, n: nat) {
    && i < |w| && Descending(w)
    && NoCandidate(w, s, i)
    && (forall j | 0 <= j < i :: w[j].number >= s.limit)
    && beyond == Beyond(w, s, i + 1)
    && RootUpTo(w, s, i + 1, n)
    && (s.root != ZERO_HASH ==> forall j | 0 <= j <= i :: Crossed(w, s, j) <==> w[j].root == s.root)
  }

  ghost predicate Descending(w: seq<Header>) {
    |w| > 0 && forall i | 0 <= i < |w| :: w[i].number + i == w[0].number
  }

  lemma ZeroIsLast(w: seq<Header>, i: nat)
    requires Descending(w) && i < |w| && w[i].number == 0
    ensures i + 1 == |w|
  {
    assert w[|w|-1].number + (|w| - 1) == w[0].number;
  }

  /** One step along the walk. */
  lemma WalkStep(store: Store, w: seq<Header>, i: nat)
    requires i < |w| && Walk(store, w[i]) == w[i..]
    ensures var p := GetHeader(store, w[i].parent, w[i].number - 1);
            && (p.None? <==> i + 1 == |w|)
            && (p.Some? ==> i + 1 < |w| && w[i+1] == p.value && Walk(store, w[i+1]) == w[i+1..])
  {
    var p := GetHeader(store, w[i].parent, w[i].number - 1);
    if p.Some? {
      assert w[i..] == [w[i]] + Walk(store, p.value);
      assert w[i+1..] == w[i..][1..];
      assert w[i+1] == w[i..][1];
    } else {
      assert |w[i..]| == 1;
    }
  }

  lemma Look(w: seq<Header>, s: Search, i: nat, beyond: bool, n: nat)
    requires Looking(w, s, i, beyond, n)
    ensures var hit := !beyond && w[i].root == s.root;
            Looked(w, s, i, beyond || hit, if hit then w[i].number else n)
  {
    assert i > 0 ==> w[i-1].number >= s.limit;
    if s.root != ZERO_HASH {
      forall j | 0 <= j <= i ensures Crossed(w, s, j) <==> w[j].root == s.root {
        assert j > 0 ==> w[j-1].number >= s.limit;
      }
      if beyond {
        var j :| 0 <= j < i && w[j].root == s.root;
        assert Crossed(w, s, j);
      } else {
        assert forall j | 0 <= j < i :: w[j].root != s.root;
      }
    }
  }

  /** The answer when no acceptable block is left: genesis. */
  lemma GiveUp(w: seq<Header>, s: Search, i: nat, beyond: bool, n: nat, genesis: Header)
    requires Looked(w, s, i, beyond, n)
    requires w[i].number < s.limit || (w[i].root !in s.states && i + 1 == |w|)
    ensures Answers(w, s, genesis, Rewound(genesis, n))
  {
    if w[i].number < s.limit {
      assert forall j | i < j < |w| :: w[j].number < s.limit - 1 && !Crossed(w, s, j) && !Candidate(w, s, j);
    }
  }

  /** The answer when an acceptable block is met, or genesis is met with state. */
  lemma Accept(w: seq<Header>, s: Search, i: nat, beyond: bool, n: nat, genesis: Header)
    requires Looked(w, s, i, beyond, n)
    requires w[i].number >= s.limit && w[i].root in s.states && (beyond || w[i].number == 0)
    requires w[i].number == 0 ==> w[i] == genesis
    ensures Answers(w, s, genesis, Rewound(w[i], n))
  {
    if beyond && s.root != ZERO_HASH {
      var j :| 0 <= j < i + 1 && w[j].root == s.root;
      assert Crossed(w, s, j);
    } else if beyond {
      assert forall j | 0 <= j < |w| :: !Crossed(w, s, j);
    } else {
      ZeroIsLast(w, i);
    }
    if beyond { assert Candidate(w, s, i); }
  }

  /** Stepping to the parent keeps the search going. */
  lemma Continue(w: seq<Header>, s: Search, i: nat, beyond: bool, n: nat)
    requires Looked(w, s, i, beyond, n) && i + 1 < |w|
    requires w[i].number >= s.limit && (w[i].root !in s.states || !beyond)
    ensures Looking(w, s, i + 1, beyond, n)
  {
  }

  /** Genesis itself ends the search without another look. */
  lemma ReachGenesis(w: seq<Header>, s: Search, i: nat, beyond: bool, n: nat, genesis: Header)
    requires Looking(w, s, i, beyond, n) && w[i].number == 0 && w[i] == genesis
    ensures Answers(w, s, genesis, Rewound(genesis, n))
  {
    ZeroIsLast(w, i);
    if Crossed(w, s, i) && forall j | 0 <= j < i :: !Crossed(w, s, j) {
      assert n == w[i].number;
    }
  }

  /** A block that has state but may not be used, with no parent stored, has no continuation. */
  lemma RunOff(w: seq<Header>, s: Search, i: nat, n: nat, genesis: Header)
    requires Looked(w, s, i, false, n) && i + 1 == |w|
    requires w[i].number >= s.limit && w[i].number > 0 && w[i].root in s.states
    ensures Answers(w, s, genesis, NilHeader)
  {
  }

  /** What one look at a block leads to: the end of the search, or its parent. */
  datatype Decision = Stop(outcome: Outcome) | Next(head: Header, beyondRoot: bool, rootNumber: nat)

  /** The search stands at `head`, the `i`-th block of the walk. */
  ghost predicate Standing(store: Store, genesis: Header, w: seq<Header>, s: Search, i: nat, head: Header, beyond: bool, n: nat) {
    && i < |w| && head == w[i] && Walk(store, head) == w[i..]
    && Looking(w, s, i, beyond, n)
    && (head.number == 0 ==> head == genesis)
  }

  /** One iteration of the search. */
  method Visit(store: Store, genesis: Header, s: Search, head: Header, beyond0: bool, rootNumber0: nat, ghost w: seq<Header>, ghost i: nat)
    returns (d: Decision)
    requires OneGenesis(store, genesis) && Standing(store, genesis, w, s, i, head, beyond0, rootNumber0)
    ensures d.Stop? ==> Answers(w, s, genesis, d.outcome)
    ensures d.Next? ==> d.head.number < head.number && Standing(store, genesis, w, s, i + 1, d.head, d.beyondRoot, d.rootNumber)
  {
    var beyondRoot, rootNumber := beyond0, rootNumber0;
    Look(w, s, i, beyondRoot, rootNumber);
    WalkStep(store, w, i);
    if !beyondRoot && head.root == s.root {
      beyondRoot, rootNumber := true, head.number;
    }
    if head.number < s.limit {
      GiveUp(w, s, i, beyondRoot, rootNumber, genesis);
      return Stop(Rewound(genesis, rootNumber));
    }
    var parent := GetHeader(store, head.parent, head.number - 1);
    if head.root !in s.states {
      if parent.None? {
        GiveUp(w, s, i, beyondRoot, rootNumber, genesis);
        return Stop(Rewound(genesis, rootNumber));
      }
      Continue(w, s, i, beyondRoot, rootNumber);
      if parent.value.number == 0 {
        ReachGenesis(w, s, i + 1, beyondRoot, rootNumber, genesis);
        return Stop(Rewound(parent.value, rootNumber));
      }
      return Next(parent.value, beyondRoot, rootNumber);
    }
    if beyondRoot || head.number == 0 {
      Accept(w, s, i, beyondRoot, rootNumber, genesis);
      return Stop(Rewound(head, rootNumber));
    }
    if parent.None? {
      RunOff(w, s, i, rootNumber, genesis);
      return Stop(NilHeader);
    }
    Continue(w, s, i, beyondRoot, rootNumber);
    return Next(parent.value, beyondRoot, rootNumber);
  }

  method RewindHashHead(store: Store, genesis: Header, start: Header, root: Hash, pivot: Option<nat>, states: set<Hash>)
    returns (r: Outcome)
    requires OneGenesis(store, genesis) && (start.number == 0 ==> start == genesis)
    ensures Answers(Walk(store, start), Search(root, LimitFor(start, pivot), states), genesis, r)
    ensures r.Rewound? && r.head != genesis ==>
              && r.head in Walk(store, start) && r.head.root in states
              && (pivot.Some? ==> r.head.number >= pivot.value) && (pivot.None? ==> r.head.number + 90000 >= start.number)
  {
    var s := Search(root, LimitFor(start, pivot), states);
    ghost var w := Walk(store, start);
    ghost var i := 0;
    assert w[0..] == w;
    var head, beyondRoot, rootNumber := start, root == ZERO_HASH, 0;
    while true
      invariant Standing(store, genesis, w, s, i, head, beyondRoot, rootNumber)
      decreases head.number
    {
      var d := Visit(store, genesis, s, head, beyondRoot, rootNumber, w, i);
      match d
      case Stop(outcome) => return outcome;
      case Next(next, beyond, number) =>
        head, beyondRoot, rootNumber := next, beyond, number;
        i := i + 1;
    }
  }

  /** On a closed store the search always ends with a head: the walk reaches genesis. */
  lemma {:induction false} ClosedNeverRunsOff(store: Store, genesis: Header, h: Header, s: Search)
    requires Closed(store, genesis) && Stored(store, h)
    ensures Walk(store, h)[|Walk(store, h)|-1] == genesis
    ensures !RunsOff(Walk(store, h), s)
    decreases h.number
  {
    assert WellLinked(store, genesis, h.hash);
    if h.number > 0 {
      var p := ParentOf(store, genesis, h);
      ClosedNeverRunsOff(store, genesis, p, s);
      assert Walk(store, h) == [h] + Walk(store, p);
    }
  }

  /** With a gap in the store it can fail: a stored block with state whose parent is missing,
      when the root asked for lies below the gap. */
  lemma GapRunsOff()
    ensures exists store: Store, genesis: Header, h: Header, root: Hash, states: set<Hash> ::
              && OneGenesis(store, genesis) && Stored(store, genesis) && Stored(store, h)
              && RunsOff(Walk(store, h), Search(root, LimitFor(h, None), states))
  {
    var genesis, h := Header(1, ZERO_HASH, 0, 2, 0), Header(7, 6, 5, 9, 0);
    var store: Store := map[1 := genesis, 7 := h];
    assert GetHeader(store, h.parent, h.number - 1) == None;
    assert Walk(store, h) == [h];
    assert OneGenesis(store, genesis) && Stored(store, genesis) && Stored(store, h);
    assert RunsOff(Walk(store, h), Search(8, LimitFor(h, None), {9}));
  }
}
