/** The pool of committee participation claims: bounded by the claim window, offered in a fixed order. */
module ClaimPools {
  const LIMIT: nat := 128
  const WINDOW: nat := 8

  datatype Key = Key(target: nat, position: nat)

  type Signature = seq<nat>

  datatype Participation = Participation(position: nat, signature: Signature)

  datatype Group = Group(target: nat, items: seq<Participation>)

  type Claims = map<Key, Signature>

  datatype Outcome = Added(changed: bool) | Invalid | Conflict

  predicate Less(a: Key, b: Key) {
    a.target < b.target || (a.target == b.target && a.position < b.position)
  }

  ghost predicate Ascending(ks: seq<Key>) {
    forall i, j | 0 <= i < j < |ks| :: Less(ks[i], ks[j])
  }

  predicate InWindow(k: Key, block: nat) {
    k.target < block && block - k.target <= WINDOW
  }

  /** The claims an inclusion block may carry: stored, in the window and not claimed before. */
  ghost function Eligible(claims: Claims, block: nat, claimed: Key -> bool): (s: set<Key>) {
    set k | k in claims && InWindow(k, block) && !claimed(k)
  }

  /** The claims still in the window, or among those not looked at yet. */
  ghost function Kept(claims: Claims, block: nat, todo: set<Key>): (r: Claims) {
    map k | k in claims && (k in todo || InWindow(k, block)) :: claims[k]
  }

  ghost function SeenEligible(claims: Claims, block: nat, claimed: Key -> bool, todo: set<Key>): (s: set<Key>) {
    set k | k in claims && k !in todo && InWindow(k, block) && !claimed(k)
  }

  function KeysOf(g: Group): (ks: seq<Key>)
    ensures |ks| == |g.items|
    ensures forall i | 0 <= i < |ks| :: ks[i] == Key(g.target, g.items[i].position)
  {
    seq(|g.items|, i requires 0 <= i < |g.items| => Key(g.target, g.items[i].position))
  }

  /** All claims of a list of groups, in order. */
  function Flatten(groups: seq<Group>): (ks: seq<Key>) {
    if groups == [] then [] else Flatten(groups[..|groups|-1]) + KeysOf(groups[|groups|-1])
  }

  lemma FlattenOneMore(groups: seq<Group>, g: Group)
    ensures Flatten(groups + [g]) == Flatten(groups) + KeysOf(g)
  {
    assert (groups + [g])[..|groups|] == groups;
  }

  /** The groups carry the signatures that are stored. */
  ghost predicate Carries(groups: seq<Group>, claims: Claims) {
    forall i, j | 0 <= i < |groups| && 0 <= j < |groups[i].items| ::
      var k := Key(groups[i].target, groups[i].items[j].position);
      k in claims && groups[i].items[j].signature == claims[k]
  }

  /** Groups are never empty, and their targets ascend. */
  ghost predicate WellGrouped(groups: seq<Group>) {
    && (forall i | 0 <= i < |groups| :: groups[i].items != [])
    && (forall i, j | 0 <= i < j < |groups| :: groups[i].target < groups[j].target)
  }

  /** The listed claims are the first of the eligible ones: as many as allowed, in order, none passed over. */
  ghost predicate FirstOf(ks: seq<Key>, eligible: set<Key>) {
    && Ascending(ks)
    && |ks| == (if |eligible| < LIMIT then |eligible| else LIMIT)
    && (forall i | 0 <= i < |ks| :: ks[i] in eligible)
    && (forall i, e | 0 <= i < |ks| && e in eligible && e !in ks :: Less(ks[i], e))
  }

  /** The groups are the first of the eligible claims, well grouped, with their stored signatures. */
  ghost predicate Selected(groups: seq<Group>, eligible: set<Key>, claims: Claims) {
    FirstOf(Flatten(groups), eligible) && WellGrouped(groups) && Carries(groups, claims)
  }

  ghost function SetOf(ks: seq<Key>): (s: set<Key>) {
    set k | k in ks
  }

  /** An ascending list has no repetition. */
  lemma {:induction false} AscendingSize(ks: seq<Key>)
    requires Ascending(ks)
    ensures |SetOf(ks)| == |ks|
  {
    if ks == [] {
      assert SetOf(ks) == {};
    } else {
      var rest, last := ks[..|ks|-1], ks[|ks|-1];
      AscendingSize(rest);
      assert last !in rest;
      assert SetOf(ks) == SetOf(rest) + {last};
    }
  }

  lemma Subset(s: set<Key>, t: set<Key>)
    requires s <= t
    ensures |s| <= |t|
  {
    assert t == s + (t - s);
  }

  /** There is only one such list. */
  lemma FirstIsUnique(a: seq<Key>, b: seq<Key>, eligible: set<Key>)
    requires FirstOf(a, eligible) && FirstOf(b, eligible)
    ensures a == b
  {
    forall i | 0 <= i < |a| ensures a[i] == b[i] {
      SamePrefix(a, b, eligible, i);
    }
  }

  lemma {:induction false} SamePrefix(a: seq<Key>, b: seq<Key>, eligible: set<Key>, n: nat)
    requires FirstOf(a, eligible) && FirstOf(b, eligible) && n < |a|
    ensures forall i | 0 <= i <= n :: a[i] == b[i]
  {
    if n > 0 { SamePrefix(a, b, eligible, n - 1); }
    if Less(a[n], b[n]) { NotSkipped(b, a, eligible, n); assert false; }
    if Less(b[n], a[n]) { NotSkipped(a, b, eligible, n); assert false; }
  }

  /** A list that passes over a smaller eligible claim is not the first. */
  lemma NotSkipped(a: seq<Key>, b: seq<Key>, eligible: set<Key>, n: nat)
    requires FirstOf(a, eligible) && FirstOf(b, eligible) && n < |a|
    requires forall i | 0 <= i < n :: a[i] == b[i]
    ensures !Less(b[n], a[n])
  {
    assert b[n] in eligible;
    if i: nat :| i < |a| && a[i] == b[n] {
      assert i < n ==> Less(b[i], b[n]);
      assert n < i ==> Less(a[n], a[i]);
    }
  }

  // Adding a group.

  ghost predicate Conflicts(claims: Claims, target: nat, items: seq<Participation>) {
    exists i | 0 <= i < |items| ::
      Key(target, items[i].position) in claims && claims[Key(target, items[i].position)] != items[i].signature
  }

  /** The signature the group's first entry for a position carries. */
  ghost predicate FirstEntry(items: seq<Participation>, position: nat, signature: Signature) {
    exists i | 0 <= i < |items| ::
      && items[i] == Participation(position, signature)
      && forall j | 0 <= j < i :: items[j].position != position
  }

  /** What is stored afterwards: everything that was, and the first entry of each position that was missing. */
  ghost predicate Extended(before: Claims, after: Claims, target: nat, items: seq<Participation>) {
    && (forall k | k in before :: k in after && after[k] == before[k])
    && (forall k | k in after && k !in before :: k.target == target && FirstEntry(items, k.position, after[k]))
    && (forall i | 0 <= i < |items| :: Key(target, items[i].position) in after)
  }

  /** Storing one more entry, unless its position is taken. */
  lemma ExtendedOneMore(before: Claims, mid: Claims, after: Claims, target: nat, items: seq<Participation>, k: nat)
    requires k < |items| && Extended(before, mid, target, items[..k])
    requires var key := Key(target, items[k].position);
             after == if key in mid then mid else mid[key := items[k].signature]
    ensures Extended(before, after, target, items[..k + 1])
  {
    var more := items[..k + 1];
    forall c | c in after && c !in before ensures c.target == target && FirstEntry(more, c.position, after[c]) {
      if c in mid {
        var i :| 0 <= i < k && items[..k][i] == Participation(c.position, mid[c])
                 && forall j | 0 <= j < i :: items[..k][j].position != c.position;
        assert more[i] == Participation(c.position, after[c]);
        assert forall j | 0 <= j < i :: more[j] == items[..k][j];
      } else {
        forall j | 0 <= j < k ensures more[j].position != c.position {
          assert Key(target, items[..k][j].position) in mid;
        }
        assert more[k] == Participation(c.position, after[c]);
      }
    }
    forall i | 0 <= i < k + 1 ensures Key(target, more[i].position) in after {
      if i < k { assert Key(target, items[..k][i].position) in mid; }
    }
  }

  /** The keys of a set of numbers in ascending order. */
  method SortAscending(s: set<nat>) returns (xs: seq<nat>)
    ensures forall i, j | 0 <= i < j < |xs| :: xs[i] < xs[j]
    ensures forall x :: x in xs <==> x in s
  {
    xs := [];
    var rest := s;
    while rest != {}
      invariant rest <= s
      invariant forall i, j | 0 <= i < j < |xs| :: xs[i] < xs[j]
      invariant forall x :: x in xs <==> x in s && x !in rest
      invariant forall x, y | x in xs && y in rest :: x < y
      decreases rest
    {
      var least := Least(rest);
      forall i | 0 <= i < |xs| ensures xs[i] < least {
        assert xs[i] in xs;
      }
      assert forall x :: x in xs + [least] <==> x in xs || x == least;
      xs := xs + [least];
      rest := rest - {least};
    }
  }

  method Least(s: set<nat>) returns (m: nat)
    requires s != {}
    ensures m in s && forall x | x in s :: m <= x
  {
    m :| m in s;
    var rest := s - {m};
    while rest != {}
      invariant rest <= s && m in s
      invariant forall x | x in s && x !in rest :: m <= x
      decreases rest
    {
      var x :| x in rest;
      if x < m {
        m := x;
      }
      rest := rest - {x};
    }
  }

  /** The eligible claims seen so far, by target and position. */
  ghost predicate Grouped(byTarget: ByTarget, seen: set<Key>, claims: Claims) {
    && (forall k | k in seen :: k in claims)
    && (forall t | t in byTarget :: byTarget[t] != map[])
    && (forall t, p | t in byTarget && p in byTarget[t] :: Key(t, p) in seen && byTarget[t][p] == claims[Key(t, p)])
    && (forall k | k in seen :: k.target in byTarget && k.position in byTarget[k.target])
  }

  type ByTarget = map<nat, map<nat, Signature>>

  function ItemsAt(byTarget: ByTarget, target: nat): (r: map<nat, Signature>) {
    if target in byTarget then byTarget[target] else map[]
  }

  function Insert(byTarget: ByTarget, k: Key, signature: Signature): (r: ByTarget) {
    byTarget[k.target := ItemsAt(byTarget, k.target)[k.position := signature]]
  }

  lemma GroupedOneMore(byTarget: ByTarget, seen: set<Key>, claims: Claims, k: Key)
    requires Grouped(byTarget, seen, claims) && k in claims
    ensures Grouped(Insert(byTarget, k, claims[k]), seen + {k}, claims)
  {
    assert k.position in ItemsAt(byTarget, k.target)[k.position := claims[k]];
  }

  /** Looking at one stored claim: out of the window it goes, otherwise it is grouped unless it was claimed. */
  lemma CollectStep(claims: Claims, byTarget: ByTarget, block: nat, claimed: Key -> bool, todo: set<Key>, k: Key)
    requires todo <= claims.Keys && k in todo
    requires Grouped(byTarget, SeenEligible(claims, block, claimed, todo), Kept(claims, block, todo))
    ensures !InWindow(k, block) ==>
              && Kept(claims, block, todo - {k}) == Kept(claims, block, todo) - {k}
              && SeenEligible(claims, block, claimed, todo - {k}) == SeenEligible(claims, block, claimed, todo)
    ensures InWindow(k, block) ==> Kept(claims, block, todo - {k}) == Kept(claims, block, todo)
    ensures Grouped(if InWindow(k, block) && !claimed(k) then Insert(byTarget, k, claims[k]) else byTarget,
                    SeenEligible(claims, block, claimed, todo - {k}), Kept(claims, block, todo - {k}))
  {
    var seen := SeenEligible(claims, block, claimed, todo);
    if InWindow(k, block) && !claimed(k) {
      GroupedOneMore(byTarget, seen, Kept(claims, block, todo), k);
      assert SeenEligible(claims, block, claimed, todo - {k}) == seen + {k};
    } else {
      assert SeenEligible(claims, block, claimed, todo - {k}) == seen;
    }
  }

  /** A position's items in order. */
  method SortItems(items: map<nat, Signature>) returns (r: seq<Participation>)
    ensures forall i, j | 0 <= i < j < |r| :: r[i].position < r[j].position
    ensures forall i | 0 <= i < |r| :: r[i].position in items && r[i].signature == items[r[i].position]
    ensures forall p | p in items :: Participation(p, items[p]) in r
  {
    var positions := SortAscending(items.Keys);
    r := seq(|positions|, i requires 0 <= i < |positions| && positions[i] in items => Participation(positions[i], items[positions[i]]));
    forall p | p in items ensures Participation(p, items[p]) in r {
      var i :| 0 <= i < |positions| && positions[i] == p;
      assert r[i] == Participation(p, items[p]);
    }
  }

  /** All eligible claims of the first targets are listed, and nothing else. */
  ghost predicate Listed(ks: seq<Key>, eligible: set<Key>, targets: seq<nat>, n: nat)
    requires n <= |targets|
  {
    && Ascending(ks)
    && (forall k | k in ks :: k in eligible && k.target in targets[..n])
    && (forall k | k in eligible && k.target in targets[..n] :: k in ks)
  }

  /** A target's items as keys: ascending, and exactly the eligible ones. */
  ghost predicate TargetItems(items: seq<Participation>, target: nat, eligible: set<Key>) {
    && (forall i, j | 0 <= i < j < |items| :: items[i].position < items[j].position)
    && (forall i | 0 <= i < |items| :: Key(target, items[i].position) in eligible)
    && (forall k | k in eligible && k.target == target :: exists i | 0 <= i < |items| :: items[i].position == k.position)
  }

  ghost predicate StrictlyAscending(targets: seq<nat>) {
    forall i, j | 0 <= i < j < |targets| :: targets[i] < targets[j]
  }

  /** Appending some of a target's items, in order, keeps the list ascending and eligible. */
  lemma AppendAscends(ks: seq<Key>, eligible: set<Key>, targets: seq<nat>, n: nat, items: seq<Participation>, m: nat)
    requires n < |targets| && StrictlyAscending(targets)
    requires Listed(ks, eligible, targets, n) && TargetItems(items, targets[n], eligible) && m <= |items|
    ensures var more := ks + KeysOf(Group(targets[n], items[..m]));
            Ascending(more) && forall k | k in more :: k in eligible && k.target in targets[..n + 1]
  {
    var own := KeysOf(Group(targets[n], items[..m]));
    var more := ks + own;
    forall i, j | 0 <= i < j < |more| ensures Less(more[i], more[j]) {
      if i < |ks| && |ks| <= j {
        assert more[i] in ks;
        assert more[i].target in targets[..n];
      }
    }
    forall k | k in more ensures k in eligible && k.target in targets[..n + 1] {
      if k !in ks {
        var i :| 0 <= i < |own| && own[i] == k;
        assert k == Key(targets[n], items[i].position);
        assert targets[..n + 1][n] == targets[n];
      } else {
        var i :| 0 <= i < n && targets[..n][i] == k.target;
        assert targets[..n + 1][i] == k.target;
      }
    }
  }

  /** Appending all of a target's items completes that target. */
  lemma AppendAll(ks: seq<Key>, eligible: set<Key>, targets: seq<nat>, n: nat, items: seq<Participation>)
    requires n < |targets| && StrictlyAscending(targets)
    requires Listed(ks, eligible, targets, n) && TargetItems(items, targets[n], eligible)
    ensures Listed(ks + KeysOf(Group(targets[n], items)), eligible, targets, n + 1)
  {
    assert items[..|items|] == items;
    AppendAscends(ks, eligible, targets, n, items, |items|);
    var own := KeysOf(Group(targets[n], items));
    forall k | k in eligible && k.target in targets[..n + 1] ensures k in ks + own {
      if k.target == targets[n] {
        var i :| 0 <= i < |items| && items[i].position == k.position;
        assert own[i] == k;
      } else {
        var i :| 0 <= i < n + 1 && targets[..n + 1][i] == k.target;
        assert targets[..n][i] == k.target;
      }
    }
  }

  /** When every target is listed the list is complete. */
  lemma AllListed(ks: seq<Key>, eligible: set<Key>, targets: seq<nat>)
    requires Listed(ks, eligible, targets, |targets|) && |ks| <= LIMIT
    requires forall k | k in eligible :: k.target in targets
    ensures FirstOf(ks, eligible)
  {
    assert targets[..|targets|] == targets;
    AscendingSize(ks);
    assert SetOf(ks) == eligible;
  }

  /** When the limit is reached within a target, what is left out is greater. */
  lemma LimitReached(ks: seq<Key>, eligible: set<Key>, targets: seq<nat>, n: nat, items: seq<Participation>, m: nat)
    requires n < |targets| && StrictlyAscending(targets) && forall k | k in eligible :: k.target in targets
    requires Listed(ks, eligible, targets, n) && TargetItems(items, targets[n], eligible) && m <= |items|
    requires |ks| + m == LIMIT
    ensures FirstOf(ks + KeysOf(Group(targets[n], items[..m])), eligible)
  {
    AppendAscends(ks, eligible, targets, n, items, m);
    var own := KeysOf(Group(targets[n], items[..m]));
    var more := ks + own;
    AscendingSize(more);
    Subset(SetOf(more), eligible);
    forall i, e | 0 <= i < |more| && e in eligible && e !in more ensures Less(more[i], e) {
      assert more[i] in more;
      LeftOut(ks, eligible, targets, n, items, m, e);
      if i >= |ks| { assert more[i] == own[i - |ks|]; }
    }
  }

  lemma InPrefix(targets: seq<nat>, n: nat, t: nat)
    requires t < n <= |targets|
    ensures targets[t] in targets[..n]
  {
    assert targets[..n][t] == targets[t];
  }

  lemma OwnKey(target: nat, items: seq<Participation>, m: nat, i: nat)
    requires i < m <= |items|
    ensures Key(target, items[i].position) in KeysOf(Group(target, items[..m]))
  {
    assert KeysOf(Group(target, items[..m]))[i] == Key(target, items[i].position);
  }

  /** A claim that was left out comes after every listed one. */
  lemma LeftOut(ks: seq<Key>, eligible: set<Key>, targets: seq<nat>, n: nat, items: seq<Participation>, m: nat, e: Key)
    requires n < |targets| && StrictlyAscending(targets) && forall k | k in eligible :: k.target in targets
    requires Listed(ks, eligible, targets, n) && TargetItems(items, targets[n], eligible) && m <= |items|
    requires e in eligible && e !in ks + KeysOf(Group(targets[n], items[..m]))
    ensures forall k | k in ks :: Less(k, e)
    ensures forall i | 0 <= i < m :: Less(Key(targets[n], items[i].position), e)
  {
    var t: nat :| t < |targets| && targets[t] == e.target;
    if t < n {
      InPrefix(targets, n, t);
      assert false;
    }
    forall k | k in ks ensures Less(k, e) {
      var i :| 0 <= i < n && targets[..n][i] == k.target;
    }
    if t == n {
      var i: nat :| i < |items| && items[i].position == e.position;
      if i < m {
        OwnKey(targets[n], items, m, i);
        assert false;
      }
    }
  }

  lemma GroupsOneMore(groups: seq<Group>, g: Group, claims: Claims, targets: seq<nat>, n: nat)
    requires WellGrouped(groups) && Carries(groups, claims) && n < |targets| && StrictlyAscending(targets)
    requires forall i | 0 <= i < |groups| :: groups[i].target in targets[..n]
    requires g.target == targets[n] && g.items != []
    requires forall j | 0 <= j < |g.items| ::
               Key(g.target, g.items[j].position) in claims && g.items[j].signature == claims[Key(g.target, g.items[j].position)]
    ensures WellGrouped(groups + [g]) && Carries(groups + [g], claims)
    ensures forall i | 0 <= i < |groups + [g]| :: (groups + [g])[i].target in targets[..n + 1]
  {
    InPrefix(targets, n + 1, n);
    forall i | 0 <= i < |groups| ensures groups[i].target < g.target && groups[i].target in targets[..n + 1] {
      assert groups[i].target in targets[..n];
      var t: nat :| t < |targets[..n]| && targets[..n][t] == groups[i].target;
      InPrefix(targets, n + 1, t);
    }
  }

  /** The stored signatures of a target's items. */
  ghost predicate Signed(items: seq<Participation>, target: nat, claims: Claims) {
    forall j | 0 <= j < |items| ::
      Key(target, items[j].position) in claims && items[j].signature == claims[Key(target, items[j].position)]
  }

  lemma ItemsAreEligible(byTarget: ByTarget, eligible: set<Key>, claims: Claims, target: nat, items: seq<Participation>)
    requires Grouped(byTarget, eligible, claims) && target in byTarget
    requires forall i, j | 0 <= i < j < |items| :: items[i].position < items[j].position
    requires forall i | 0 <= i < |items| ::
               items[i].position in byTarget[target] && items[i].signature == byTarget[target][items[i].position]
    requires forall p | p in byTarget[target] :: Participation(p, byTarget[target][p]) in items
    ensures TargetItems(items, target, eligible) && Signed(items, target, claims) && items != []
  {
    assert byTarget[target] != map[];
    var p :| p in byTarget[target];
    assert Participation(p, byTarget[target][p]) in items;
    forall k | k in eligible && k.target == target ensures exists i | 0 <= i < |items| :: items[i].position == k.position {
      assert Participation(k.position, byTarget[target][k.position]) in items;
      var i :| 0 <= i < |items| && items[i] == Participation(k.position, byTarget[target][k.position]);
    }
  }

  /** The groups hold everything of the first targets, and there is room for more. */
  ghost predicate Taken(groups: seq<Group>, total: nat, eligible: set<Key>, claims: Claims, targets: seq<nat>, n: nat) {
    && n <= |targets| && StrictlyAscending(targets)
    && total == |Flatten(groups)| < LIMIT
    && Listed(Flatten(groups), eligible, targets, n)
    && WellGrouped(groups) && Carries(groups, claims)
    && forall i | 0 <= i < |groups| :: groups[i].target in targets[..n]
  }

  /** Taking as much of one more target as fits either completes the selection or leaves room for more. */
  lemma TakeTarget(
      groups: seq<Group>, total: nat, eligible: set<Key>, claims: Claims, targets: seq<nat>, n: nat, items: seq<Participation>)
    requires Taken(groups, total, eligible, claims, targets, n) && n < |targets|
    requires forall k | k in eligible :: k.target in targets
    requires TargetItems(items, targets[n], eligible) && Signed(items, targets[n], claims) && items != []
    ensures total + |items| < LIMIT ==> Taken(groups + [Group(targets[n], items)], total + |items|, eligible, claims, targets, n + 1)
    ensures total + |items| >= LIMIT ==>
              Selected(groups + [Group(targets[n], items[..LIMIT - total])], eligible, claims)
  {
    if total + |items| < LIMIT {
      GroupsOneMore(groups, Group(targets[n], items), claims, targets, n);
      FlattenOneMore(groups, Group(targets[n], items));
      AppendAll(Flatten(groups), eligible, targets, n, items);
    } else {
      var g := Group(targets[n], items[..LIMIT - total]);
      GroupsOneMore(groups, g, claims, targets, n);
      FlattenOneMore(groups, g);
      LimitReached(Flatten(groups), eligible, targets, n, items, LIMIT - total);
    }
  }

  method ItemsFor(byTarget: ByTarget, target: nat, ghost eligible: set<Key>, ghost claims: Claims) returns (items: seq<Participation>)
    requires Grouped(byTarget, eligible, claims) && target in byTarget
    ensures TargetItems(items, target, eligible) && Signed(items, target, claims) && items != []
  {
    items := SortItems(byTarget[target]);
    ItemsAreEligible(byTarget, eligible, claims, target, items);
  }

  /** As much of a target as the limit allows. */
  method Take(groups: seq<Group>, total: nat, target: nat, items: seq<Participation>) returns (more: seq<Group>, taken: nat)
    requires total < LIMIT && items != []
    ensures total + |items| < LIMIT ==> more == groups + [Group(target, items)] && taken == total + |items|
    ensures total + |items| >= LIMIT ==> more == groups + [Group(target, items[..LIMIT - total])] && taken == LIMIT
  {
    var some := items;
    if |some| > LIMIT - total {
      some := some[..LIMIT - total];
    }
    more, taken := groups, total;
    if |some| > 0 {
      more := more + [Group(target, some)];
      taken := taken + |some|;
    }
    assert items[..|items|] == items;
  }

  lemma AllTaken(groups: seq<Group>, total: nat, eligible: set<Key>, claims: Claims, targets: seq<nat>)
    requires Taken(groups, total, eligible, claims, targets, |targets|) && forall k | k in eligible :: k.target in targets
    ensures Selected(groups, eligible, claims)
  {
    AllListed(Flatten(groups), eligible, targets);
  }

  /** The loop over the sorted targets. */
  method SelectFrom(byTarget: ByTarget, targets: seq<nat>, ghost eligible: set<Key>, ghost claims: Claims) returns (groups: seq<Group>)
    requires Grouped(byTarget, eligible, claims) && StrictlyAscending(targets)
    requires forall t :: t in targets <==> t in byTarget
    ensures Selected(groups, eligible, claims)
  {
    groups := [];
    var total: nat := 0;
    var n := 0;
    while n < |targets|
      invariant n <= |targets|
      invariant Taken(groups, total, eligible, claims, targets, n)
    {
      assert targets[n] in byTarget;
      var items := ItemsFor(byTarget, targets[n], eligible, claims);
      TakeTarget(groups, total, eligible, claims, targets, n, items);
      groups, total := Take(groups, total, targets[n], items);
      if total == LIMIT {
        return;
      }
      n := n + 1;
    }
    AllTaken(groups, total, eligible, claims, targets);
  }

  /** Take targets in order until the limit is reached. The result is exactly the first of the eligible claims. */
  method Select(byTarget: ByTarget, ghost eligible: set<Key>, ghost claims: Claims) returns (groups: seq<Group>)
    requires Grouped(byTarget, eligible, claims)
    ensures Selected(groups, eligible, claims)
  {
    var targets := SortAscending(byTarget.Keys);
    groups := SelectFrom(byTarget, targets, eligible, claims);
  }

  /** What one call does to the stored claims. */
  ghost predicate Step(before: Claims, after: Claims) {
    || after == before
    || (exists target, items :: Extended(before, after, target, items))
    || (exists block: nat :: after == Kept(before, block, {}))
  }

  /** Over any run of calls, a claim keeps its signature for as long as it is stored. */
  lemma {:induction false} SignatureNeverChanges(run: seq<Claims>, k: Key)
    requires run != [] && forall i, j | 0 <= i < j < |run| && j == i + 1 :: Step(run[i], run[j])
    requires forall i | 0 <= i < |run| :: k in run[i]
    ensures run[|run| - 1][k] == run[0][k]
  {
    if |run| > 1 {
      var init := run[..|run| - 1];
      SignatureNeverChanges(init, k);
      assert Step(run[|run| - 2], run[|run| - 1]);
    }
  }

  class ClaimPool {
    var claims: Claims

    constructor ()
      ensures claims == map[]
    {
      claims := map[];
    }

    /** Add a group: nothing changes when it is malformed or conflicts with a stored signature; otherwise every
        position it names is stored, and no stored signature is ever replaced. */
    method Add(target: nat, items: seq<Participation>) returns (r: Outcome)
      modifies this
      ensures r == Invalid <==> target == 0 || |items| == 0 || |items| > LIMIT
      ensures r == Conflict <==> r != Invalid && Conflicts(old(claims), target, items)
      ensures !r.Added? ==> claims == old(claims)
      ensures r.Added? ==> Extended(old(claims), claims, target, items)
      ensures r.Added? ==> (r.changed <==> claims != old(claims))
    {
      if target == 0 || |items| == 0 || |items| > LIMIT {
        return Invalid;
      }
      for i := 0 to |items|
        invariant claims == old(claims)
        invariant !Conflicts(claims, target, items[..i])
      {
        var key := Key(target, items[i].position);
        if key in claims && claims[key] != items[i].signature {
          return Conflict;
        }
      }
      var changed := false;
      for i := 0 to |items|
        invariant Extended(old(claims), claims, target, items[..i])
        invariant changed <==> claims != old(claims)
      {
        var key := Key(target, items[i].position);
        ghost var mid := claims;
        if key !in claims {
          claims := claims[key := items[i].signature];
          changed := true;
        }
        ExtendedOneMore(old(claims), mid, claims, target, items, i);
      }
      assert items[..|items|] == items;
      return Added(changed);
    }

    method Contains(target: nat, items: seq<Participation>) returns (r: bool)
      ensures r <==> target != 0 && items != [] &&
                     forall i | 0 <= i < |items| ::
                       Key(target, items[i].position) in claims && claims[Key(target, items[i].position)] == items[i].signature
    {
      if target == 0 || |items| == 0 {
        return false;
      }
      for i := 0 to |items|
        invariant forall j | 0 <= j < i ::
                    Key(target, items[j].position) in claims && claims[Key(target, items[j].position)] == items[j].signature
      {
        var key := Key(target, items[i].position);
        if key !in claims || claims[key] != items[i].signature {
          return false;
        }
      }
      return true;
    }

    /** Purge what has left the window and group what may be included. */
    method Collect(block: nat, claimed: Key -> bool) returns (byTarget: ByTarget)
      modifies this
      ensures claims == Kept(old(claims), block, {})
      ensures Grouped(byTarget, Eligible(old(claims), block, claimed), claims)
    {
      byTarget := map[];
      var todo := claims.Keys;
      while todo != {}
        invariant todo <= old(claims).Keys && claims == Kept(old(claims), block, todo)
        invariant Grouped(byTarget, SeenEligible(old(claims), block, claimed, todo), claims)
        decreases todo
      {
        var k :| k in todo;
        CollectStep(old(claims), byTarget, block, claimed, todo, k);
        todo := todo - {k};
        if k.target >= block || block - k.target > WINDOW {
          claims := claims - {k};
        } else if !claimed(k) {
          byTarget := Insert(byTarget, k, claims[k]);
        }
      }
      assert SeenEligible(old(claims), block, claimed, {}) == Eligible(old(claims), block, claimed);
    }

    /** The claims to include in a block: exactly the first of the eligible ones, up to the limit. Only claims
        outside the window are purged. */
    method Pending(block: nat, claimed: Key -> bool) returns (groups: seq<Group>)
      modifies this
      ensures block <= 1 ==> groups == [] && claims == old(claims)
      ensures block > 1 ==>
                && claims == Kept(old(claims), block, {})
                && Selected(groups, Eligible(old(claims), block, claimed), claims)
                && (forall k :: k in claims <==> k in old(claims) && k.target < block <= k.target + 8)
                && |Flatten(groups)| <= 128
    {
      if block <= 1 {
        return [];
      }
      ghost var before := claims;
      var byTarget := Collect(block, claimed);
      groups := Select(byTarget, Eligible(before, block, claimed), claims);
    }
  }
}
