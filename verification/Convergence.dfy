/** Order-independence of LQC import: nodes that receive the same blocks in any two
    parents-first orders end with the same head, store and canonical index. */
module Convergence {
  import opened Chain
  import opened ForkChoice
  import opened BlockChains
  import HeaderChains

  /** The head after importing the last block of `hs` on top of the rest. */
  function ChooseHead(head: Header, hs: seq<Header>): (r: Header) {
    if hs == [] then head
    else
      var before := ChooseHead(head, hs[..|hs|-1]);
      if Ahead(hs[|hs|-1], before) then hs[|hs|-1] else before
  }

  /** The chosen head is the greatest of the starting head and the imported headers. */
  lemma {:induction false} ChosenIsGreatest(head: Header, hs: seq<Header>)
    ensures ChooseHead(head, hs) == head || ChooseHead(head, hs) in hs
    ensures !Ahead(head, ChooseHead(head, hs))
    ensures forall h | h in hs :: !Ahead(h, ChooseHead(head, hs))
  {
    if hs != [] {
      var rest, last := hs[..|hs|-1], hs[|hs|-1];
      ChosenIsGreatest(head, rest);
      assert hs == rest + [last];
      forall h | h in rest ensures !Ahead(h, ChooseHead(head, hs)) {
        AheadIsStrictTotal(h, ChooseHead(head, rest), ChooseHead(head, hs));
      }
      AheadIsStrictTotal(head, ChooseHead(head, rest), ChooseHead(head, hs));
    }
  }

  /** Any two parents-first deliveries of the same set of headers end in the same place. */
  lemma Converges(store: Store, genesis: Header, head: Header, xs: seq<Header>, ys: seq<Header>)
    requires Closed(store, genesis) && Stored(store, head)
    requires ParentsFirst(store, xs) && ParentsFirst(store, ys)
    requires forall h :: h in xs <==> h in ys
    ensures StoreAll(store, xs) == StoreAll(store, ys)
    ensures Closed(StoreAll(store, xs), genesis) && Stored(StoreAll(store, xs), ChooseHead(head, xs))
    ensures ChooseHead(head, xs) == ChooseHead(head, ys)
    ensures IndexOf(StoreAll(store, xs), genesis, ChooseHead(head, xs)) == IndexOf(StoreAll(store, ys), genesis, ChooseHead(head, ys))
  {
    StoreContents(store, genesis, xs);
    StoreContents(store, genesis, ys);
    var sx, sy := StoreAll(store, xs), StoreAll(store, ys);
    forall k | k in sx ensures k in sy && sy[k] == sx[k] {
      if k !in store {
        assert WellLinked(sx, genesis, k);
        assert Stored(sy, sx[k]);
      }
    }
    forall k | k in sy ensures k in sx {
      if k !in store {
        assert WellLinked(sy, genesis, k);
        assert Stored(sx, sy[k]);
      }
    }
    assert sx == sy;
    ChosenIsGreatest(head, xs);
    ChosenIsGreatest(head, ys);
    var a, b := ChooseHead(head, xs), ChooseHead(head, ys);
    AheadIsStrictTotal(a, b, a);
    assert Stored(sx, a) && Stored(sx, b);
  }

  /** Stored bodies are the ones `contents` gives: a block hash fixes its transactions. */
  ghost predicate Agree(bodies: Bodies, contents: Bodies) {
    forall k | k in bodies :: k in contents && contents[k] == bodies[k]
  }

  /** None of the blocks extends a chain on which a transaction appears twice. */
  ghost predicate Unrepeated(store: Store, genesis: Header, hs: seq<Header>, contents: Bodies)
    requires Closed(store, genesis)
  {
    forall h | h in hs && Stored(store, h) :: NoRepeats(contents, Path(store, genesis, h))
  }

  lemma NoRepeatsIn(store: Store, genesis: Header, h: Header, bodies: Bodies, contents: Bodies)
    requires Closed(store, genesis) && Stored(store, h) && Complete(store, bodies) && Agree(bodies, contents)
    requires NoRepeats(contents, Path(store, genesis, h))
    ensures NoRepeats(bodies, Path(store, genesis, h))
  {
    var p := Path(store, genesis, h);
    forall b | b in p ensures b.hash in bodies {
      var i :| 0 <= i < |p| && p[i] == b;
      assert Stored(store, p[i]);
    }
    forall i, j | 0 <= i < j < |p| ensures Disjoint(bodies, p[i], p[j]) {
      assert p[i] in p && p[j] in p;
      assert Disjoint(contents, p[i], p[j]);
    }
  }

  lemma UnrepeatedBefore(store: Store, genesis: Header, hs: seq<Header>, contents: Bodies)
    requires Closed(store, genesis) && ParentsFirst(store, hs) && hs != []
    requires Closed(StoreAll(store, hs), genesis) && Unrepeated(StoreAll(store, hs), genesis, hs, contents)
    ensures var rest := hs[..|hs|-1];
            Closed(StoreAll(store, rest), genesis) && Unrepeated(StoreAll(store, rest), genesis, rest, contents)
  {
    var rest := hs[..|hs|-1];
    StoreContents(store, genesis, rest);
    var before, after := StoreAll(store, rest), StoreAll(store, hs);
    forall h | h in rest && Stored(before, h) ensures NoRepeats(contents, Path(before, genesis, h)) {
      PathStable(before, after, genesis, h);
      assert h in hs;
    }
  }

  /** One import on an LQC chain. */
  method ImportOne(chain: BlockChain, h: Header, contents: Bodies)
    requires chain.Valid() && chain.lqc && h.hash != ZERO_HASH
    requires GetHeader(chain.headers, h.parent, h.number - 1).Some?
    requires h.hash in chain.headers ==> chain.headers[h.hash] == h
    requires h.hash in contents && Agree(chain.bodies, contents)
    modifies chain
    ensures chain.Valid() && Agree(chain.bodies, contents)
    ensures chain.headers == old(chain.headers)[h.hash := h]
    ensures chain.currentBlock == if Ahead(h, old(chain.currentBlock)) then h else old(chain.currentBlock)
    ensures old(chain.TxIndexed()) && NoRepeats(contents, Path(chain.headers, chain.genesis, h)) ==> chain.TxIndexed()
  {
    var status := chain.WriteBlockAndSetHead(h, contents[h.hash]);
    if NoRepeats(contents, Path(chain.headers, chain.genesis, h)) {
      NoRepeatsIn(chain.headers, chain.genesis, h, chain.bodies, contents);
    }
  }

  /** Import a delivery one block at a time. The outcome is the one `Converges` speaks of; the transaction index stays
      exact when no delivered block repeats a transaction of its chain. */
  method ImportAll(chain: BlockChain, hs: seq<Header>, contents: Bodies)
    requires chain.Valid() && chain.lqc
    requires ParentsFirst(chain.headers, hs)
    requires Agree(chain.bodies, contents) && forall h | h in hs :: h.hash in contents
    modifies chain
    ensures chain.Valid() && Agree(chain.bodies, contents)
    ensures chain.headers == StoreAll(old(chain.headers), hs)
    ensures chain.currentBlock == ChooseHead(old(chain.currentBlock), hs)
    ensures old(chain.TxIndexed()) && Unrepeated(chain.headers, chain.genesis, hs, contents) ==> chain.TxIndexed()
    decreases |hs|
  {
    if hs != [] {
      StoreContents(chain.headers, chain.genesis, hs);
      if Unrepeated(StoreAll(chain.headers, hs), chain.genesis, hs, contents) {
        UnrepeatedBefore(chain.headers, chain.genesis, hs, contents);
      }
      assert hs[|hs|-1] in hs;
      ImportAll(chain, hs[..|hs|-1], contents);
      ImportOne(chain, hs[|hs|-1], contents);
    }
  }

  /** The two implementations of a head switch agree: wherever each chain's head was, moving both to the same stored
      header leaves the same canonical index. */
  method SwitchBoth(chain: BlockChain, light: HeaderChains.HeaderChain, hs: seq<Header>)
    requires chain.Valid() && light.Valid() && chain.genesis == light.genesis && chain.headers == light.headers
    requires hs != [] && HeaderChains.Contiguous(hs) && HeaderChains.AllStored(light.headers, hs)
    modifies chain, light
    ensures chain.Valid() && light.Valid()
    ensures chain.currentBlock == light.currentHeader == hs[|hs|-1]
    ensures chain.canonical == light.canonical
  {
    var r := chain.SwitchHead(hs[|hs|-1]);
    var ok := light.Reorg(hs);
  }
}
