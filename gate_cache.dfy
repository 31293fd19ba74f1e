/** What the `dirty`/`cachedOutput` cache is for: `getOutput` answers what
    recomputing every gate from the raw input values would answer. The
    invariant that makes this so is `Coherent`. Demanding outputs keeps it,
    and so does every rewiring operation that floods from the gate whose
    inputs it changed. */
module GateCache {
  import opened LogicGates
  import opened GateWiring

  // ---------------------------------------------------------------------------
  // The cache-free reading of a network

  /** The network with every cache thrown away. */
  function AllDirty(net: Net): (r: Net)
    ensures r.Keys == net.Keys
    ensures forall g | g in net :: r[g].dirty && r[g] == net[g].(dirty := true, cachedOutput := false)
  {
    map g | g in net :: net[g].(dirty := true, cachedOutput := false)
  }

  /** What `g` outputs when every gate recomputes from its inputs. */
  function Fresh(net: Net, rank: map<Gate, nat>, g: Gate): Result<bool>
    requires Ranked(AllDirty(net), rank) && g in net
  {
    Eval(AllDirty(net), rank, g)
  }

  /** Every clean gate caches what it would compute afresh, and is fed by
      clean gates only. */
  predicate Coherent(net: Net, rank: map<Gate, nat>) {
    && Ranked(AllDirty(net), rank)
    && forall g | g in net && !net[g].dirty ::
         FeedersClean(net, g) && Raw(AllDirty(net), rank, g) == Success(net[g].cachedOutput)
  }

  /** A ranking of the network with every gate dirty ranks the network itself. */
  lemma AllDirtyRanked(net: Net, rank: map<Gate, nat>)
    requires Ranked(AllDirty(net), rank)
    ensures Ranked(net, rank)
  {
    var d := AllDirty(net);
    forall g | g in net
      ensures net[g].inputGates == d[g].inputGates && net[g].outputGates == d[g].outputGates
    {
    }
  }

  /** The cache moves no wire, so a well-wired network stays well wired with
      every cache thrown away, and `RankOf` ranks it. */
  lemma AllDirtyWellWired(net: Net)
    requires WellWired(net)
    ensures WellWired(AllDirty(net)) && Ranked(AllDirty(net), RankOf(AllDirty(net)))
  {
    var d := AllDirty(net);
    forall x, y | x in d
      ensures Edge(d, x, y) == Edge(net, x, y)
    {
      assert d[x].outputGates == net[x].outputGates;
    }
    FewerEdgesFewerPaths(net, d);
    WellWiredRanked(d);
  }

  // ---------------------------------------------------------------------------
  // The cache is transparent

  /** On a coherent network, `getOutput` answers what recomputing everything answers. */
  lemma {:induction false} CoherentEval(net: Net, rank: map<Gate, nat>, g: Gate)
    requires Coherent(net, rank) && g in net
    ensures Ranked(net, rank) && Eval(net, rank, g) == Fresh(net, rank, g)
    decreases Depth(AllDirty(net), rank, g), 2
  {
    AllDirtyRanked(net, rank);
    if net[g].dirty {
      CoherentRaw(net, rank, g);
    }
  }

  lemma {:induction false} CoherentRaw(net: Net, rank: map<Gate, nat>, g: Gate)
    requires Coherent(net, rank) && g in net && net[g].dirty
    ensures Ranked(net, rank) && Raw(net, rank, g) == Raw(AllDirty(net), rank, g)
    decreases Depth(AllDirty(net), rank, g), 1
  {
    var d := AllDirty(net);
    AllDirtyRanked(net, rank);
    BoundBelowDepth(d, rank, g);
    forall j | 0 <= j < Width(net[g])
      ensures Slot(net, rank, g, j) == Slot(d, rank, g, j)
    {
      CoherentSlot(net, rank, g, j);
    }
    SameSlotsSameInputs(d, net, rank, rank, g, 0);
  }

  lemma {:induction false} CoherentSlot(net: Net, rank: map<Gate, nat>, g: Gate, i: nat)
    requires Coherent(net, rank) && g in net
    ensures Ranked(net, rank) && Slot(net, rank, g, i) == Slot(AllDirty(net), rank, g, i)
    decreases SlotBound(AllDirty(net), rank, g), 0
  {
    AllDirtyRanked(net, rank);
    if i < |net[g].inputGates| && net[g].inputGates[i] != null {
      CoherentEval(net, rank, net[g].inputGates[i]);
    }
  }

  // ---------------------------------------------------------------------------
  // Evaluation only looks upstream

  /** `x` and `y` hold the same gates on `S`, but for the links out of them. */
  predicate Agree(x: Net, y: Net, S: set<Gate>)
    requires S <= x.Keys && S <= y.Keys
  {
    forall h | h in S :: x[h].(outputGates := y[h].outputGates) == y[h]
  }

  /** `S` holds every gate feeding one of its members. */
  predicate FeedClosed(x: Net, S: set<Gate>)
    requires S <= x.Keys
  {
    forall h, i | h in S && 0 <= i < |x[h].inputGates| && x[h].inputGates[i] != null :: x[h].inputGates[i] in S
  }

  /** Two networks that agree on a set closed under feeding give its gates
      the same outputs, however each is ranked. */
  lemma {:induction false} LocalEval(x: Net, y: Net, rx: map<Gate, nat>, ry: map<Gate, nat>, S: set<Gate>, g: Gate)
    requires Ranked(x, rx) && Ranked(y, ry) && S <= x.Keys && S <= y.Keys && g in S
    requires Agree(x, y, S) && FeedClosed(x, S)
    ensures Eval(x, rx, g) == Eval(y, ry, g)
    decreases Depth(x, rx, g), 2
  {
    if x[g].dirty {
      LocalRaw(x, y, rx, ry, S, g);
    }
  }

  lemma {:induction false} LocalRaw(x: Net, y: Net, rx: map<Gate, nat>, ry: map<Gate, nat>, S: set<Gate>, g: Gate)
    requires Ranked(x, rx) && Ranked(y, ry) && S <= x.Keys && S <= y.Keys && g in S && x[g].dirty
    requires Agree(x, y, S) && FeedClosed(x, S)
    ensures y[g].dirty && Raw(x, rx, g) == Raw(y, ry, g)
    decreases Depth(x, rx, g), 1
  {
    BoundBelowDepth(x, rx, g);
    forall j | 0 <= j < Width(x[g])
      ensures Slot(y, ry, g, j) == Slot(x, rx, g, j)
    {
      LocalSlot(x, y, rx, ry, S, g, j);
    }
    SameSlotsSameInputs(x, y, rx, ry, g, 0);
  }

  lemma {:induction false} LocalSlot(x: Net, y: Net, rx: map<Gate, nat>, ry: map<Gate, nat>, S: set<Gate>, g: Gate, i: nat)
    requires Ranked(x, rx) && Ranked(y, ry) && S <= x.Keys && S <= y.Keys && g in S
    requires Agree(x, y, S) && FeedClosed(x, S)
    ensures Slot(x, rx, g, i) == Slot(y, ry, g, i)
    decreases SlotBound(x, rx, g), 0
  {
    if i < |x[g].inputGates| && x[g].inputGates[i] != null {
      LocalEval(x, y, rx, ry, S, x[g].inputGates[i]);
    }
  }

  // ---------------------------------------------------------------------------
  // Coherence is kept

  /** Demanding outputs keeps the network coherent. */
  lemma SettledCoherent(a: Net, b: Net, rank: map<Gate, nat>)
    requires Coherent(a, rank) && Settled(a, b, rank) && Tidy(a, b)
    ensures Coherent(b, rank)
  {
    assert AllDirty(b) == AllDirty(a);
    forall g | g in b && !b[g].dirty
      ensures FeedersClean(b, g) && Raw(AllDirty(b), rank, g) == Success(b[g].cachedOutput)
    {
      if a[g] == b[g] {
        forall i | 0 <= i < |b[g].inputGates|
          ensures SlotClean(b, g, i)
        {
          assert SlotClean(a, g, i);
        }
      } else {
        assert Cleaned(a, rank, g, b[g]);
        CoherentRaw(a, rank, g);
      }
    }
  }

  /** `w` is `a` with only the gate `s` fed differently (links may differ anywhere). */
  predicate OnlyFeedsOf(a: Net, w: Net, s: Gate) {
    && w.Keys == a.Keys
    && forall h | h in a ::
         && w[h].dirty == a[h].dirty && w[h].cachedOutput == a[h].cachedOutput
         && (h != s ==> w[h].(outputGates := a[h].outputGates) == a[h])
  }

  lemma WiredOnlyFeeds(a: Net, src: Gate, dst: Gate, i: nat)
    requires src in a && dst in a
    ensures OnlyFeedsOf(a, Wired(a, src, dst, i), dst)
  {
  }

  lemma UnwiredOnlyFeeds(a: Net, src: Gate, dst: Gate)
    requires src in a && dst in a
    ensures OnlyFeedsOf(a, UnwiredFixed(a, src, dst), dst)
  {
  }

  lemma ValuesOnlyFeeds(a: Net, g: Gate, values: seq<bool>)
    requires g in a
    ensures OnlyFeedsOf(a, a[g := a[g].(inputValues := values)], g)
  {
  }

  /** Changing what feeds `s` and then flooding from `s` leaves the network
      coherent: every gate whose fresh output could have changed is dirty. */
  lemma FloodCoherent(a: Net, w: Net, b: Net, s: Gate, rank: map<Gate, nat>, rank': map<Gate, nat>)
    requires Coherent(a, rank) && OnlyFeedsOf(a, w, s)
    requires Closed(w) && SlotsLinked(w) && Ranked(AllDirty(w), rank')
    requires AfterFlood(w, b, s)
    ensures Coherent(b, rank')
  {
    RedirtiedAllDirty(w, b);
    FloodFeedersClean(a, w, b, s);
    var S := CleanSet(b);
    CleanSetAgrees(a, w, b, s);
    CleanSetClosed(w, b);
    AllDirtyRanked(a, rank);
    forall g | g in S
      ensures Raw(AllDirty(w), rank', g) == Raw(AllDirty(a), rank, g)
    {
      LocalRaw(AllDirty(w), AllDirty(a), rank', rank, S, g);
    }
  }

  /** Marking gates dirty throws away no more than was already thrown away. */
  lemma RedirtiedAllDirty(w: Net, b: Net)
    requires Redirtied(w, b)
    ensures AllDirty(b) == AllDirty(w)
  {
  }

  /** The gates left clean by the flood are fed as before... */
  lemma CleanSetAgrees(a: Net, w: Net, b: Net, s: Gate)
    requires OnlyFeedsOf(a, w, s) && Redirtied(w, b) && s in b && b[s].dirty
    ensures CleanSet(b) <= w.Keys && CleanSet(b) <= a.Keys
    ensures Agree(AllDirty(w), AllDirty(a), CleanSet(b))
  {
    var S, x, y := CleanSet(b), AllDirty(w), AllDirty(a);
    forall h | h in S
      ensures x[h].(outputGates := y[h].outputGates) == y[h]
    {
      assert h != s;
      assert w[h].(outputGates := a[h].outputGates) == a[h];
    }
  }

  /** ...and only by each other. */
  lemma CleanSetClosed(w: Net, b: Net)
    requires Closed(w) && Redirtied(w, b)
    requires forall g | g in b && !b[g].dirty :: FeedersClean(b, g)
    ensures CleanSet(b) <= w.Keys && FeedClosed(AllDirty(w), CleanSet(b))
  {
    var S, x := CleanSet(b), AllDirty(w);
    forall h, i | h in S && 0 <= i < |x[h].inputGates| && x[h].inputGates[i] != null
      ensures x[h].inputGates[i] in S
    {
      assert x[h].inputGates == b[h].inputGates;
      assert SlotClean(b, h, i);
    }
  }

  /** After such a flood, every clean gate is fed by clean gates. */
  lemma FloodFeedersClean(a: Net, w: Net, b: Net, s: Gate)
    requires Closed(a) && OnlyFeedsOf(a, w, s) && Closed(w) && SlotsLinked(w) && AfterFlood(w, b, s)
    requires forall g | g in a && !a[g].dirty :: FeedersClean(a, g)
    ensures b[s].dirty
    ensures forall g | g in b && !b[g].dirty :: FeedersClean(b, g)
  {
    forall g, i | g in b && !b[g].dirty && 0 <= i < |b[g].inputGates|
      ensures SlotClean(b, g, i)
    {
      var p := b[g].inputGates[i];
      if p != null {
        assert g != s;
        assert SlotClean(a, g, i);
      }
    }
  }

  // ---------------------------------------------------------------------------
  // The operations keep a network sound

  /** A network a circuit can rely on: well wired, and every cache coherent
      under the ranking the wiring itself gives. */
  ghost predicate Sound(net: Net) {
    WellWired(net) && Coherent(net, RankOf(AllDirty(net)))
  }

  /** The ranking `getOutput` runs under on a sound network. */
  lemma SoundRanked(net: Net)
    requires Sound(net)
    ensures Ranked(net, RankOf(AllDirty(net)))
  {
    AllDirtyRanked(net, RankOf(AllDirty(net)));
  }

  /** On a sound network every gate outputs its fresh value. */
  lemma SoundEval(net: Net, g: Gate)
    requires Sound(net) && g in net
    ensures Ranked(net, RankOf(AllDirty(net)))
    ensures Eval(net, RankOf(AllDirty(net)), g) == Fresh(net, RankOf(AllDirty(net)), g)
  {
    CoherentEval(net, RankOf(AllDirty(net)), g);
  }

  /** `getOutput` keeps a network sound and its fresh values unchanged. */
  lemma SettledSound(a: Net, b: Net)
    requires Sound(a) && Settled(a, b, RankOf(AllDirty(a))) && Tidy(a, b)
    ensures Sound(b) && AllDirty(b) == AllDirty(a)
  {
    SettledCoherent(a, b, RankOf(AllDirty(a)));
    SettledAllDirty(a, b, RankOf(AllDirty(a)));
    SettledWellWired(a, b, RankOf(AllDirty(a)));
  }

  lemma SettledAllDirty(a: Net, b: Net, rank: map<Gate, nat>)
    requires Settled(a, b, rank)
    ensures AllDirty(b) == AllDirty(a)
  {
    forall g | g in a
      ensures AllDirty(b)[g] == AllDirty(a)[g]
    {
      if a[g] != b[g] {
        assert Cleaned(a, rank, g, b[g]);
      }
    }
  }

  /** Settling moves no wire. */
  lemma SettledWellWired(a: Net, b: Net, rank: map<Gate, nat>)
    requires WellWired(a) && Settled(a, b, rank)
    ensures WellWired(b)
  {
    forall g | g in a
      ensures b[g].inputGates == a[g].inputGates && b[g].outputGates == a[g].outputGates
    {
      if a[g] != b[g] {
        assert Cleaned(a, rank, g, b[g]);
      }
    }
    forall x, y | x in b
      ensures Edge(b, x, y) == Edge(a, x, y)
    {
    }
    FewerEdgesFewerPaths(a, b);
  }

  /** A flood after a change to what feeds `s` leaves a sound network sound,
      provided the change kept the wiring good. */
  lemma FloodSound(a: Net, w: Net, b: Net, s: Gate)
    requires Sound(a) && OnlyFeedsOf(a, w, s) && WellWired(w) && AfterFlood(w, b, s)
    ensures Sound(b)
  {
    AllDirtyWellWired(w);
    RedirtiedAllDirty(w, b);
    FloodCoherent(a, w, b, s, RankOf(AllDirty(a)), RankOf(AllDirty(w)));
    RedirtiedWellWired(w, b);
  }

  /** The corrected `connectTo` keeps a network sound. */
  lemma ConnectSound(a: Net, b: Net, src: Gate, dst: Gate, i: nat)
    requires Sound(a) && src in a && dst in a && !Reaches(a, dst, src)
    requires AfterFlood(Wired(a, src, dst, i), b, dst)
    ensures Sound(b)
  {
    WiredWellWired(a, src, dst, i);
    WiredOnlyFeeds(a, src, dst, i);
    FloodSound(a, Wired(a, src, dst, i), b, dst);
  }

  /** The corrected `disconnectFrom` keeps a network sound. */
  lemma DisconnectSound(a: Net, b: Net, src: Gate, dst: Gate)
    requires Sound(a) && src in a && dst in a
    requires AfterFlood(UnwiredFixed(a, src, dst), b, dst)
    ensures Sound(b)
  {
    UnwiredFixedWellWired(a, src, dst);
    UnwiredOnlyFeeds(a, src, dst);
    FloodSound(a, UnwiredFixed(a, src, dst), b, dst);
  }

  /** `setInputs` keeps a network sound. */
  lemma SetInputsSound(a: Net, b: Net, g: Gate, values: seq<bool>)
    requires Sound(a) && g in a
    requires AfterFlood(a[g := a[g].(inputValues := values)], b, g)
    ensures Sound(b)
  {
    ValuesWellWired(a, g, values);
    ValuesOnlyFeeds(a, g, values);
    FloodSound(a, a[g := a[g].(inputValues := values)], b, g);
  }
}
