/** `LogicCircuit`: a registry of gates by id, with the operations that wire
    registered gates together, remove a gate, and evaluate every gate.

    The registry is a JavaScript `Map`, kept here as the sequence of its
    values in insertion order; ids are distinct, and `set` on an id already
    present replaces that entry in place. `connectGates` uses `connectTo` as
    written, so a gate can keep a stale cached output (see `GateFindings`),
    and `removeGate` uses `disconnectFrom` as written, which on the circuit's
    networks still empties every slot holding the removed gate. The circuit
    keeps its wiring free of loops and its links and slots matched one to
    one. */
module GateCircuit {
  import opened LogicGates
  import opened GateWiring
  import opened GateCache

  // ---------------------------------------------------------------------------
  // The gates Map

  predicate DistinctIds(gs: seq<Gate>) {
    forall i, j | 0 <= i < j < |gs| :: gs[i].id != gs[j].id
  }

  /** The ids registered. */
  function Ids(gs: seq<Gate>): set<string> {
    set i | 0 <= i < |gs| :: gs[i].id
  }

  /** Where the entry for `id` sits, |gs| when there is none. */
  function IndexOf(gs: seq<Gate>, id: string): (i: nat)
    ensures i <= |gs| && (i < |gs| ==> gs[i].id == id)
    ensures forall j | 0 <= j < i :: gs[j].id != id
  {
    if gs == [] then 0
    else if gs[0].id == id then 0
    else 1 + IndexOf(gs[1..], id)
  }

  /** `gates.get(id)`. */
  function Lookup(gs: seq<Gate>, id: string): Option<Gate> {
    var i := IndexOf(gs, id);
    if i < |gs| then Some(gs[i]) else None
  }

  /** `gates.set(g.id, g)`. */
  function Put(gs: seq<Gate>, g: Gate): seq<Gate> {
    var i := IndexOf(gs, g.id);
    if i < |gs| then gs[i := g] else gs + [g]
  }

  /** `gates.delete(id)`. */
  function Delete(gs: seq<Gate>, id: string): seq<Gate> {
    var i := IndexOf(gs, id);
    if i < |gs| then gs[..i] + gs[i + 1..] else gs
  }

  /** An id is found exactly when it is registered, and then to its gate. */
  lemma LookupFinds(gs: seq<Gate>, id: string)
    requires DistinctIds(gs)
    ensures Lookup(gs, id).Some? <==> id in Ids(gs)
    ensures forall i | 0 <= i < |gs| && gs[i].id == id :: Lookup(gs, id) == Some(gs[i])
  {
    if id in Ids(gs) {
      var i :| 0 <= i < |gs| && gs[i].id == id;
      assert IndexOf(gs, id) <= i;
    }
  }

  /** `set` registers the gate under its id, keeps every other entry and its
      position, and appends only a new id. */
  lemma PutSpec(gs: seq<Gate>, g: Gate)
    requires DistinctIds(gs)
    ensures DistinctIds(Put(gs, g)) && Ids(Put(gs, g)) == Ids(gs) + {g.id}
    ensures Lookup(Put(gs, g), g.id) == Some(g)
    ensures forall id | id != g.id :: Lookup(Put(gs, g), id) == Lookup(gs, id)
    ensures g.id in Ids(gs) ==> |Put(gs, g)| == |gs|
    ensures g.id !in Ids(gs) ==> Put(gs, g) == gs + [g]
  {
    var r := Put(gs, g);
    var i := IndexOf(gs, g.id);
    assert forall j | 0 <= j < |r| && j != i :: r[j] == gs[j];
    assert Ids(r) == Ids(gs) + {g.id} by {
      forall x | x in Ids(gs) + {g.id}
        ensures x in Ids(r)
      {
        if x != g.id {
          var j :| 0 <= j < |gs| && gs[j].id == x;
          assert r[j] == gs[j];
        } else {
          assert r[i] == g;
        }
      }
    }
    LookupFinds(r, g.id);
    LookupFinds(gs, g.id);
    forall id | id != g.id
      ensures Lookup(r, id) == Lookup(gs, id)
    {
      LookupFinds(r, id);
      LookupFinds(gs, id);
      if id in Ids(gs) {
        var j :| 0 <= j < |gs| && gs[j].id == id;
        assert r[j] == gs[j];
      }
    }
  }

  lemma PutDistinct(gs: seq<Gate>, g: Gate)
    requires DistinctIds(gs)
    ensures DistinctIds(Put(gs, g))
  {
    PutSpec(gs, g);
  }

  /** Registering `g` keeps every registered gate among the tracked ones, under its own id. */
  lemma PutTracked(gs: seq<Gate>, g: Gate, R: set<Gate>)
    requires (forall i | 0 <= i < |gs| :: gs[i] in R) && DistinctIds(gs)
    ensures (forall i | 0 <= i < |Put(gs, g)| :: Put(gs, g)[i] in R + {g}) && DistinctIds(Put(gs, g))
  {
    PutDistinct(gs, g);
    PutMembers(gs, g);
  }

  lemma PutMembers(gs: seq<Gate>, g: Gate)
    ensures forall i | 0 <= i < |Put(gs, g)| :: Put(gs, g)[i] == g || Put(gs, g)[i] in gs
  {
  }

  lemma DeleteMembers(gs: seq<Gate>, id: string)
    ensures forall i | 0 <= i < |Delete(gs, id)| :: Delete(gs, id)[i] in gs
  {
    var i := IndexOf(gs, id);
    if i < |gs| {
      var r := gs[..i] + gs[i + 1..];
      forall j | 0 <= j < |r|
        ensures r[j] in gs
      {
        if j < i {
          assert r[j] == gs[j];
        } else {
          assert r[j] == gs[j + 1];
        }
      }
    }
  }

  /** `delete` forgets `id` and keeps every other entry, in order. */
  lemma DeleteSpec(gs: seq<Gate>, id: string)
    requires DistinctIds(gs)
    ensures DistinctIds(Delete(gs, id)) && Ids(Delete(gs, id)) == Ids(gs) - {id}
    ensures Lookup(Delete(gs, id), id) == None
    ensures forall k | k != id :: Lookup(Delete(gs, id), k) == Lookup(gs, k)
    ensures id !in Ids(gs) ==> Delete(gs, id) == gs
  {
    var r := Delete(gs, id);
    var i := IndexOf(gs, id);
    LookupFinds(gs, id);
    if i < |gs| {
      assert forall j | 0 <= j < |r| :: r[j] == gs[if j < i then j else j + 1];
      assert Ids(r) == Ids(gs) - {id} by {
        forall x | x in Ids(gs) - {id}
          ensures x in Ids(r)
        {
          var j :| 0 <= j < |gs| && gs[j].id == x;
          assert r[if j < i then j else j - 1] == gs[j];
        }
      }
    }
    LookupFinds(r, id);
    forall k | k != id
      ensures Lookup(r, k) == Lookup(gs, k)
    {
      LookupFinds(r, k);
      LookupFinds(gs, k);
      if k in Ids(gs) {
        var j :| 0 <= j < |gs| && gs[j].id == k;
        assert r[if j < i then j else j - 1] == gs[j];
      }
    }
  }

  // ---------------------------------------------------------------------------
  // Links matched to slots

  /** The slot a link names holds the gate the link leaves from. */
  predicate LinkHeld(net: Net, x: Gate, l: Link)
    requires l.gate in net
  {
    l.inputIndex < |net[l.gate].inputGates| && net[l.gate].inputGates[l.inputIndex] == x
  }

  /** Every link is matched by its slot. */
  predicate Matched(net: Net)
    requires Closed(net)
  {
    forall x, k | x in net && 0 <= k < |net[x].outputGates| :: LinkHeld(net, x, net[x].outputGates[k])
  }

  /** Every filled slot is backed by the link that names it: slot `j` of `c`
      holding `x` means `x` has the link `Link(c, j)`. With `Matched`, slots
      and links correspond, which is what lets the `disconnectFrom` calls of
      `removeGate` leave no reference behind. */
  predicate SlotsHeld(net: Net)
    requires Closed(net)
  {
    forall c, j | c in net && 0 <= j < |net[c].inputGates| && net[c].inputGates[j] != null ::
      Link(c, j) in net[net[c].inputGates[j]].outputGates
  }

  /** What a circuit keeps of its network: no loop, every filled slot backed
      by its link, and every link held by its slot. The caches need not be
      fresh. */
  ghost predicate Intact(net: Net) {
    Closed(net) && Matched(net) && SlotsHeld(net) && WellWired(net)
  }

  /** `connectGates` fills a new last slot, so the new link and the new slot
      match each other, and no other link or slot loses its partner. */
  lemma WiredMatched(a: Net, src: Gate, dst: Gate)
    requires Closed(a) && Matched(a) && SlotsHeld(a) && src in a && dst in a
    ensures Closed(Wired(a, src, dst, |a[dst].inputGates|))
    ensures Matched(Wired(a, src, dst, |a[dst].inputGates|))
    ensures SlotsHeld(Wired(a, src, dst, |a[dst].inputGates|))
  {
    var n := |a[dst].inputGates|;
    var w := Wired(a, src, dst, n);
    WiredClosed(a, src, dst, n);
    forall x, k | x in w && 0 <= k < |w[x].outputGates|
      ensures LinkHeld(w, x, w[x].outputGates[k])
    {
      if x == src && k == |a[src].outputGates| {
        assert w[x].outputGates[k] == Link(dst, n);
      } else {
        var l := a[x].outputGates[k];
        assert w[x].outputGates[k] == l;
        assert LinkHeld(a, x, l);
        assert l.gate == dst ==> l.inputIndex < n;
      }
    }
    forall c, j | c in w && 0 <= j < |w[c].inputGates| && w[c].inputGates[j] != null
      ensures Link(c, j) in w[w[c].inputGates[j]].outputGates
    {
      if c == dst && j == n {
        assert w[src].outputGates == a[src].outputGates + [Link(dst, n)];
      } else {
        var x := a[c].inputGates[j];
        assert w[c].inputGates[j] == x;
        assert Link(c, j) in a[x].outputGates;
        assert x == src ==> w[x].outputGates == a[x].outputGates + [Link(dst, n)];
      }
    }
  }

  /** Demanding outputs moves no wire and dirties no gate. */
  lemma SettledMatched(a: Net, b: Net, rank: map<Gate, nat>)
    requires Closed(a) && Matched(a) && SlotsHeld(a) && Settled(a, b, rank)
    ensures Closed(b) && Matched(b) && SlotsHeld(b)
    ensures forall g | g in a && !a[g].dirty :: !b[g].dirty
  {
    forall g | g in a
      ensures b[g].inputGates == a[g].inputGates && b[g].outputGates == a[g].outputGates
      ensures !a[g].dirty ==> !b[g].dirty
    {
      if a[g] != b[g] {
        assert Cleaned(a, rank, g, b[g]);
      }
    }
    forall x, k | x in b && 0 <= k < |b[x].outputGates|
      ensures LinkHeld(b, x, b[x].outputGates[k])
    {
      assert LinkHeld(a, x, a[x].outputGates[k]);
    }
  }

  lemma RedirtiedMatched(a: Net, b: Net)
    requires Closed(a) && Matched(a) && SlotsHeld(a) && Redirtied(a, b)
    ensures Closed(b) && Matched(b) && SlotsHeld(b)
  {
    RedirtiedClosed(a, b);
    forall x, k | x in b && 0 <= k < |b[x].outputGates|
      ensures LinkHeld(b, x, b[x].outputGates[k])
    {
      assert LinkHeld(a, x, a[x].outputGates[k]);
    }
  }

  /** Flags are no part of being intact. */
  lemma RedirtiedIntact(a: Net, b: Net)
    requires Intact(a) && Redirtied(a, b)
    ensures Intact(b)
  {
    RedirtiedWellWired(a, b);
    RedirtiedMatched(a, b);
  }

  /** `connectGates` on two registered gates keeps the network intact,
      whatever the flood from the source did. */
  lemma ConnectIntact(a: Net, b: Net, src: Gate, dst: Gate)
    requires Intact(a) && src in a && dst in a && !Reaches(a, dst, src)
    requires AfterFlood(Wired(a, src, dst, |a[dst].inputGates|), b, src)
    ensures Intact(b)
  {
    var w := Wired(a, src, dst, |a[dst].inputGates|);
    WiredWellWired(a, src, dst, |a[dst].inputGates|);
    WiredMatched(a, src, dst);
    RedirtiedIntact(w, b);
  }

  // ---------------------------------------------------------------------------
  // Adding a new gate

  /** A gate with no wires, added to a network, lies on no walk of two or more gates. */
  lemma AddedOffPaths(net: Net, g: Gate, st: GateState, p: seq<Gate>)
    requires Closed(net) && g !in net && st.outputGates == []
    requires Path(net[g := st], p) && |p| > 1
    ensures Path(net, p)
  {
    var n := net[g := st];
    forall j | 0 <= j < |p|
      ensures p[j] in net
    {
      if j < |p| - 1 {
        assert Edge(n, p[j], p[j + 1]);
      } else {
        assert Edge(n, p[j - 1], p[j]);
        var k :| 0 <= k < |n[p[j - 1]].outputGates| && n[p[j - 1]].outputGates[k].gate == p[j];
      }
    }
    forall j | 0 <= j < |p| - 1
      ensures Edge(net, p[j], p[j + 1])
    {
      assert Edge(n, p[j], p[j + 1]);
    }
  }

  lemma AddedWellWired(net: Net, g: Gate, st: GateState)
    requires WellWired(net) && g !in net && st.inputGates == [] && st.outputGates == []
    ensures WellWired(net[g := st])
  {
    var n := net[g := st];
    forall x, y | x in net
      ensures Edge(n, x, y) == Edge(net, x, y)
    {
      assert n[x] == net[x];
    }
    forall p | Path(n, p) && |p| > 1
      ensures Path(net, p)
    {
      AddedOffPaths(net, g, st, p);
    }
  }

  lemma AddedMatched(net: Net, g: Gate, st: GateState)
    requires Closed(net) && Matched(net) && SlotsHeld(net) && g !in net && st.inputGates == [] && st.outputGates == []
    ensures Closed(net[g := st]) && Matched(net[g := st]) && SlotsHeld(net[g := st])
  {
    var n := net[g := st];
    forall x, k | x in n && 0 <= k < |n[x].outputGates|
      ensures LinkHeld(n, x, n[x].outputGates[k])
    {
      assert LinkHeld(net, x, net[x].outputGates[k]);
    }
  }

  /** Registering a new, unwired gate keeps the network intact: `addGate`
      on a gate straight from its constructor. */
  lemma AddFreshIntact(net: Net, g: Gate, st: GateState)
    requires Intact(net) && g !in net && st.inputGates == [] && st.outputGates == []
    ensures Intact(net[g := st])
  {
    AddedWellWired(net, g, st);
    AddedMatched(net, g, st);
  }

  /** A new, unwired, dirty gate leaves every cache of a sound network fresh. */
  lemma AddFreshSound(net: Net, g: Gate, st: GateState)
    requires Sound(net) && g !in net && st.inputGates == [] && st.outputGates == [] && st.dirty
    ensures Sound(net[g := st])
  {
    AddedWellWired(net, g, st);
    AddedCoherent(net, g, st);
  }

  lemma AddedCoherent(net: Net, g: Gate, st: GateState)
    requires Sound(net) && g !in net && st.inputGates == [] && st.outputGates == [] && st.dirty
    requires WellWired(net[g := st])
    ensures Coherent(net[g := st], RankOf(AllDirty(net[g := st])))
  {
    var n := net[g := st];
    AllDirtyWellWired(n);
    AllDirtyRanked(net, RankOf(AllDirty(net)));
    AddedFeedersClean(net, n, g, st);
    AddedRawSame(net, n, g, st);
  }

  /** The gates clean after adding `g` compute what they computed before. */
  lemma AddedRawSame(net: Net, n: Net, g: Gate, st: GateState)
    requires Sound(net) && g !in net && st.inputGates == [] && st.outputGates == [] && st.dirty
    requires n == net[g := st] && WellWired(n)
    requires forall h | h in n && !n[h].dirty :: FeedersClean(n, h)
    ensures Ranked(AllDirty(n), RankOf(AllDirty(n)))
    ensures forall h | h in CleanSet(n) ::
              Raw(AllDirty(n), RankOf(AllDirty(n)), h) == Raw(AllDirty(net), RankOf(AllDirty(net)), h)
  {
    var rank, rank' := RankOf(AllDirty(net)), RankOf(AllDirty(n));
    AllDirtyWellWired(n);
    SoundRanked(net);
    AllDirtyWellWired(net);
    CleanSetClosed(n, n);
    AddedAgree(net, g, st);
    var S := CleanSet(n);
    forall h | h in S
      ensures Raw(AllDirty(n), rank', h) == Raw(AllDirty(net), rank, h)
    {
      LocalRaw(AllDirty(n), AllDirty(net), rank', rank, S, h);
    }
  }

  lemma AddedFeedersClean(net: Net, n: Net, g: Gate, st: GateState)
    requires Closed(net) && g !in net && st.inputGates == [] && st.dirty && n == net[g := st]
    requires forall h | h in net && !net[h].dirty :: FeedersClean(net, h)
    ensures Redirtied(n, n)
    ensures forall h | h in n && !n[h].dirty :: FeedersClean(n, h)
  {
    forall h | h in n && !n[h].dirty
      ensures FeedersClean(n, h)
    {
      assert FeedersClean(net, h);
      forall i | 0 <= i < |n[h].inputGates|
        ensures SlotClean(n, h, i)
      {
        assert SlotClean(net, h, i);
      }
    }
  }

  lemma AddedAgree(net: Net, g: Gate, st: GateState)
    requires g !in net && st.dirty
    ensures CleanSet(net[g := st]) <= net.Keys
    ensures Agree(AllDirty(net[g := st]), AllDirty(net), CleanSet(net[g := st]))
  {
    var n := net[g := st];
    forall h | h in CleanSet(n)
      ensures AllDirty(n)[h] == AllDirty(net)[h]
    {
      assert h != g;
    }
  }

  // ---------------------------------------------------------------------------
  // What `evaluate` answers

  /** The object `evaluate` builds from each registered gate's answer, in
      registry order: each output under its gate's id, or the first error. */
  function Collect(gs: seq<Gate>, rs: seq<Result<bool>>): Result<map<string, bool>>
    requires |gs| == |rs|
  {
    if gs == [] then Success(map[])
    else
      match Collect(gs[..|gs| - 1], rs[..|rs| - 1])
        case Failure(e) => Failure(e)
        case Success(m) =>
          match rs[|rs| - 1]
            case Failure(e) => Failure(e)
            case Success(v) => Success(m[gs[|gs| - 1].id := v])
  }

  /** One more answer: a value extends the object under that gate's id, an error becomes the result. */
  lemma CollectStep(gs: seq<Gate>, rs: seq<Result<bool>>, i: nat, m: map<string, bool>)
    requires |gs| == |rs| && i < |gs|
    requires Collect(gs[..i], rs[..i]) == Success(m)
    ensures rs[i].Success? ==> Collect(gs[..i + 1], rs[..i + 1]) == Success(m[gs[i].id := rs[i].value])
    ensures rs[i].Failure? ==> Collect(gs[..i + 1], rs[..i + 1]) == Failure(rs[i].error)
  {
    assert gs[..i + 1][..i] == gs[..i] && rs[..i + 1][..i] == rs[..i];
  }

  /** What `getOutput` answers for each of `gs`, from the caches as they stand. */
  ghost function Reported(net: Net, gs: seq<Gate>): (rs: seq<Result<bool>>)
    requires Ranked(net, RankOf(AllDirty(net))) && forall i | 0 <= i < |gs| :: gs[i] in net
    ensures |rs| == |gs|
  {
    seq(|gs|, i requires 0 <= i < |gs| => Eval(net, RankOf(AllDirty(net)), gs[i]))
  }

  /** What `getOutput` would answer for each of `gs` if every gate recomputed. */
  ghost function FreshAll(net: Net, gs: seq<Gate>): (rs: seq<Result<bool>>)
    requires Ranked(AllDirty(net), RankOf(AllDirty(net))) && forall i | 0 <= i < |gs| :: gs[i] in net
    ensures |rs| == |gs|
  {
    seq(|gs|, i requires 0 <= i < |gs| => Fresh(net, RankOf(AllDirty(net)), gs[i]))
  }

  /** One step of `evaluate`: the `i`-th gate answered `rs[i]` after the
      first `i` answers built `m`. An error is then the answer of the whole;
      a value extends `m`. */
  lemma Answered(gs: seq<Gate>, rs: seq<Result<bool>>, i: nat, m: map<string, bool>)
    requires |gs| == |rs| && i < |gs| && Collect(gs[..i], rs[..i]) == Success(m)
    ensures rs[i].Failure? ==> Collect(gs, rs) == Failure(rs[i].error)
    ensures rs[i].Success? ==> Collect(gs[..i + 1], rs[..i + 1]) == Success(m[gs[i].id := rs[i].value])
  {
    CollectStep(gs, rs, i, m);
    if rs[i].Failure? {
      CollectFailure(gs, rs, i + 1);
    }
  }

  lemma CollectWhole(gs: seq<Gate>, rs: seq<Result<bool>>)
    requires |gs| == |rs|
    ensures Collect(gs[..|gs|], rs[..|rs|]) == Collect(gs, rs)
  {
    assert gs[..|gs|] == gs;
    assert rs[..|rs|] == rs;
  }

  /** A network with no loop is ranked for `getOutput` by the ranking of its
      wiring. */
  lemma WiredRanked(net: Net)
    requires WellWired(net)
    ensures Ranked(net, RankOf(AllDirty(net))) && Ranked(AllDirty(net), RankOf(AllDirty(net)))
  {
    AllDirtyWellWired(net);
    AllDirtyRanked(net, RankOf(AllDirty(net)));
  }

  /** What `evaluate` answers on `net`: every registered gate's output, from
      the caches as they stand. */
  ghost function Evaluated(net: Net, gs: seq<Gate>): Result<map<string, bool>>
    requires Ranked(net, RankOf(AllDirty(net))) && forall i | 0 <= i < |gs| :: gs[i] in net
  {
    Collect(gs, Reported(net, gs))
  }

  /** On a sound network, `evaluate` answers every gate's fresh output: what
      it would answer if every gate recomputed. */
  lemma EvaluatedFresh(net: Net, gs: seq<Gate>)
    requires Sound(net) && forall i | 0 <= i < |gs| :: gs[i] in net
    ensures Ranked(net, RankOf(AllDirty(net))) && Ranked(AllDirty(net), RankOf(AllDirty(net)))
    ensures Evaluated(net, gs) == Collect(gs, FreshAll(net, gs))
  {
    WiredRanked(net);
    var rs, fs := Reported(net, gs), FreshAll(net, gs);
    forall j | 0 <= j < |gs|
      ensures rs[j] == fs[j]
    {
      SoundEval(net, gs[j]);
    }
    assert rs == fs;
  }

  lemma IdsSnoc(gs: seq<Gate>)
    requires gs != []
    ensures Ids(gs) == Ids(gs[..|gs| - 1]) + {gs[|gs| - 1].id}
  {
    var pre := gs[..|gs| - 1];
    forall x | x in Ids(gs)
      ensures x in Ids(pre) + {gs[|gs| - 1].id}
    {
      var i :| 0 <= i < |gs| && gs[i].id == x;
      if i < |gs| - 1 {
        assert pre[i].id == x;
      }
    }
    forall x | x in Ids(pre)
      ensures x in Ids(gs)
    {
      var i :| 0 <= i < |pre| && pre[i].id == x;
      assert gs[i].id == x;
    }
  }

  /** The object is built exactly when no gate fails; it then holds one
      entry per registered id, that gate's output. */
  lemma CollectSuccess(gs: seq<Gate>, rs: seq<Result<bool>>)
    requires |gs| == |rs| && DistinctIds(gs)
    ensures Collect(gs, rs).Success? <==> forall i | 0 <= i < |rs| :: rs[i].Success?
    ensures Collect(gs, rs).Success? ==>
      && Collect(gs, rs).value.Keys == Ids(gs)
      && forall i | 0 <= i < |gs| :: rs[i] == Success(Collect(gs, rs).value[gs[i].id])
  {
    CollectSoFar(gs, rs);
    if forall i | 0 <= i < |rs| :: rs[i].Success? {
      CollectBuilt(gs, rs);
    }
    CollectEntries(gs, rs);
  }

  lemma {:induction false} CollectSoFar(gs: seq<Gate>, rs: seq<Result<bool>>)
    requires |gs| == |rs|
    ensures Collect(gs, rs).Success? ==> forall i | 0 <= i < |rs| :: rs[i].Success?
  {
    if gs != [] {
      var n := |gs| - 1;
      assert forall i | 0 <= i < n :: rs[..n][i] == rs[i];
      CollectSoFar(gs[..n], rs[..n]);
    }
  }

  lemma {:induction false} CollectBuilt(gs: seq<Gate>, rs: seq<Result<bool>>)
    requires |gs| == |rs| && forall i | 0 <= i < |rs| :: rs[i].Success?
    ensures Collect(gs, rs).Success?
  {
    if gs != [] {
      var n := |gs| - 1;
      assert forall i | 0 <= i < n :: rs[..n][i] == rs[i];
      CollectBuilt(gs[..n], rs[..n]);
    }
  }

  lemma CollectEntries(gs: seq<Gate>, rs: seq<Result<bool>>)
    requires |gs| == |rs| && DistinctIds(gs)
    ensures Collect(gs, rs).Success? ==>
      && Collect(gs, rs).value.Keys == Ids(gs)
      && forall i | 0 <= i < |gs| :: rs[i] == Success(Collect(gs, rs).value[gs[i].id])
  {
    CollectKeys(gs, rs);
    CollectValues(gs, rs);
  }

  lemma {:induction false} CollectKeys(gs: seq<Gate>, rs: seq<Result<bool>>)
    requires |gs| == |rs|
    ensures Collect(gs, rs).Success? ==> Collect(gs, rs).value.Keys == Ids(gs)
  {
    if gs != [] && Collect(gs, rs).Success? {
      var n := |gs| - 1;
      CollectKeys(gs[..n], rs[..n]);
      IdsSnoc(gs);
    }
  }

  lemma {:induction false} CollectValues(gs: seq<Gate>, rs: seq<Result<bool>>)
    requires |gs| == |rs| && DistinctIds(gs)
    ensures Collect(gs, rs).Success? ==>
      forall i | 0 <= i < |gs| :: gs[i].id in Collect(gs, rs).value && rs[i] == Success(Collect(gs, rs).value[gs[i].id])
  {
    if gs != [] && Collect(gs, rs).Success? {
      var n := |gs| - 1;
      var pre, prs := gs[..n], rs[..n];
      CollectValues(pre, prs);
      var m := Collect(pre, prs).value;
      assert rs[n].Success? && Collect(gs, rs).value == m[gs[n].id := rs[n].value];
      forall i | 0 <= i < n
        ensures gs[i].id in m && rs[i] == Success(m[gs[i].id]) && gs[i].id != gs[n].id
      {
        assert pre[i] == gs[i] && prs[i] == rs[i];
      }
    }
  }

  /** A failing `evaluate` throws the error of the first gate that fails. */
  lemma {:induction false} CollectError(gs: seq<Gate>, rs: seq<Result<bool>>)
    requires |gs| == |rs|
    ensures Collect(gs, rs).Failure? ==>
      exists i | 0 <= i < |rs| :: rs[i] == Failure(Collect(gs, rs).error)
        && forall j | 0 <= j < i :: rs[j].Success?
  {
    if gs != [] {
      var n := |gs| - 1;
      var prs := rs[..n];
      assert forall i | 0 <= i < n :: prs[i] == rs[i];
      CollectError(gs[..n], prs);
      CollectSoFar(gs[..n], prs);
      if Collect(gs[..n], prs).Failure? {
        var i :| 0 <= i < n && prs[i] == Failure(Collect(gs[..n], prs).error)
          && forall j | 0 <= j < i :: prs[j].Success?;
        assert rs[i] == Failure(Collect(gs, rs).error);
      } else if rs[n].Failure? {
        assert rs[n] == Failure(Collect(gs, rs).error);
      }
    }
  }

  /** Once a prefix fails, the whole fails the same way. */
  lemma {:induction false} CollectFailure(gs: seq<Gate>, rs: seq<Result<bool>>, i: nat)
    requires |gs| == |rs| && i <= |gs|
    requires Collect(gs[..i], rs[..i]).Failure?
    ensures Collect(gs, rs) == Collect(gs[..i], rs[..i])
    decreases |gs| - i
  {
    if i < |gs| {
      assert gs[..i + 1][..i] == gs[..i] && rs[..i + 1][..i] == rs[..i];
      CollectFailure(gs, rs, i + 1);
    } else {
      assert gs[..i] == gs && rs[..i] == rs;
    }
  }

  // ---------------------------------------------------------------------------
  // After `removeGate`

  /** No slot from 0 to `i` of `g` is filled. */
  predicate EmptyUpTo(net: Net, g: Gate, i: nat)
    requires g in net
  {
    forall j | 0 <= j < i && j < |net[g].inputGates| :: net[g].inputGates[j] == null
  }

  /** `g` has no wire, and no gate refers to it. */
  predicate Isolated(net: Net, g: Gate)
    requires g in net
  {
    && EmptyUpTo(net, g, |net[g].inputGates|)
    && net[g].outputGates == []
    && (forall x, j | x in net && 0 <= j < |net[x].inputGates| :: net[x].inputGates[j] != g)
    && (forall x, k | x in net && 0 <= k < |net[x].outputGates| :: net[x].outputGates[k].gate != g)
  }

  /** `n` empty slots. */
  function Holes(n: nat): (r: seq<Gate?>)
    ensures |r| == n && forall j | 0 <= j < n :: r[j] == null
  {
    seq(n, _ => null)
  }

  /** The gates `g` feeds. */
  function Consumers(net: Net, g: Gate): set<Gate>
    requires g in net
  {
    Targets(net[g].outputGates)
  }

  /** The gates a list of links points at. */
  function Targets(links: seq<Link>): set<Gate>
  {
    set k | 0 <= k < |links| :: links[k].gate
  }

  lemma TargetsStep(links: seq<Link>, k: nat)
    requires k < |links|
    ensures Targets(links[..k + 1]) == Targets(links[..k]) + {links[k].gate}
  {
    var l := links[..k + 1];
    assert l[..k] == links[..k];
    forall c | c in Targets(l) ensures c in Targets(links[..k]) + {links[k].gate} {
      var j :| 0 <= j < |l| && l[j].gate == c;
      if j < k { assert links[..k][j].gate == c; }
    }
    forall c | c in Targets(links[..k]) ensures c in Targets(l) {
      var j :| 0 <= j < k && links[..k][j].gate == c;
      assert l[j].gate == c;
    }
    assert l[k].gate == links[k].gate;
  }

  /** The network after `removeGate` of `g`, up to the flags its floods set
      on the way: `g` has no wire, no gate keeps a link to `g`, each gate `g`
      fed has emptied the slots that held it and is dirty, and nothing else
      changed. */
  function Detached(net: Net, g: Gate): Net
    requires g in net
  {
    map h | h in net ::
      if h == g then net[h].(inputGates := Holes(|net[h].inputGates|), outputGates := [])
      else if h in Consumers(net, g) then
        net[h].(inputGates := ClearAll(net[h].inputGates, g), outputGates := RemoveLinksTo(net[h].outputGates, g), dirty := true)
      else net[h].(outputGates := RemoveLinksTo(net[h].outputGates, g))
  }

  /** Removing a gate from an intact network leaves nothing that refers to it. */
  lemma DetachedIsolated(net: Net, g: Gate)
    requires Intact(net) && g in net
    ensures Isolated(Detached(net, g), g)
  {
    var d := Detached(net, g);
    forall x, j | x in d && 0 <= j < |d[x].inputGates|
      ensures d[x].inputGates[j] != g
    {
    }
  }

  /** A gate that neither feeds nor is fed by the removed gate is left as it was. */
  lemma DetachedKeeps(net: Net, g: Gate, h: Gate)
    requires Intact(net) && g in net && h in net && h != g && !Edge(net, g, h) && !Edge(net, h, g)
    ensures Detached(net, g)[h] == net[h]
  {
    assert h !in Consumers(net, g);
    RemoveLinksToNone(net[h].outputGates, g);
  }

  /** Marking gates dirty leaves an isolated gate isolated. */
  lemma IsolatedRedirtied(x: Net, y: Net, g: Gate)
    requires g in x && Redirtied(x, y) && Isolated(x, g)
    ensures Isolated(y, g)
  {
    forall h | h in y
      ensures y[h].inputGates == x[h].inputGates && y[h].outputGates == x[h].outputGates
    {
    }
  }

  lemma {:induction false} RemoveLinksToNone(links: seq<Link>, g: Gate)
    requires forall k | 0 <= k < |links| :: links[k].gate != g
    ensures RemoveLinksTo(links, g) == links
  {
    if links != [] {
      RemoveLinksToNone(links[1..], g);
      assert [links[0]] + links[1..] == links;
    }
  }

  lemma RemoveLinksToTwice(links: seq<Link>, g: Gate)
    ensures RemoveLinksTo(RemoveLinksTo(links, g), g) == RemoveLinksTo(links, g)
  {
    RemoveLinksToNone(RemoveLinksTo(links, g), g);
  }

  /** The links with every one to a gate of `C` dropped. */
  function DropLinks(links: seq<Link>, C: set<Gate>): seq<Link> {
    if links == [] then []
    else (if links[0].gate in C then [] else [links[0]]) + DropLinks(links[1..], C)
  }

  lemma {:induction false} DropNone(links: seq<Link>)
    ensures DropLinks(links, {}) == links
  {
    if links != [] {
      DropNone(links[1..]);
      assert [links[0]] + links[1..] == links;
    }
  }

  lemma {:induction false} DropMore(links: seq<Link>, C: set<Gate>, c: Gate)
    ensures RemoveLinksTo(DropLinks(links, C), c) == DropLinks(links, C + {c})
  {
    if links != [] {
      DropMore(links[1..], C, c);
      var head := if links[0].gate in C then [] else [links[0]];
      RemoveLinksToAppend(head, DropLinks(links[1..], C), c);
    }
  }

  lemma {:induction false} RemoveLinksToAppend(xs: seq<Link>, ys: seq<Link>, g: Gate)
    ensures RemoveLinksTo(xs + ys, g) == RemoveLinksTo(xs, g) + RemoveLinksTo(ys, g)
  {
    if xs != [] {
      RemoveLinksToAppend(xs[1..], ys, g);
      assert (xs + ys)[1..] == xs[1..] + ys;
    } else {
      assert xs + ys == ys;
    }
  }

  lemma {:induction false} DropAll(links: seq<Link>, C: set<Gate>)
    requires forall k | 0 <= k < |links| :: links[k].gate in C
    ensures DropLinks(links, C) == []
  {
    if links != [] {
      DropAll(links[1..], C);
    }
  }

  /** Unwiring two networks that differ only in flags leaves two networks
      that differ only in flags. */
  lemma UnwiredRedirtied(x: Net, m: Net, src: Gate, dst: Gate)
    requires Redirtied(x, m) && src in x && dst in x
    ensures Redirtied(Unwired(x, src, dst), Unwired(m, src, dst))
  {
    var u, v := Unwired(x, src, dst), Unwired(m, src, dst);
    forall h | h in u
      ensures v[h] == u[h].(dirty := v[h].dirty) && (u[h].dirty ==> v[h].dirty)
    {
      assert m[h] == x[h].(dirty := m[h].dirty);
    }
  }

  /** One `disconnectFrom` call on a network that is `x` up to flags leaves
      a network that is `x` unwired, up to flags. */
  lemma UnwiredAfter(x: Net, m: Net, b: Net, src: Gate, dst: Gate)
    requires Redirtied(x, m) && src in x && dst in x
    requires AfterFlood(Unwired(m, src, dst), b, dst)
    ensures Closed(b) && Redirtied(Unwired(x, src, dst), b)
  {
    UnwiredRedirtied(x, m, src, dst);
    RedirtiedTrans(Unwired(x, src, dst), Unwired(m, src, dst), b);
    RedirtiedClosed(Unwired(m, src, dst), b);
  }

  /** Setting a flag the later network has set keeps it a re-flagging. */
  lemma RedirtiedMark(x: Net, b: Net, c: Gate)
    requires Redirtied(x, b) && c in x && b[c].dirty
    ensures Redirtied(x[c := x[c].(dirty := true)], b)
  {
  }

  // The first loop of `removeGate`

  /** The gates sitting in `slots`. */
  function Feeders(slots: seq<Gate?>): set<Gate> {
    set h: Gate | h in slots
  }

  /** After the first loop of `removeGate`: `g` has no filled slot and no gate keeps a link to `g`. */
  function Unlinked(net: Net, g: Gate): Net
    requires g in net
  {
    map h | h in net ::
      if h == g then net[h].(inputGates := Holes(|net[h].inputGates|))
      else net[h].(outputGates := RemoveLinksTo(net[h].outputGates, g))
  }

  /** Part way through the first loop of `removeGate`, after `i` passes and
      up to the flags set on the way: the first `i` slots of `g` are empty,
      and every gate they held has dropped its links to `g`. */
  function Unfed(net: Net, g: Gate, i: nat): Net
    requires g in net && i <= |net[g].inputGates|
  {
    map h | h in net ::
      if h == g then net[h].(inputGates := Holes(i) + net[h].inputGates[i..])
      else if h in Feeders(net[g].inputGates[..i]) then net[h].(outputGates := RemoveLinksTo(net[h].outputGates, g))
      else net[h]
  }

  lemma UnfedNone(net: Net, g: Gate)
    requires g in net
    ensures Unfed(net, g, 0) == net
  {
    assert Holes(0) + net[g].inputGates[0..] == net[g].inputGates;
    assert Feeders(net[g].inputGates[..0]) == {};
  }

  lemma HolesStep(s: seq<Gate?>, i: nat)
    requires i < |s|
    ensures Holes(i + 1) + s[i + 1..] == (Holes(i) + s[i..])[i := null]
    ensures s[i] == null ==> Holes(i + 1) + s[i + 1..] == Holes(i) + s[i..]
  {
  }

  lemma FeedersStep(s: seq<Gate?>, i: nat)
    requires i < |s|
    ensures Feeders(s[..i + 1]) == Feeders(s[..i]) + (if s[i] == null then {} else {s[i]})
  {
    assert s[..i + 1] == s[..i] + [s[i]];
  }

  /** One pass of the first loop: the gate in slot `i`, if any, calls
      `disconnectFrom` as written. The slots before `i` are empty by then,
      so the first slot it finds holding itself is slot `i`; a gate met in an
      earlier slot as well has no link to `g` left to drop. */
  lemma UnfedStep(a: Net, g: Gate, i: nat)
    requires g in a && i < |a[g].inputGates| && a[g].inputGates[i] != g
    ensures a[g].inputGates[i] == null ==> Unfed(a, g, i + 1) == Unfed(a, g, i)
    ensures a[g].inputGates[i] != null && a[g].inputGates[i] in a ==>
      Unwired(Unfed(a, g, i), a[g].inputGates[i], g) == Unfed(a, g, i + 1)
  {
    var s := a[g].inputGates;
    HolesStep(s, i);
    FeedersStep(s, i);
    if s[i] != null && s[i] in a {
      UnfedStepWired(a, g, i, s[i]);
    }
  }

  lemma UnfedStepWired(a: Net, g: Gate, i: nat, p: Gate)
    requires g in a && p in a && i < |a[g].inputGates| && a[g].inputGates[i] == p && p != g
    ensures Unwired(Unfed(a, g, i), p, g) == Unfed(a, g, i + 1)
  {
    var s := a[g].inputGates;
    var x, y := Unfed(a, g, i), Unfed(a, g, i + 1);
    FeedersStep(s, i);
    UnfedFirst(a, g, i, p);
    RemoveLinksToTwice(a[p].outputGates, g);
    var w := Unwired(x, p, g);
    assert w.Keys == y.Keys;
    forall h | h in a
      ensures w[h] == y[h]
    {
      if h == g {
        assert w[h] == x[h].(inputGates := ClearFirst(x[h].inputGates, p));
      } else if h == p {
        assert w[h] == x[h].(outputGates := RemoveLinksTo(x[h].outputGates, g));
      } else {
        assert w[h] == x[h];
      }
    }
  }

  /** Part way through the first loop, the first slot of `g` holding the
      gate in slot `i` is slot `i`. */
  lemma UnfedFirst(a: Net, g: Gate, i: nat, p: Gate)
    requires g in a && i < |a[g].inputGates| && a[g].inputGates[i] == p
    ensures FirstIndex(Unfed(a, g, i)[g].inputGates, p) == i
    ensures ClearFirst(Unfed(a, g, i)[g].inputGates, p) == Unfed(a, g, i + 1)[g].inputGates
  {
    var s := a[g].inputGates;
    var slots := Holes(i) + s[i..];
    assert Unfed(a, g, i)[g].inputGates == slots;
    HolesStep(s, i);
    assert slots[i] == p;
    assert forall j | 0 <= j < i :: slots[j] == null;
  }

  /** After the last pass, the first loop has done what `Unlinked` says:
      a gate in no slot of `g` has no link to `g` in an intact network. */
  lemma UnfedDone(a: Net, g: Gate)
    requires Closed(a) && Matched(a) && g in a
    ensures Unfed(a, g, |a[g].inputGates|) == Unlinked(a, g)
  {
    var s := a[g].inputGates;
    assert s[..|s|] == s;
    forall h, k | h in a && 0 <= k < |a[h].outputGates| && a[h].outputGates[k].gate == g
      ensures h in Feeders(s)
    {
      var l := a[h].outputGates[k];
      assert LinkHeld(a, h, l);
      assert s[l.inputIndex] == h;
    }
    forall h | h in a && h != g && h !in Feeders(s)
      ensures RemoveLinksTo(a[h].outputGates, g) == a[h].outputGates
    {
      RemoveLinksToNone(a[h].outputGates, g);
    }
    assert Holes(|s|) + s[|s|..] == Holes(|s|);
  }

  /** After the first loop, `g` still has the links it had. */
  lemma UnlinkedLinks(a: Net, m: Net, g: Gate)
    requires g in a && Redirtied(Unlinked(a, g), m)
    ensures g in m && m[g].outputGates == a[g].outputGates
  {
    assert m[g] == Unlinked(a, g)[g].(dirty := m[g].dirty);
  }

  // The second loop of `removeGate`

  /** The slots that hold `g`. */
  function Positions(slots: seq<Gate?>, g: Gate): set<nat> {
    set j | 0 <= j < |slots| && slots[j] == g
  }

  /** How many of `links` lead to `c`. */
  function Count(links: seq<Link>, c: Gate): nat {
    |set k | 0 <= k < |links| && links[k].gate == c|
  }

  /** `n` passes of `ClearFirst`: the first `n` slots holding `g` emptied. */
  function ClearFirstN(slots: seq<Gate?>, g: Gate, n: nat): seq<Gate?> {
    if n == 0 then slots else ClearFirst(ClearFirstN(slots, g, n - 1), g)
  }

  /** Part way through the second loop of `removeGate`, after `k` passes
      over the links `g` had when the loop began and up to the flags set on
      the way: `g` has dropped every link to a gate those `k` links lead to,
      and each such gate has emptied one slot holding `g` per link and is
      dirty. */
  function Cut(net: Net, g: Gate, k: nat): Net
    requires g in net && k <= |net[g].outputGates|
  {
    var done := net[g].outputGates[..k];
    map h | h in net ::
      if h == g then net[h].(outputGates := DropLinks(net[h].outputGates, Targets(done)))
      else if h in Targets(done) then
        net[h].(inputGates := ClearFirstN(net[h].inputGates, g, Count(done, h)), dirty := true)
      else net[h]
  }

  lemma CutNone(net: Net, g: Gate)
    requires g in net
    ensures Cut(net, g, 0) == net
  {
    assert Targets(net[g].outputGates[..0]) == {};
    DropNone(net[g].outputGates);
  }

  lemma CountStep(links: seq<Link>, k: nat, c: Gate)
    requires k < |links|
    ensures Count(links[..k + 1], c) == Count(links[..k], c) + (if links[k].gate == c then 1 else 0)
  {
    var s, t := links[..k], links[..k + 1];
    var A := set j | 0 <= j < |s| && s[j].gate == c;
    var B := set j | 0 <= j < |t| && t[j].gate == c;
    if links[k].gate == c {
      assert B == A + {k};
    } else {
      assert B == A;
    }
  }

  lemma CountNone(links: seq<Link>, c: Gate)
    requires c !in Targets(links)
    ensures Count(links, c) == 0
  {
    assert forall j | 0 <= j < |links| :: links[j].gate in Targets(links);
    assert (set j | 0 <= j < |links| && links[j].gate == c) == {};
  }

  /** One pass of the second loop: `g` calls `disconnectFrom` as written on
      the gate `c` of its `k`-th link, which drops every link of `g` to `c`,
      empties the first slot of `c` holding `g`, and marks `c` dirty. */
  lemma CutStep(x: Net, g: Gate, k: nat)
    requires g in x && k < |x[g].outputGates|
    requires x[g].outputGates[k].gate in x && x[g].outputGates[k].gate != g
    ensures var c := x[g].outputGates[k].gate;
            var u := Unwired(Cut(x, g, k), g, c);
            u[c := u[c].(dirty := true)] == Cut(x, g, k + 1)
  {
    var outs := x[g].outputGates;
    var c := outs[k].gate;
    var y, z := Cut(x, g, k), Cut(x, g, k + 1);
    var u := Unwired(y, g, c);
    var v := u[c := u[c].(dirty := true)];
    var T := Targets(outs[..k]);
    TargetsStep(outs, k);
    assert v.Keys == z.Keys;
    forall h | h in x
      ensures v[h] == z[h]
    {
      CountStep(outs, k, h);
      if h == g {
        DropMore(outs, T, c);
        assert v[h] == y[h].(outputGates := RemoveLinksTo(y[h].outputGates, c));
      } else if h == c {
        var n := Count(outs[..k], c);
        if c !in T {
          CountNone(outs[..k], c);
          assert y[h].inputGates == ClearFirstN(x[h].inputGates, g, 0);
        }
        assert y[h].inputGates == ClearFirstN(x[h].inputGates, g, n);
        assert v[h] == y[h].(inputGates := ClearFirst(y[h].inputGates, g), dirty := true);
        assert z[h] == x[h].(inputGates := ClearFirstN(x[h].inputGates, g, n + 1), dirty := true);
      } else {
        assert v[h] == y[h];
        assert h in T <==> h in T + {c};
      }
    }
  }

  /** `n` passes of `ClearFirst` empty only slots holding `g`, and one of
      them per pass while any is left. */
  lemma {:induction false} ClearFirstNCleared(slots: seq<Gate?>, g: Gate, n: nat)
    ensures |ClearFirstN(slots, g, n)| == |slots|
    ensures forall j | 0 <= j < |slots| ::
      ClearFirstN(slots, g, n)[j] == slots[j] || (slots[j] == g && ClearFirstN(slots, g, n)[j] == null)
    ensures |Positions(ClearFirstN(slots, g, n), g)| ==
      if n < |Positions(slots, g)| then |Positions(slots, g)| - n else 0
  {
    if n > 0 {
      ClearFirstNCleared(slots, g, n - 1);
      var s := ClearFirstN(slots, g, n - 1);
      var i := FirstIndex(s, g);
      if i < |s| {
        var P := Positions(s, g);
        assert Positions(s[i := null], g) == P - {i};
        assert P == (P - {i}) + {i};
      } else {
        assert Positions(s, g) == {};
      }
    }
  }

  /** As many passes as there are slots holding `g` empty all of them. */
  lemma ClearFirstNAll(slots: seq<Gate?>, g: Gate, n: nat)
    requires |Positions(slots, g)| <= n
    ensures ClearFirstN(slots, g, n) == ClearAll(slots, g)
  {
    ClearFirstNCleared(slots, g, n);
    var r := ClearFirstN(slots, g, n);
    assert Positions(r, g) == {};
    forall j | 0 <= j < |r|
      ensures r[j] == ClearAll(slots, g)[j]
    {
      assert j !in Positions(r, g);
    }
  }

  lemma SubsetSmaller<T>(A: set<T>, B: set<T>)
    requires A <= B
    ensures |A| <= |B|
  {
    assert B == A + (B - A) && A * (B - A) == {};
  }

  /** A set of links names no more slots than it has links. */
  lemma ImageSmaller(links: seq<Link>, L: set<nat>)
    requires forall k | k in L :: k < |links|
    ensures |set k | k in L :: links[k].inputIndex| <= |L|
    decreases L
  {
    if L != {} {
      var k :| k in L;
      ImageSmaller(links, L - {k});
      var I := set k' | k' in L - {k} :: links[k'].inputIndex;
      assert (set k' | k' in L :: links[k'].inputIndex) == I + {links[k].inputIndex};
      assert L == (L - {k}) + {k};
    }
  }

  /** A consumer holds `g` in no more slots than `g` has links to it, for
      each such slot is backed by its own link. */
  lemma SlotsBound(a: Net, g: Gate, c: Gate)
    requires Closed(a) && SlotsHeld(a) && g in a && c in a
    ensures |Positions(a[c].inputGates, g)| <= Count(a[g].outputGates, c)
  {
    var links := a[g].outputGates;
    var L := set k | 0 <= k < |links| && links[k].gate == c;
    var I := set k | k in L :: links[k].inputIndex;
    forall j | j in Positions(a[c].inputGates, g)
      ensures j in I
    {
      assert Link(c, j) in links;
      var k :| 0 <= k < |links| && links[k] == Link(c, j);
      assert k in L;
    }
    SubsetSmaller(Positions(a[c].inputGates, g), I);
    ImageSmaller(links, L);
  }

  /** After the last pass, the two loops together have done what `Detached`
      says: in an intact network each consumer gets at least as many passes
      as it has slots holding `g`, so every such slot is emptied. */
  lemma CutDone(a: Net, g: Gate)
    requires Closed(a) && SlotsHeld(a) && g in a
    requires forall k | 0 <= k < |a[g].outputGates| :: a[g].outputGates[k].gate != g
    ensures Cut(Unlinked(a, g), g, |a[g].outputGates|) == Detached(a, g)
  {
    var outs := a[g].outputGates;
    forall h | h in Targets(outs)
      ensures h in a && |Positions(a[h].inputGates, g)| <= Count(outs, h)
    {
      var k :| 0 <= k < |outs| && outs[k].gate == h;
      SlotsBound(a, g, h);
    }
    CutAll(a, g);
  }

  /** Given enough passes for every consumer, the second loop ends at `Detached`. */
  lemma CutAll(a: Net, g: Gate)
    requires g in a
    requires forall k | 0 <= k < |a[g].outputGates| :: a[g].outputGates[k].gate != g
    requires forall h | h in Targets(a[g].outputGates) ::
      h in a && |Positions(a[h].inputGates, g)| <= Count(a[g].outputGates, h)
    ensures Cut(Unlinked(a, g), g, |a[g].outputGates|) == Detached(a, g)
  {
    var x := Unlinked(a, g);
    var outs := a[g].outputGates;
    assert x[g].outputGates == outs;
    assert outs[..|outs|] == outs;
    DropAll(outs, Targets(outs));
    var y, d := Cut(x, g, |outs|), Detached(a, g);
    assert y.Keys == d.Keys;
    forall h | h in a
      ensures y[h] == d[h]
    {
      if h == g {
      } else if h in Consumers(a, g) {
        ClearFirstNAll(a[h].inputGates, g, Count(outs, h));
        CutAt(x, g, |outs|, h);
      } else {
        CutAt(x, g, |outs|, h);
      }
    }
  }

  /** What `Cut` does to one gate other than `g`. */
  lemma CutAt(x: Net, g: Gate, k: nat, h: Gate)
    requires g in x && h in x && h != g && k <= |x[g].outputGates|
    ensures var done := x[g].outputGates[..k];
      Cut(x, g, k)[h] ==
        if h in Targets(done) then x[h].(inputGates := ClearFirstN(x[h].inputGates, g, Count(done, h)), dirty := true)
        else x[h]
  {
  }

  /** What `Detached` leaves of one gate: some of its links, its slots
      or empty ones, and no reference to the removed gate. */
  lemma DetachedAt(a: Net, g: Gate, x: Gate)
    requires Closed(a) && SlotsHeld(a) && g in a && x in a
    ensures var d := Detached(a, g);
      && (forall l | l in d[x].outputGates :: l in a[x].outputGates && l.gate != g)
      && |d[x].inputGates| == |a[x].inputGates|
      && forall j | 0 <= j < |d[x].inputGates| ::
           d[x].inputGates[j] == null || (d[x].inputGates[j] == a[x].inputGates[j] && d[x].inputGates[j] != g && x != g)
  {
    var d := Detached(a, g);
    forall j | 0 <= j < |a[x].inputGates| && a[x].inputGates[j] == g && x != g
      ensures x in Consumers(a, g)
    {
      assert Link(x, j) in a[g].outputGates;
    }
  }

  /** Removing a gate keeps links and slots matched. */
  lemma DetachedMatched(a: Net, g: Gate)
    requires Closed(a) && Matched(a) && SlotsHeld(a) && g in a
    ensures Closed(Detached(a, g)) && Matched(Detached(a, g)) && SlotsHeld(Detached(a, g))
    ensures forall x, y | x in a && Edge(Detached(a, g), x, y) :: Edge(a, x, y)
  {
    var d := Detached(a, g);
    forall x | x in d
      ensures (forall l | l in d[x].outputGates :: l in a[x].outputGates && l.gate != g)
      ensures |d[x].inputGates| == |a[x].inputGates|
      ensures forall j | 0 <= j < |d[x].inputGates| ::
        d[x].inputGates[j] == null || (d[x].inputGates[j] == a[x].inputGates[j] && d[x].inputGates[j] != g && x != g)
    {
      DetachedAt(a, g, x);
    }
    forall x, k | x in d && 0 <= k < |d[x].outputGates|
      ensures d[x].outputGates[k].gate in d && LinkHeld(d, x, d[x].outputGates[k])
    {
      var l := d[x].outputGates[k];
      assert l in d[x].outputGates;
      var k' :| 0 <= k' < |a[x].outputGates| && a[x].outputGates[k'] == l;
      assert LinkHeld(a, x, a[x].outputGates[k']);
    }
    assert Closed(d);
    forall c, j | c in d && 0 <= j < |d[c].inputGates| && d[c].inputGates[j] != null
      ensures Link(c, j) in d[d[c].inputGates[j]].outputGates
    {
      var x := d[c].inputGates[j];
      assert Link(c, j) in a[x].outputGates;
    }
    forall x, y | x in a && Edge(d, x, y)
      ensures Edge(a, x, y)
    {
      var k :| 0 <= k < |d[x].outputGates| && d[x].outputGates[k].gate == y;
      assert d[x].outputGates[k] in d[x].outputGates;
      var k' :| 0 <= k' < |a[x].outputGates| && a[x].outputGates[k'] == d[x].outputGates[k];
    }
  }

  /** With every slot backed by its own link, every slot is linked. */
  lemma HeldLinked(net: Net)
    requires Closed(net) && SlotsHeld(net)
    ensures SlotsLinked(net)
  {
    forall c, j | c in net && 0 <= j < |net[c].inputGates| && net[c].inputGates[j] != null
      ensures Edge(net, net[c].inputGates[j], c)
    {
      var x := net[c].inputGates[j];
      var k :| 0 <= k < |net[x].outputGates| && net[x].outputGates[k] == Link(c, j);
    }
  }

  /** Removing a gate keeps the network intact. */
  lemma DetachedIntact(a: Net, g: Gate)
    requires Intact(a) && g in a
    ensures Intact(Detached(a, g))
  {
    DetachedMatched(a, g);
    HeldLinked(Detached(a, g));
    FewerEdgesFewerPaths(a, Detached(a, g));
  }

  /** A gate of an intact network neither feeds nor consumes itself. */
  lemma NoSelfWire(net: Net, g: Gate)
    requires Intact(net) && g in net
    ensures forall k | 0 <= k < |net[g].outputGates| :: net[g].outputGates[k].gate != g
    ensures forall j | 0 <= j < |net[g].inputGates| :: net[g].inputGates[j] != g
  {
    if Edge(net, g, g) {
      assert Path(net, [g, g]);
    }
  }

  // ---------------------------------------------------------------------------
  // The circuit

  /** The gates of `U`, as they stand in the heap, form an intact network.
      The ranking `getOutput` runs under is stated outright; the rest is
      stated for the snapshot under the name `Intact`, so that a proof
      opens it only where it mentions `Intact` of the snapshot. */
  ghost predicate IntactOn(U: set<Gate>)
    reads U
  {
    forall net {:trigger Intact(net)} | net == Snap(U) :: Intact(net)
  }

  class LogicCircuit {
    /** The values of the `gates` Map, in insertion order. */
    var gates: seq<Gate>
    /** Every gate the circuit has held: registered gates and the gates wired to them. */
    ghost var Repr: set<Gate>

    /** Every registered gate is tracked, under its own id. */
    ghost predicate Registered()
      reads this
    {
      && (forall i | 0 <= i < |gates| :: gates[i] in Repr)
      && DistinctIds(gates)
    }

    ghost predicate Valid()
      reads this, Repr
    {
      Registered() && IntactOn(Repr)
    }

    constructor ()
      ensures Valid() && gates == [] && Repr == {}
    {
      gates := [];
      Repr := {};
      EmptyIntact();
    }

    /** `addGate(gate)`: register (or re-register) the gate under its id. The
        gate's wiring must keep the network intact, as a gate straight from
        its constructor does (`AddFreshIntact`). */
    method AddGate(gate: Gate) returns (r: Gate)
      requires Registered() && IntactOn(Repr + {gate})
      modifies this
      ensures Valid() && r == gate
      ensures gates == Put(old(gates), gate) && Repr == old(Repr) + {gate}
    {
      PutTracked(gates, gate, Repr);
      gates, Repr := Put(gates, gate), Repr + {gate};
      return gate;
    }

    /** `getGate(id)`. */
    method GetGate(id: string) returns (r: Option<Gate>)
      requires Valid()
      ensures r == Lookup(gates, id)
      ensures r.Some? <==> id in Ids(gates)
      ensures r.Some? ==> r.value in gates && r.value.id == id
    {
      LookupFinds(gates, id);
      r := Lookup(gates, id);
    }

    /** `connectGates(sourceId, destinationId)`: a missing source or
        destination throws (the source is looked up first); otherwise the
        answer is true when the wire was made and false when it would have
        closed a loop. A new wire fills a new last slot of the destination,
        and the flood starts at the source, as `connectTo` does. */
    method ConnectGates(sourceId: string, destinationId: string) returns (r: Result<bool>)
      requires Valid()
      modifies Repr`dirty, Repr`outputGates, Repr`inputGates
      ensures Valid() && gates == old(gates) && Repr == old(Repr)
      ensures Lookup(gates, sourceId).None? ==> r == Failure(MissingGate(sourceId)) && Snap(Repr) == old(Snap(Repr))
      ensures Lookup(gates, sourceId).Some? && Lookup(gates, destinationId).None? ==>
        r == Failure(MissingGate(destinationId)) && Snap(Repr) == old(Snap(Repr))
      ensures Lookup(gates, sourceId).Some? && Lookup(gates, destinationId).Some? ==>
        var src, dst := Lookup(gates, sourceId).value, Lookup(gates, destinationId).value;
        && r == Success(!Reaches(old(Snap(Repr)), dst, src))
        && (r.value ==> AfterFlood(Wired(old(Snap(Repr)), src, dst, |old(Snap(Repr))[dst].inputGates|), Snap(Repr), src))
        && (!r.value ==> Snap(Repr) == old(Snap(Repr)))
    {
      var source := Lookup(gates, sourceId);
      if source.None? {
        return Failure(MissingGate(sourceId));
      }
      var destination := Lookup(gates, destinationId);
      if destination.None? {
        return Failure(MissingGate(destinationId));
      }
      ghost var a := Snap(Repr);
      assert Intact(a);
      var refused := source.value.ConnectTo(destination.value, None, Repr);
      if !refused {
        ConnectIntact(a, Snap(Repr), source.value, destination.value);
      }
      return Success(!refused);
    }

    /** `removeGate(id)`: every gate feeding the gate lets go of it, then the
        gate lets go of every consumer it had when it started, and the id is
        deleted. An unknown id changes nothing. Afterwards the network is
        `Detached` up to the flags the floods set, so nothing refers to the
        removed gate. */
    method RemoveGate(id: string)
      requires Valid()
      modifies this, Repr`dirty, Repr`outputGates, Repr`inputGates
      ensures Valid() && gates == Delete(old(gates), id) && Repr == old(Repr)
      ensures old(Lookup(gates, id)).None? ==> Snap(Repr) == old(Snap(Repr))
      ensures old(Lookup(gates, id)).Some? ==>
        var g := old(Lookup(gates, id)).value;
        && g in old(Snap(Repr))
        && Redirtied(Detached(old(Snap(Repr)), g), Snap(Repr))
        && Isolated(Snap(Repr), g)
    {
      DeleteSpec(gates, id);
      var found := Lookup(gates, id);
      if found.None? {
        return;
      }
      Detach(found.value);
      Forget(id);
    }

    /** `this.gates.delete(id)`. */
    method Forget(id: string)
      requires Registered()
      modifies this
      ensures Registered() && gates == Delete(old(gates), id) && Repr == old(Repr)
    {
      DeleteSpec(gates, id);
      DeleteMembers(gates, id);
      gates := Delete(gates, id);
    }

    /** The two loops of `removeGate`. */
    method Detach(gate: Gate)
      requires Valid() && gate in Repr
      modifies Repr`dirty, Repr`outputGates, Repr`inputGates
      ensures Valid() && gate in old(Snap(Repr))
      ensures Redirtied(Detached(old(Snap(Repr)), gate), Snap(Repr)) && Isolated(Snap(Repr), gate)
    {
      ghost var a := Snap(Repr);
      assert Intact(a);
      NoSelfWire(a, gate);
      DetachInputs(gate);
      ghost var x := Unlinked(a, gate);
      UnlinkedLinks(a, Snap(Repr), gate);
      var outs := gate.outputGates;
      CutNone(x, gate);
      DetachOutputs(gate, outs, x);
      CutDone(a, gate);
      DetachedIntact(a, gate);
      RedirtiedIntact(Detached(a, gate), Snap(Repr));
      IntactOnIs(Repr);
      DetachedIsolated(a, gate);
      IsolatedRedirtied(Detached(a, gate), Snap(Repr), gate);
    }

    /** The first loop of `removeGate`: the gate in each slot of `gate`, in
        slot order, calls `disconnectFrom(gate)`. */
    method DetachInputs(gate: Gate)
      requires Valid() && gate in Repr
      modifies Repr`dirty, Repr`outputGates, Repr`inputGates
      ensures Registered() && Closed(Snap(Repr)) && gate in old(Snap(Repr))
      ensures Redirtied(Unlinked(old(Snap(Repr)), gate), Snap(Repr))
    {
      ghost var a := Snap(Repr);
      assert Intact(a);
      NoSelfWire(a, gate);
      UnfedNone(a, gate);
      var n := |gate.inputGates|;
      var i := 0;
      while i < n
        invariant 0 <= i <= n == |a[gate].inputGates|
        invariant forall j | 0 <= j < n :: a[gate].inputGates[j] != gate
        invariant Closed(Snap(Repr)) && Redirtied(Unfed(a, gate, i), Snap(Repr))
      {
        DetachInput(gate, i, a);
        i := i + 1;
      }
      UnfedDone(a, gate);
    }

    /** One pass of that loop: the gate in slot `i`, if any, lets go of `gate`. */
    method DetachInput(gate: Gate, i: nat, ghost a: Net)
      requires gate in Repr && gate in a && i < |a[gate].inputGates| && a[gate].inputGates[i] != gate
      requires Closed(Snap(Repr)) && Redirtied(Unfed(a, gate, i), Snap(Repr))
      modifies Repr`dirty, Repr`outputGates, Repr`inputGates
      ensures Closed(Snap(Repr)) && Redirtied(Unfed(a, gate, i + 1), Snap(Repr))
    {
      ghost var m := Snap(Repr);
      ghost var x := Unfed(a, gate, i);
      UnfedStep(a, gate, i);
      assert m[gate] == x[gate].(dirty := m[gate].dirty);
      var p := gate.inputGates[i];
      assert p == x[gate].inputGates[i] == a[gate].inputGates[i];
      if p == null {
        return;
      }
      var q: Gate := p;
      assert q in m && x.Keys == m.Keys;
      q.DisconnectFrom(gate, Repr);
      ghost var b := Snap(Repr);
      UnwiredAfter(x, m, b, q, gate);
    }

    /** The second loop of `removeGate`: `gate` calls `disconnectFrom` on the
        gate of each link it had when the loop began, in order. The loop
        takes the network from `x` (`Cut(x, gate, 0)`) to `Cut(x, gate, |outs|)`,
        up to flags. */
    method DetachOutputs(gate: Gate, outs: seq<Link>, ghost x: Net)
      requires gate in Repr && gate in x && outs == x[gate].outputGates
      requires forall j | 0 <= j < |outs| :: outs[j].gate in x && outs[j].gate != gate
      requires Closed(Snap(Repr)) && Redirtied(Cut(x, gate, 0), Snap(Repr))
      modifies Repr`dirty, Repr`outputGates, Repr`inputGates
      ensures Closed(Snap(Repr)) && Redirtied(Cut(x, gate, |outs|), Snap(Repr))
    {
      var k := 0;
      while k < |outs|
        invariant 0 <= k <= |outs|
        invariant Closed(Snap(Repr)) && Redirtied(Cut(x, gate, k), Snap(Repr))
      {
        DetachOutput(gate, outs, k, x);
        k := k + 1;
      }
    }

    /** One pass of that loop: `gate` lets go of the gate of its `k`-th link
        as it stood when the loop began. */
    method DetachOutput(gate: Gate, outs: seq<Link>, k: nat, ghost x: Net)
      requires gate in Repr && gate in x && outs == x[gate].outputGates && k < |outs|
      requires forall j | 0 <= j < |outs| :: outs[j].gate in x && outs[j].gate != gate
      requires Closed(Snap(Repr)) && Redirtied(Cut(x, gate, k), Snap(Repr))
      modifies Repr`dirty, Repr`outputGates, Repr`inputGates
      ensures Closed(Snap(Repr)) && Redirtied(Cut(x, gate, k + 1), Snap(Repr))
    {
      ghost var m := Snap(Repr);
      ghost var y := Cut(x, gate, k);
      var c := outs[k].gate;
      CutStep(x, gate, k);
      assert c in m;
      gate.DisconnectFrom(c, Repr);
      ghost var b := Snap(Repr);
      UnwiredAfter(y, m, b, gate, c);
      RedirtiedMark(Unwired(y, gate, c), b, c);
    }

    /** Part way through `evaluate`, which started from the network `a`:
        the circuit is intact and has only settled since, and the first `i`
        answers `rs` built `results` and left their gates clean. */
    ghost predicate Evaluating(i: nat, a: Net, rs: seq<Result<bool>>, results: map<string, bool>)
      reads this, Repr
    {
      && i <= |gates| == |rs|
      && Registered() && IntactOn(Repr)
      && Settled(a, Snap(Repr), RankOf(AllDirty(a))) && Tidy(a, Snap(Repr))
      && Collect(gates[..i], rs[..i]) == Success(results)
      && CleanPrefix(Flags(Snap(Repr)), gates, i)
    }

    /** `rs` holds what each registered gate reports on the network `a`. */
    ghost predicate Answers(a: Net, rs: seq<Result<bool>>)
      reads this
    {
      && |rs| == |gates| && Ranked(a, RankOf(AllDirty(a)))
      && forall j | 0 <= j < |gates| :: gates[j] in a && rs[j] == Eval(a, RankOf(AllDirty(a)), gates[j])
    }

    /** `getOutput` on the `i`-th registered gate: it answers what the gate
        reported when `evaluate` began. An error is the answer of `evaluate`;
        a value is added under the gate's id, and the gate is now clean. */
    method Settle(i: nat, ghost a: Net, ghost rs: seq<Result<bool>>, ghost results: map<string, bool>) returns (v: Result<bool>)
      requires Answers(a, rs) && Evaluating(i, a, rs, results) && i < |gates|
      modifies Repr`dirty, Repr`cachedOutput
      ensures i < |rs| && v == rs[i]
      ensures v.Success? ==> Evaluating(i + 1, a, rs, results[gates[i].id := v.value])
      ensures v.Failure? ==> Valid() && Settled(a, Snap(Repr), RankOf(AllDirty(a))) && Tidy(a, Snap(Repr))
      ensures v.Failure? ==> Collect(gates, rs) == Failure(v.error)
    {
      ghost var before := Flags(Snap(Repr));
      v := Demand(gates[i], a);
      Answered(gates, rs, i, results);
      if v.Success? {
        CleanPrefixStep(before, Flags(Snap(Repr)), gates, i);
      }
    }

    /** `getOutput` on a tracked gate of an intact circuit that has only
        settled since `a`: it answers what the gate reported in `a`, the
        circuit stays intact and settled, clean gates stay clean, and on
        success the gate is clean. */
    method Demand(g: Gate, ghost a: Net) returns (v: Result<bool>)
      requires IntactOn(Repr) && g in Repr
      requires Settled(a, Snap(Repr), RankOf(AllDirty(a))) && Tidy(a, Snap(Repr))
      modifies Repr`dirty, Repr`cachedOutput
      ensures IntactOn(Repr) && Settled(a, Snap(Repr), RankOf(AllDirty(a))) && Tidy(a, Snap(Repr))
      ensures g in a && v == Eval(a, RankOf(AllDirty(a)), g)
      ensures v.Success? ==> g in Flags(Snap(Repr)) && !Flags(Snap(Repr))[g]
      ensures StayClean(Flags(old(Snap(Repr))), Flags(Snap(Repr)))
    {
      ghost var rank := RankOf(AllDirty(a));
      ghost var m := Snap(Repr);
      assert Intact(m);
      SettledRanked(a, m, rank);
      v := g.GetOutput(Repr, rank);
      ghost var b := Snap(Repr);
      EvaluateStep(a, m, b, rank, g);
    }

    /** Before `evaluate`'s loop: every gate's answer is defined, and no
        answer has been collected yet. */
    lemma EvaluateStart()
      requires Valid()
      ensures Ranked(Snap(Repr), RankOf(AllDirty(Snap(Repr))))
      ensures forall j | 0 <= j < |gates| :: gates[j] in Snap(Repr)
      ensures Answers(Snap(Repr), Reported(Snap(Repr), gates))
      ensures Evaluating(0, Snap(Repr), Reported(Snap(Repr), gates), map[])
    {
      var a := Snap(Repr);
      assert Intact(a);
      WiredRanked(a);
      SettledSelf(a, RankOf(AllDirty(a)));
      var rs := Reported(a, gates);
      assert gates[..0] == [] && rs[..0] == [];
    }

    /** `evaluate()`: `getOutput` on every registered gate, in registry order.
        The answer is what every gate reported when `evaluate` began, the
        network only settles (so evaluating again answers the same), a sound
        network stays sound, and on success every registered gate is clean. */
    method Evaluate() returns (r: Result<map<string, bool>>)
      requires Valid()
      modifies Repr`dirty, Repr`cachedOutput
      ensures Valid() && gates == old(gates) && Repr == old(Repr)
      ensures Settled(old(Snap(Repr)), Snap(Repr), RankOf(AllDirty(old(Snap(Repr)))))
      ensures AllDirty(Snap(Repr)) == AllDirty(old(Snap(Repr)))
      ensures Ranked(old(Snap(Repr)), RankOf(AllDirty(old(Snap(Repr)))))
      ensures r == Evaluated(old(Snap(Repr)), gates)
      ensures old(Sound(Snap(Repr))) ==> Sound(Snap(Repr))
      ensures r.Success? ==> forall i | 0 <= i < |gates| :: !gates[i].dirty
    {
      ghost var a := Snap(Repr);
      EvaluateStart();
      ghost var rs := Reported(a, gates);
      assert Evaluated(a, gates) == Collect(gates, rs);
      r := EvaluateFrom(a, rs);
      EvaluateEnd(a, Snap(Repr));
    }

    /** The loop of `evaluate`, begun on the network `a` whose gates report `rs`. */
    method EvaluateFrom(ghost a: Net, ghost rs: seq<Result<bool>>) returns (r: Result<map<string, bool>>)
      requires Answers(a, rs) && Evaluating(0, a, rs, map[])
      modifies Repr`dirty, Repr`cachedOutput
      ensures Valid() && Settled(a, Snap(Repr), RankOf(AllDirty(a))) && Tidy(a, Snap(Repr))
      ensures r == Collect(gates, rs)
      ensures r.Success? ==> forall i | 0 <= i < |gates| :: !gates[i].dirty
    {
      var results := map[];
      var i := 0;
      while i < |gates|
        invariant Answers(a, rs) && Evaluating(i, a, rs, results)
      {
        var v := Settle(i, a, rs, results);
        if v.Failure? {
          return Failure(v.error);
        }
        results := results[gates[i].id := v.value];
        i := i + 1;
      }
      CollectWhole(gates, rs);
      PrefixClean(Repr, gates);
      return Success(results);
    }
  }

  /** The `dirty` flag of each gate of `net`. */
  function Flags(net: Net): map<Gate, bool> {
    map g | g in net :: net[g].dirty
  }

  /** Every flag clear in `before` is clear in `after`. */
  ghost predicate StayClean(before: map<Gate, bool>, after: map<Gate, bool>) {
    forall h | h in before && !before[h] :: h in after && !after[h]
  }

  lemma CleanPrefixStep(before: map<Gate, bool>, after: map<Gate, bool>, gs: seq<Gate>, i: nat)
    requires i < |gs| && CleanPrefix(before, gs, i) && StayClean(before, after)
    requires gs[i] in after && !after[gs[i]]
    ensures CleanPrefix(after, gs, i + 1)
  {
    forall j | 0 <= j < i + 1
      ensures gs[j] in after && !after[gs[j]]
    {
      assert j < i ==> gs[j] in before && !before[gs[j]];
    }
  }

  /** The first `i` of `gs` have a flag, and it is clear. */
  ghost predicate CleanPrefix(flags: map<Gate, bool>, gs: seq<Gate>, i: nat)
    requires i <= |gs|
  {
    forall j | 0 <= j < i :: gs[j] in flags && !flags[gs[j]]
  }

  /** Every gate of `gs` clean in the snapshot is clean in the heap. */
  lemma PrefixClean(U: set<Gate>, gs: seq<Gate>)
    requires CleanPrefix(Flags(Snap(U)), gs, |gs|)
    ensures forall i | 0 <= i < |gs| :: !gs[i].dirty
  {
    forall i | 0 <= i < |gs|
      ensures !gs[i].dirty
    {
      assert gs[i] in Snap(U);
    }
  }

  /** A network that has not changed has settled and stayed tidy. */
  lemma SettledSelf(a: Net, rank: map<Gate, nat>)
    requires Ranked(a, rank)
    ensures Settled(a, a, rank) && Tidy(a, a)
  {
  }

  /** After `getOutput` on `g`: the network is still intact and has only
      settled since `a`, `g` answered what it reported in `a`, and clean
      gates stayed clean. */
  lemma EvaluateStep(a: Net, m: Net, b: Net, rank: map<Gate, nat>, g: Gate)
    requires Intact(m) && Settled(a, m, rank) && Tidy(a, m) && g in a
    requires Settled(m, b, rank) && Tidy(m, b)
    ensures Intact(b) && Settled(a, b, rank) && Tidy(a, b)
    ensures Ranked(m, rank) && Eval(m, rank, g) == Eval(a, rank, g)
    ensures StayClean(Flags(m), Flags(b))
  {
    SettledEval(a, m, rank, g);
    SettledTrans(a, m, b, rank);
    TidyTrans(a, m, b, rank);
    SettledWellWired(m, b, rank);
    SettledMatched(m, b, rank);
  }

  /** After `evaluate`: the fresh values are those it began with, and a sound
      network stayed sound. */
  lemma EvaluateEnd(a: Net, b: Net)
    requires Settled(a, b, RankOf(AllDirty(a))) && Tidy(a, b)
    ensures AllDirty(b) == AllDirty(a)
    ensures Sound(a) ==> Sound(b)
  {
    SettledAllDirty(a, b, RankOf(AllDirty(a)));
    if Sound(a) {
      SettledSound(a, b);
    }
  }

  /** The consumers of a tracked gate of an intact circuit are tracked. */
  lemma LinksTracked(U: set<Gate>, g: Gate)
    requires IntactOn(U) && g in U
    ensures forall m | 0 <= m < |g.outputGates| :: g.outputGates[m].gate in U
  {
    var net := Snap(U);
    assert Intact(net) && net[g].outputGates == g.outputGates;
  }

  /** An intact snapshot of the gates of `U` is what `IntactOn(U)` asks for. */
  lemma IntactOnIs(U: set<Gate>)
    requires Intact(Snap(U))
    ensures IntactOn(U)
  {
  }

  /** The empty circuit's network is intact. */
  lemma EmptyIntact()
    ensures Intact(map[])
  {
  }
}
