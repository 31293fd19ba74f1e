/** Two small networks on which the engine, as written, breaks its own
    promises, and the same networks under the corrected operations.

    1. `connectTo` floods from the gate that gains a consumer, not from the
       gate whose inputs changed. When the former is already dirty, the
       flood stops at once and the consumer keeps a stale cached output.
    2. `disconnectFrom` empties only the first slot holding the producer
       but drops every link to it. A slot is left with no link. The cycle
       check only follows links, so it can then let a loop of slots
       through, and evaluation of that loop never ends. */
module GateFindings {
  import opened LogicGates
  import opened GateWiring
  import opened GateCache

  /** A gate with no consumers reaches nothing but itself. */
  lemma SinkReachesNothing(net: Net, x: Gate, y: Gate)
    requires x in net && |net[x].outputGates| == 0 && x != y
    ensures !Reaches(net, x, y)
  {
    forall p | Path(net, p) && p[0] == x
      ensures |p| > 1 ==> Edge(net, p[0], p[1])
    {
    }
  }

  // ---------------------------------------------------------------------------
  // connectTo leaves a stale cache

  /** `A` is an AND gate with no inputs that has been evaluated (the AND of
      nothing is true). `X` is a new input gate holding false. */
  function StaleStart(A: Gate, X: Gate): Net {
    map[A := GateState(AND, [], [], [], true, false), X := GateState(BUFFER, [], [], [false], false, true)]
  }

  lemma StaleStartSound(A: Gate, X: Gate)
    requires A != X
    ensures Sound(StaleStart(A, X))
  {
    var a := StaleStart(A, X);
    StaleStartWired(A, X);
    AllDirtyWellWired(a);
    var d, rank := AllDirty(a), RankOf(AllDirty(a));
    assert d[A] == GateState(AND, [], [], [], false, true) && Width(d[A]) == 0;
    assert Inputs(d, rank, A, 0) == Success([]);
    assert Raw(d, rank, A) == Success(true);
    assert forall g | g in a && !a[g].dirty :: g == A;
  }

  lemma StaleStartWired(A: Gate, X: Gate)
    requires A != X
    ensures WellWired(StaleStart(A, X))
  {
    var a := StaleStart(A, X);
    forall p | Path(a, p)
      ensures |p| > 1 ==> Edge(a, p[0], p[1])
    {
    }
  }

  /** Once `X` feeds `A`, recomputing everything makes `A` false. */
  lemma StaleFresh(A: Gate, X: Gate, rank: map<Gate, nat>)
    requires A != X
    requires Ranked(AllDirty(Wired(StaleStart(A, X), X, A, 0)), rank)
    ensures Fresh(Wired(StaleStart(A, X), X, A, 0), rank, A) == Success(false)
  {
    var d := AllDirty(Wired(StaleStart(A, X), X, A, 0));
    assert d[X].inputValues == [false] && d[X].inputGates == [] && Width(d[X]) == 1;
    assert Slot(d, rank, X, 0) == Success(false);
    assert Inputs(d, rank, X, 1) == Success([]);
    assert [false] + [] == [false];
    assert Inputs(d, rank, X, 0) == Success([false]);
    assert Eval(d, rank, X) == Success(false);
    assert d[A].inputGates == [X] && d[A].inputValues == [] && Width(d[A]) == 1;
    assert Slot(d, rank, A, 0) == Success(false);
    assert Inputs(d, rank, A, 1) == Success([]);
    assert Inputs(d, rank, A, 0) == Success([false]);
    assert Calculate(AND, [false]) == Success(false);
    assert Raw(d, rank, A) == Success(false);
  }

  /** The requirements of `ConnectToStale` can be met: the flood from the
      dirty `X` changes nothing, and ranking `X` below `A` ranks the result. */
  lemma StaleWitness(A: Gate, X: Gate)
    requires A != X
    ensures AfterFlood(Wired(StaleStart(A, X), X, A, 0), Wired(StaleStart(A, X), X, A, 0), X)
    ensures Ranked(AllDirty(Wired(StaleStart(A, X), X, A, 0)), map[X := 0, A := 1])
  {
  }

  /** `X.connectTo(A)` as written, on the sound network `StaleStart`: the
      flood starts at the already dirty `X` and stops there, so `A` still
      answers its cached true while its fresh value is false. */
  lemma ConnectToStale(A: Gate, X: Gate, b: Net, rank: map<Gate, nat>)
    requires A != X
    requires AfterFlood(Wired(StaleStart(A, X), X, A, 0), b, X)
    requires Ranked(AllDirty(b), rank)
    ensures Sound(StaleStart(A, X)) && !Reaches(StaleStart(A, X), A, X)
    ensures Ranked(b, rank) && Eval(b, rank, A) == Success(true) && Fresh(b, rank, A) == Success(false)
  {
    StaleStartSound(A, X);
    SinkReachesNothing(StaleStart(A, X), A, X);
    var w := Wired(StaleStart(A, X), X, A, 0);
    assert b == w;
    AllDirtyRanked(b, rank);
    StaleFresh(A, X, rank);
  }

  /** The corrected `connectTo` floods from `A`: `A` then answers false, its
      fresh value, and the network stays sound. */
  lemma ConnectToFixedFresh(A: Gate, X: Gate, b: Net)
    requires A != X
    requires AfterFlood(Wired(StaleStart(A, X), X, A, 0), b, A)
    ensures Sound(b) && Ranked(b, RankOf(AllDirty(b)))
    ensures Eval(b, RankOf(AllDirty(b)), A) == Success(false)
  {
    var a := StaleStart(A, X);
    StaleStartSound(A, X);
    SinkReachesNothing(a, A, X);
    ConnectSound(a, b, X, A, 0);
    SoundEval(b, A);
    RedirtiedAllDirty(Wired(a, X, A, 0), b);
    StaleFresh(A, X, RankOf(AllDirty(b)));
  }

  // ---------------------------------------------------------------------------
  // disconnectFrom leaves a slot without its link

  /** `P` feeds both slots of the AND gate `D`, as two calls of `P.connectTo(D)` leave them. */
  function TwiceFed(P: Gate, D: Gate): Net {
    map[P := GateState(BUFFER, [], [Link(D, 0), Link(D, 1)], [], false, true),
        D := GateState(AND, [P, P], [], [], false, true)]
  }

  lemma TwiceFedSound(P: Gate, D: Gate)
    requires P != D
    ensures Sound(TwiceFed(P, D))
  {
    TwiceFedWellWired(P, D);
    AllDirtyWellWired(TwiceFed(P, D));
  }

  lemma TwiceFedWellWired(P: Gate, D: Gate)
    requires P != D
    ensures WellWired(TwiceFed(P, D))
  {
    var a := TwiceFed(P, D);
    assert a[P].outputGates[0].gate == D && a[P].outputGates[1].gate == D;
    OneLinkAcyclic(a, P, D);
  }

  /** A network whose only links run from `x` to `y`, where `y` has no
      consumer, has no loop. */
  lemma OneLinkAcyclic(net: Net, x: Gate, y: Gate)
    requires x != y && y in net && |net[y].outputGates| == 0
    requires forall g, k | g in net && 0 <= k < |net[g].outputGates| :: g == x && net[g].outputGates[k].gate == y
    ensures Acyclic(net)
  {
    forall p | Path(net, p)
      ensures |p| > 1 ==> Edge(net, p[0], p[1])
      ensures |p| > 2 ==> Edge(net, p[1], p[2])
    {
    }
  }

  /** What `P.disconnectFrom(D)` as written does to the links and slots. */
  lemma UnwiredTwiceFed(P: Gate, D: Gate)
    requires P != D
    ensures Unwired(TwiceFed(P, D), P, D).Keys == {P, D}
    ensures Unwired(TwiceFed(P, D), P, D)[P] == GateState(BUFFER, [], [], [], false, true)
    ensures Unwired(TwiceFed(P, D), P, D)[D] == GateState(AND, [null, P], [], [], false, true)
  {
    assert RemoveLinksTo([Link(D, 0), Link(D, 1)], D) == [];
    assert FirstIndex([P, P], P) == 0;
  }

  /** After `P.disconnectFrom(D)` as written, `P` has no consumer left but
      still sits in slot 1 of `D`. */
  lemma DisconnectLeavesSlot(P: Gate, D: Gate, b1: Net)
    requires P != D
    requires AfterFlood(Unwired(TwiceFed(P, D), P, D), b1, D)
    ensures Sound(TwiceFed(P, D))
    ensures b1.Keys == {P, D} && b1[P] == GateState(BUFFER, [], [], [], false, true)
    ensures b1[D] == GateState(AND, [null, P], [], [], false, true)
    ensures !SlotsLinked(b1) && !Reaches(b1, P, D)
  {
    TwiceFedSound(P, D);
    LeftSlot(P, D, b1);
    SinkReachesNothing(b1, P, D);
    assert !Edge(b1, P, D) && b1[D].inputGates[1] == P;
  }

  lemma LeftSlot(P: Gate, D: Gate, b1: Net)
    requires P != D
    requires AfterFlood(Unwired(TwiceFed(P, D), P, D), b1, D)
    ensures b1.Keys == {P, D} && b1[P] == GateState(BUFFER, [], [], [], false, true)
    ensures b1[D] == GateState(AND, [null, P], [], [], false, true)
  {
    UnwiredTwiceFed(P, D);
    DirtyFloodIdle(Unwired(TwiceFed(P, D), P, D), b1, D);
  }

  /** `D.connectTo(P)` then passes the cycle check and puts `D` into slot 0
      of `P`. The links still form no loop, yet `D` and `P` feed each other,
      both dirty: no ranking exists, and `getOutput` on either recurses
      forever. */
  lemma ReconnectLoops(P: Gate, D: Gate, b1: Net, b2: Net)
    requires P != D
    requires AfterFlood(Unwired(TwiceFed(P, D), P, D), b1, D)
    requires AfterFlood(Wired(b1, D, P, 0), b2, D)
    ensures Acyclic(b2)
    ensures forall rank :: !Ranked(b2, rank)
  {
    ReconnectShape(P, D, b1, b2);
    LoopAcyclic(b2, P, D);
    LoopUnranked(b2, P, D);
  }

  /** `D` and `P` in each other's slots, with one link from `D` to `P`. */
  predicate SlotLoop(net: Net, P: Gate, D: Gate) {
    && net.Keys == {P, D}
    && net[P] == GateState(BUFFER, [D], [], [], false, true)
    && net[D] == GateState(AND, [null, P], [Link(P, 0)], [], false, true)
  }

  lemma ReconnectShape(P: Gate, D: Gate, b1: Net, b2: Net)
    requires P != D
    requires AfterFlood(Unwired(TwiceFed(P, D), P, D), b1, D)
    requires AfterFlood(Wired(b1, D, P, 0), b2, D)
    ensures SlotLoop(b2, P, D)
  {
    LeftSlot(P, D, b1);
    var w: Net := Wired(b1, D, P, 0);
    assert b1[D].outputGates + [Link(P, 0)] == [Link(P, 0)];
    assert SetSlot([], 0, D) == [D];
    assert w.Keys == {P, D} && w[P] == b1[P].(inputGates := [D]) && w[D] == b1[D].(outputGates := [Link(P, 0)]);
    DirtyFloodIdle(w, b2, D);
  }

  lemma LoopAcyclic(net: Net, P: Gate, D: Gate)
    requires P != D && SlotLoop(net, P, D)
    ensures Acyclic(net)
  {
    OneLinkAcyclic(net, D, P);
  }

  lemma LoopUnranked(net: Net, P: Gate, D: Gate)
    requires P != D && SlotLoop(net, P, D)
    ensures forall rank :: !Ranked(net, rank)
  {
    forall rank
      ensures !Ranked(net, rank)
    {
      assert net[D].dirty && net[D].inputGates[1] == P;
      assert net[P].dirty && net[P].inputGates[0] == D;
    }
  }

  /** The corrected `disconnectFrom` empties both slots and keeps the network
      sound, so the later `D.connectTo(P)` keeps it sound too. */
  lemma DisconnectFixedClears(P: Gate, D: Gate, b1: Net, b2: Net)
    requires P != D
    requires AfterFlood(UnwiredFixed(TwiceFed(P, D), P, D), b1, D)
    requires AfterFlood(Wired(b1, D, P, 0), b2, P)
    ensures b1[D].inputGates == [null, null] && Sound(b1)
    ensures !Reaches(b1, P, D) && Sound(b2)
  {
    TwiceFedSound(P, D);
    DisconnectSound(TwiceFed(P, D), b1, P, D);
    FixedShape(P, D, b1);
    ConnectSound(b1, b2, D, P, 0);
  }

  lemma FixedShape(P: Gate, D: Gate, b1: Net)
    requires P != D
    requires AfterFlood(UnwiredFixed(TwiceFed(P, D), P, D), b1, D)
    ensures b1[D].inputGates == [null, null] && !Reaches(b1, P, D)
  {
    var u := UnwiredFixed(TwiceFed(P, D), P, D);
    assert RemoveLinksTo([Link(D, 0), Link(D, 1)], D) == [];
    assert ClearAll([P, P], P) == [null, null];
    assert u[P].outputGates == [] && u[D].inputGates == [null, null];
    assert b1.Keys == u.Keys && b1[P].outputGates == [] && b1[D].inputGates == [null, null];
    SinkReachesNothing(b1, P, D);
  }
}
