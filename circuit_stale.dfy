/** The circuit-level run of the stale cache that `connectTo` as written
    leaves behind (`GateFindings.ConnectToStale` shows it on the network
    alone):

        addGate(AND "a"); evaluate();
        addGate(InputGate(false, "i")); connectGates("i", "a"); evaluate()

    The first `evaluate` caches true in "a" (the AND of no inputs) and
    reports false (a non-buffer gate with no input gates reports false).
    `connectGates` floods from the already dirty "i", so "a" stays clean and
    the second `evaluate` reports its cached true, where the AND of its one
    input, false, is false. */
module CircuitStale {
  import opened LogicGates
  import opened GateWiring
  import opened GateCache
  import opened GateCircuit
  import opened GateFindings

  /** Registering a gate straight from its constructor keeps the gates intact. */
  lemma AddFreshOn(U: set<Gate>, g: Gate)
    requires IntactOn(U) && g !in U && g.inputGates == [] && g.outputGates == []
    ensures IntactOn(U + {g})
  {
    var net := Snap(U);
    assert Intact(net);
    var st := GateState(g.operation, [], [], g.inputValues, g.cachedOutput, g.dirty);
    AddFreshIntact(net, g, st);
    assert Snap(U + {g}) == net[g := st];
    IntactOnIs(U + {g});
  }

  /** "a" alone, straight from its constructor. */
  function Lone(A: Gate): Net {
    map[A := GateState(AND, [], [], [], false, true)]
  }

  lemma LoneWired(A: Gate)
    ensures WellWired(Lone(A))
  {
    EmptyIntact();
    var empty: Net := map[];
    AddFreshIntact(empty, A, Lone(A)[A]);
    assert empty[A := Lone(A)[A]] == Lone(A);
  }

  /** The first `evaluate`: "a" computes true (the AND of nothing) and
      reports false. */
  lemma FirstAnswer(A: Gate)
    requires A.id == "a"
    ensures Ranked(Lone(A), RankOf(AllDirty(Lone(A))))
    ensures Raw(Lone(A), RankOf(AllDirty(Lone(A))), A) == Success(true)
    ensures Evaluated(Lone(A), [A]) == Success(map["a" := false])
  {
    var s := Lone(A);
    LoneWired(A);
    WiredRanked(s);
    var rank := RankOf(AllDirty(s));
    assert s[A].dirty && Width(s[A]) == 0;
    assert Inputs(s, rank, A, 0) == Success([]);
    assert Raw(s, rank, A) == Success(true);
    var rs := Reported(s, [A]);
    assert rs == [Success(false)];
    assert [A][..0] == [] && rs[..0] == [];
    var empty: seq<Result<bool>> := [];
    assert Collect([], empty) == Success(map[]);
    assert Collect([A], rs) == Success(map[][A.id := false]);
  }

  /** `connectGates("i", "a")` floods from the dirty "i" and so only wires. */
  lemma StaleWired(A: Gate, X: Gate, b: Net)
    requires A != X
    requires AfterFlood(Wired(StaleStart(A, X), X, A, 0), b, X)
    ensures WellWired(b)
    ensures X in b && b[X].operation == BUFFER && b[X].inputGates == [] && b[X].inputValues == [false] && b[X].dirty
  {
    StaleStartWired(A, X);
    SinkReachesNothing(StaleStart(A, X), A, X);
    WiredWellWired(StaleStart(A, X), X, A, 0);
    DirtyFloodIdle(Wired(StaleStart(A, X), X, A, 0), b, X);
  }

  /** A dirty input gate holding false reports false. */
  lemma InputAnswer(b: Net, rank: map<Gate, nat>, X: Gate)
    requires Ranked(b, rank) && X in b
    requires b[X].operation == BUFFER && b[X].inputGates == [] && b[X].inputValues == [false] && b[X].dirty
    ensures Eval(b, rank, X) == Success(false)
  {
    assert Width(b[X]) == 1;
    assert Slot(b, rank, X, 0) == Success(false);
    assert Inputs(b, rank, X, 1) == Success([]);
    assert [false] + [] == [false];
    assert Inputs(b, rank, X, 0) == Success([false]);
    assert Raw(b, rank, X) == Success(false);
  }

  /** The second `evaluate`: "a" answers its stale cache, true, where its
      fresh value is false, and "i" answers false. */
  lemma SecondAnswer(A: Gate, X: Gate, b: Net)
    requires A.id == "a" && X.id == "i" && A != X
    requires AfterFlood(Wired(StaleStart(A, X), X, A, 0), b, X)
    ensures Ranked(b, RankOf(AllDirty(b))) && Ranked(AllDirty(b), RankOf(AllDirty(b)))
    ensures Evaluated(b, [A, X]) == Success(map["a" := true, "i" := false])
    ensures Fresh(b, RankOf(AllDirty(b)), A) == Success(false)
  {
    StaleWired(A, X, b);
    WiredRanked(b);
    var rank := RankOf(AllDirty(b));
    ConnectToStale(A, X, b, rank);
    InputAnswer(b, rank, X);
    SecondReports(A, X, b, rank);
  }

  lemma SecondReports(A: Gate, X: Gate, b: Net, rank: map<Gate, nat>)
    requires A.id == "a" && X.id == "i"
    requires rank == RankOf(AllDirty(b)) && Ranked(b, rank) && A in b && X in b
    requires Eval(b, rank, A) == Success(true) && Eval(b, rank, X) == Success(false)
    ensures Evaluated(b, [A, X]) == Success(map["a" := true, "i" := false])
  {
    PairIn(b, A, X);
    EvaluatedPair(b, rank, A, X);
    AnswersCollect(A, X, [Eval(b, rank, A), Eval(b, rank, X)]);
  }

  /** What `evaluate` answers on a circuit of two gates. */
  lemma EvaluatedPair(net: Net, rank: map<Gate, nat>, A: Gate, X: Gate)
    requires rank == RankOf(AllDirty(net)) && Ranked(net, rank) && A in net && X in net
    requires forall i | 0 <= i < |[A, X]| :: [A, X][i] in net
    ensures Evaluated(net, [A, X]) == Collect([A, X], [Eval(net, rank, A), Eval(net, rank, X)])
  {
    ReportedPair(net, rank, A, X);
  }

  lemma PairIn(net: Net, A: Gate, X: Gate)
    requires A in net && X in net
    ensures forall i | 0 <= i < |[A, X]| :: [A, X][i] in net
  {
  }

  lemma ReportedPair(net: Net, rank: map<Gate, nat>, A: Gate, X: Gate)
    requires rank == RankOf(AllDirty(net)) && Ranked(net, rank) && A in net && X in net
    ensures Reported(net, [A, X]) == [Eval(net, rank, A), Eval(net, rank, X)]
  {
  }

  lemma AnswersCollect(A: Gate, X: Gate, rs: seq<Result<bool>>)
    requires A.id == "a" && X.id == "i" && |rs| == 2 && rs[0] == Success(true) && rs[1] == Success(false)
    ensures Collect([A, X], rs) == Success(map["a" := true, "i" := false])
  {
    var empty: seq<Result<bool>> := [];
    assert [A, X][..1] == [A] && rs[..1] == [Success(true)];
    assert [A][..0] == [] && rs[..1][..0] == empty;
    assert Collect([], empty) == Success(map[]);
    assert Collect([A], rs[..1]) == Success(map["a" := true]);
  }

  /** The run above, on a new circuit: the second `evaluate` reports "a" as
      true although its one input is false. */
  method StaleEvaluate() returns (first: Result<map<string, bool>>, second: Result<map<string, bool>>)
    ensures first == Success(map["a" := false])
    ensures second == Success(map["a" := true, "i" := false])
  {
    var c, a;
    c, a, first := FirstRun();
    second := SecondRun(c, a);
  }

  /** `addGate(AND "a")` on a new circuit, then `evaluate()`: "a" is left
      clean, caching true. */
  method FirstRun() returns (c: LogicCircuit, a: Gate, first: Result<map<string, bool>>)
    ensures fresh(c) && fresh(a) && c.Valid() && c.gates == [a] && c.Repr == {a} && a.id == "a"
    ensures a.operation == AND && a.inputGates == [] && a.outputGates == [] && a.inputValues == []
    ensures a.cachedOutput && !a.dirty
    ensures first == Success(map["a" := false])
  {
    c := new LogicCircuit();
    a := new Gate("AND", "a");
    AddFreshOn(c.Repr, a);
    var _ := c.AddGate(a);
    assert c.gates == [a] && c.Repr == {a};
    LoneSnap(a);
    first := c.Evaluate();
    FirstAnswer(a);
    FirstSettled(Lone(a), Snap(c.Repr), a);
  }

  /** After the first `evaluate`, "a" is clean and caches the value it computed. */
  lemma FirstSettled(s: Net, b: Net, a: Gate)
    requires s == Lone(a) && Ranked(s, RankOf(AllDirty(s))) && Raw(s, RankOf(AllDirty(s)), a) == Success(true)
    requires Settled(s, b, RankOf(AllDirty(s))) && a in b && !b[a].dirty
    ensures b[a] == GateState(AND, [], [], [], true, false)
  {
  }

  lemma LoneSnap(a: Gate)
    requires a.operation == AND && a.inputGates == [] && a.outputGates == [] && a.inputValues == []
    requires !a.cachedOutput && a.dirty
    ensures Snap({a}) == Lone(a)
  {
  }

  /** `addGate(InputGate(false, "i"))`, `connectGates("i", "a")` and
      `evaluate()` on the circuit `FirstRun` leaves. */
  method SecondRun(c: LogicCircuit, a: Gate) returns (second: Result<map<string, bool>>)
    requires c.Valid() && c.gates == [a] && c.Repr == {a} && a.id == "a"
    requires a.operation == AND && a.inputGates == [] && a.outputGates == [] && a.inputValues == []
    requires a.cachedOutput && !a.dirty
    modifies c, a
    ensures second == Success(map["a" := true, "i" := false])
  {
    var i := new Gate.Input(false, "i");
    AddFreshOn(c.Repr, i);
    var _ := c.AddGate(i);
    assert c.gates == [a, i] && c.Repr == {a, i};
    StaleSnap(a, i);
    ghost var b := Connect(c, a, i);
    assert c.Repr == {a, i};
    second := c.Evaluate();
    SecondAnswer(a, i, b);
  }

  /** `connectGates("i", "a")`: the wire is made, and the flood starts at "i". */
  method Connect(c: LogicCircuit, a: Gate, i: Gate) returns (ghost b: Net)
    requires c.Valid() && c.gates == [a, i] && a.id == "a" && i.id == "i" && a != i
    requires Snap(c.Repr) == StaleStart(a, i)
    modifies c.Repr`dirty, c.Repr`outputGates, c.Repr`inputGates
    ensures c.Valid() && c.gates == [a, i] && c.Repr == old(c.Repr)
    ensures b == Snap(c.Repr) && AfterFlood(Wired(StaleStart(a, i), i, a, 0), b, i)
  {
    assert c.gates[1..] == [i] && IndexOf([i], "i") == 0;
    assert Lookup(c.gates, "i") == Some(i);
    assert Lookup(c.gates, "a") == Some(a);
    SinkReachesNothing(StaleStart(a, i), a, i);
    var wired := c.ConnectGates("i", "a");
    b := Snap(c.Repr);
  }

  lemma StaleSnap(a: Gate, i: Gate)
    requires a != i && a.operation == AND && a.inputGates == [] && a.outputGates == [] && a.inputValues == []
    requires a.cachedOutput && !a.dirty
    requires i.operation == BUFFER && i.inputGates == [] && i.outputGates == [] && i.inputValues == [false]
    requires !i.cachedOutput && i.dirty
    ensures Snap({a, i}) == StaleStart(a, i)
  {
  }
}
