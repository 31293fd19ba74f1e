/** The demonstration circuit built at the bottom of the gate engine's module:
    two input gates (true and false), two AND gates and two NOT gates, wired
    by six `connectGates` calls, and a seventh call that would close a loop.

    Every gate starts dirty and nothing is demanded before `evaluate`, so
    every flood of the wiring calls starts at a dirty gate and changes
    nothing: the network after the calls is the six wirings one after the
    other. */
module GateDemo {
  import opened LogicGates
  import opened GateWiring

  /** The six gates, fresh from their constructors. */
  function Start(I1: Gate, I2: Gate, A1: Gate, N1: Gate, A2: Gate, N2: Gate): Net {
    map[I1 := GateState(BUFFER, [], [], [true], false, true),
        I2 := GateState(BUFFER, [], [], [false], false, true),
        A1 := GateState(AND, [], [], [], false, true),
        N1 := GateState(NOT, [], [], [], false, true),
        A2 := GateState(AND, [], [], [], false, true),
        N2 := GateState(NOT, [], [], [], false, true)]
  }

  predicate AllDistinct(I1: Gate, I2: Gate, A1: Gate, N1: Gate, A2: Gate, N2: Gate) {
    && I1 != I2 && I1 != A1 && I1 != N1 && I1 != A2 && I1 != N2
    && I2 != A1 && I2 != N1 && I2 != A2 && I2 != N2
    && A1 != N1 && A1 != A2 && A1 != N2
    && N1 != A2 && N1 != N2
    && A2 != N2
  }

  /** A wiring call whose destination has no consumer passes the cycle check
      and fills a new last slot. */
  lemma Accepted(net: Net, src: Gate, dst: Gate)
    requires src in net && dst in net && src != dst && net[dst].outputGates == []
    ensures !Reaches(net, dst, src)
    ensures SlotFor(net[dst], None) == |net[dst].inputGates|
  {
    forall p | Path(net, p) && p[0] == dst
      ensures |p| > 1 ==> Edge(net, p[0], p[1])
    {
    }
  }

  /** A ranking of the finished circuit: inputs, then not1, and1, and2, not2. */
  function Levels(I1: Gate, I2: Gate, A1: Gate, N1: Gate, A2: Gate, N2: Gate): map<Gate, nat> {
    map[I1 := 0, I2 := 0, N1 := 1, A1 := 2, A2 := 3, N2 := 4]
  }

  /** The gates after the first `k` of the six calls. */
  predicate Stage(n: Net, k: nat, I1: Gate, I2: Gate, A1: Gate, N1: Gate, A2: Gate, N2: Gate) {
    && n.Keys == {I1, I2, A1, N1, A2, N2}
    && n[I1] == GateState(BUFFER, [], if k >= 5 then [Link(A1, 0), Link(A2, 1)] else if k >= 1 then [Link(A1, 0)] else [], [true], false, true)
    && n[I2] == GateState(BUFFER, [], if k >= 2 then [Link(N1, 0)] else [], [false], false, true)
    && n[A1] == GateState(AND, if k >= 3 then [I1, N1] else if k >= 1 then [I1] else [], if k >= 4 then [Link(A2, 0)] else [], [], false, true)
    && n[N1] == GateState(NOT, if k >= 2 then [I2] else [], if k >= 3 then [Link(A1, 1)] else [], [], false, true)
    && n[A2] == GateState(AND, if k >= 5 then [A1, I1] else if k >= 4 then [A1] else [], if k >= 6 then [Link(N2, 0)] else [], [], false, true)
    && n[N2] == GateState(NOT, if k >= 6 then [A2] else [], [], [], false, true)
  }

  /** The source and the destination of call `k`, in the order the calls are made:
      input1→and1, input2→not1, not1→and1, and1→and2, input1→and2, and2→not2. */
  function Source(k: nat, I1: Gate, I2: Gate, A1: Gate, N1: Gate, A2: Gate, N2: Gate): Gate
    requires k < 6
  {
    [I1, I2, N1, A1, I1, A2][k]
  }

  function Target(k: nat, I1: Gate, I2: Gate, A1: Gate, N1: Gate, A2: Gate, N2: Gate): Gate
    requires k < 6
  {
    [A1, N1, A1, A2, A2, N2][k]
  }

  /** The fresh gates are stage 0. */
  lemma Initial(I1: Gate, I2: Gate, A1: Gate, N1: Gate, A2: Gate, N2: Gate)
    requires AllDistinct(I1, I2, A1, N1, A2, N2)
    ensures Stage(Start(I1, I2, A1, N1, A2, N2), 0, I1, I2, A1, N1, A2, N2)
  {
  }

  /** Call `k` on stage `k`: its destination does not reach its source, so it
      is accepted; it fills a new last slot; and it leads to stage `k + 1`. */
  lemma Call(n: Net, k: nat, I1: Gate, I2: Gate, A1: Gate, N1: Gate, A2: Gate, N2: Gate)
    requires AllDistinct(I1, I2, A1, N1, A2, N2) && Stage(n, k, I1, I2, A1, N1, A2, N2) && k < 6
    ensures var src, dst := Source(k, I1, I2, A1, N1, A2, N2), Target(k, I1, I2, A1, N1, A2, N2);
            && !Reaches(n, dst, src)
            && SlotFor(n[dst], None) == [0, 0, 1, 0, 1, 0][k]
            && Stage(Wired(n, src, dst, SlotFor(n[dst], None)), k + 1, I1, I2, A1, N1, A2, N2)
  {
    var src, dst := Source(k, I1, I2, A1, N1, A2, N2), Target(k, I1, I2, A1, N1, A2, N2);
    assert src == [I1, I2, N1, A1, I1, A2][k] && dst == [A1, N1, A1, A2, A2, N2][k];
    assert n[dst].outputGates == [] && |n[dst].inputGates| == [0, 0, 1, 0, 1, 0][k] by {
      assert k == 0 || k == 1 || k == 2 || k == 3 || k == 4 || k == 5;
    }
    Accepted(n, src, dst);
    Advance(n, k, I1, I2, A1, N1, A2, N2);
  }

  /** The wiring half of `Call`. */
  lemma Advance(n: Net, k: nat, I1: Gate, I2: Gate, A1: Gate, N1: Gate, A2: Gate, N2: Gate)
    requires AllDistinct(I1, I2, A1, N1, A2, N2) && Stage(n, k, I1, I2, A1, N1, A2, N2) && k < 6
    ensures var src, dst := Source(k, I1, I2, A1, N1, A2, N2), Target(k, I1, I2, A1, N1, A2, N2);
            Stage(Wired(n, src, dst, |n[dst].inputGates|), k + 1, I1, I2, A1, N1, A2, N2)
  {
    var src, dst := Source(k, I1, I2, A1, N1, A2, N2), Target(k, I1, I2, A1, N1, A2, N2);
    Appended(n, src, dst);
    var m := Wired(n, src, dst, |n[dst].inputGates|);
    assert m.Keys == n.Keys;
    assert forall g | g in n && g != src && g != dst :: m[g] == n[g];
    if k == 0 {
      assert m[A1].inputGates == [I1] && m[I1].outputGates == [Link(A1, 0)];
    } else if k == 1 {
      assert m[N1].inputGates == [I2] && m[I2].outputGates == [Link(N1, 0)];
    } else if k == 2 {
      assert m[A1].inputGates == [I1, N1] && m[N1].outputGates == [Link(A1, 1)];
    } else if k == 3 {
      assert m[A2].inputGates == [A1] && m[A1].outputGates == [Link(A2, 0)];
    } else if k == 4 {
      assert m[A2].inputGates == [A1, I1] && m[I1].outputGates == [Link(A1, 0), Link(A2, 1)];
    } else {
      assert m[N2].inputGates == [A2] && m[A2].outputGates == [Link(N2, 0)];
    }
  }

  /** Wiring into a new last slot appends to both gates' lists. */
  lemma Appended(net: Net, src: Gate, dst: Gate)
    requires src in net && dst in net && src != dst
    ensures var i := |net[dst].inputGates|;
            Wired(net, src, dst, i)
            == net[dst := net[dst].(inputGates := net[dst].inputGates + [src])]
                  [src := net[src].(outputGates := net[src].outputGates + [Link(dst, i)])]
  {
    var i := |net[dst].inputGates|;
    assert SetSlot(net[dst].inputGates, i, src) == net[dst].inputGates + [src];
  }

  /** The network after the first `k` calls, each wiring into a new last slot. */
  function Built(k: nat, I1: Gate, I2: Gate, A1: Gate, N1: Gate, A2: Gate, N2: Gate): (n: Net)
    requires AllDistinct(I1, I2, A1, N1, A2, N2) && k <= 6
    ensures n.Keys == {I1, I2, A1, N1, A2, N2}
  {
    if k == 0 then Start(I1, I2, A1, N1, A2, N2)
    else
      var p, src, dst := Built(k - 1, I1, I2, A1, N1, A2, N2), Source(k - 1, I1, I2, A1, N1, A2, N2), Target(k - 1, I1, I2, A1, N1, A2, N2);
      Wired(p, src, dst, SlotFor(p[dst], None))
  }

  /** The calls build the stages one by one. */
  lemma {:induction false} BuiltStage(k: nat, I1: Gate, I2: Gate, A1: Gate, N1: Gate, A2: Gate, N2: Gate)
    requires AllDistinct(I1, I2, A1, N1, A2, N2) && k <= 6
    ensures Stage(Built(k, I1, I2, A1, N1, A2, N2), k, I1, I2, A1, N1, A2, N2)
  {
    if k == 0 {
      Initial(I1, I2, A1, N1, A2, N2);
    } else {
      BuiltStage(k - 1, I1, I2, A1, N1, A2, N2);
      Call(Built(k - 1, I1, I2, A1, N1, A2, N2), k - 1, I1, I2, A1, N1, A2, N2);
    }
  }

  /** Every one of the six calls passes the cycle check. */
  lemma Accepts(k: nat, I1: Gate, I2: Gate, A1: Gate, N1: Gate, A2: Gate, N2: Gate)
    requires AllDistinct(I1, I2, A1, N1, A2, N2) && k < 6
    ensures !Reaches(Built(k, I1, I2, A1, N1, A2, N2), Target(k, I1, I2, A1, N1, A2, N2), Source(k, I1, I2, A1, N1, A2, N2))
  {
    BuiltStage(k, I1, I2, A1, N1, A2, N2);
    Call(Built(k, I1, I2, A1, N1, A2, N2), k, I1, I2, A1, N1, A2, N2);
  }

  /** The whole demonstration: the six calls are accepted, the seventh
      (and2→and1) is refused, and evaluating gives input1 true, input2 false,
      and1 true, not1 true, and2 true, not2 false. */
  lemma Demo(I1: Gate, I2: Gate, A1: Gate, N1: Gate, A2: Gate, N2: Gate)
    requires AllDistinct(I1, I2, A1, N1, A2, N2)
    ensures forall j | 0 <= j < 6 ::
              !Reaches(Built(j, I1, I2, A1, N1, A2, N2), Target(j, I1, I2, A1, N1, A2, N2), Source(j, I1, I2, A1, N1, A2, N2))
    ensures var n, rank := Built(6, I1, I2, A1, N1, A2, N2), Levels(I1, I2, A1, N1, A2, N2);
            && Reaches(n, A1, A2)
            && Ranked(n, rank)
            && Eval(n, rank, I1) == Success(true)
            && Eval(n, rank, I2) == Success(false)
            && Eval(n, rank, N1) == Success(true)
            && Eval(n, rank, A1) == Success(true)
            && Eval(n, rank, A2) == Success(true)
            && Eval(n, rank, N2) == Success(false)
  {
    forall j | 0 <= j < 6
      ensures !Reaches(Built(j, I1, I2, A1, N1, A2, N2), Target(j, I1, I2, A1, N1, A2, N2), Source(j, I1, I2, A1, N1, A2, N2))
    {
      Accepts(j, I1, I2, A1, N1, A2, N2);
    }
    var n := Built(6, I1, I2, A1, N1, A2, N2);
    BuiltStage(6, I1, I2, A1, N1, A2, N2);
    LastRefused(n, I1, I2, A1, N1, A2, N2);
    Outputs(n, I1, I2, A1, N1, A2, N2);
  }

  /** The seventh call, and2→and1, is refused: and1 already feeds and2. */
  lemma LastRefused(n: Net, I1: Gate, I2: Gate, A1: Gate, N1: Gate, A2: Gate, N2: Gate)
    requires Stage(n, 6, I1, I2, A1, N1, A2, N2)
    ensures Reaches(n, A1, A2)
  {
    assert n[A1].outputGates[0].gate == A2;
    assert Path(n, [A1, A2]);
  }

  /** Every gate of the finished circuit is fed by lower-ranked gates only. */
  lemma FinalRanked(n: Net, I1: Gate, I2: Gate, A1: Gate, N1: Gate, A2: Gate, N2: Gate)
    requires AllDistinct(I1, I2, A1, N1, A2, N2) && Stage(n, 6, I1, I2, A1, N1, A2, N2)
    ensures Ranked(n, Levels(I1, I2, A1, N1, A2, N2))
  {
    var rank := Levels(I1, I2, A1, N1, A2, N2);
    forall g, i | g in n && 0 <= i < |n[g].inputGates| && n[g].inputGates[i] != null
      ensures n[g].inputGates[i] in n && rank[n[g].inputGates[i]] < rank[g]
    {
      if g == A1 || g == A2 {
        assert i == 0 || i == 1;
      } else {
        assert i == 0;
      }
    }
  }

  /** The demonstration's outputs: input1 true, input2 false, and1 true,
      not1 true, and2 true, not2 false. */
  lemma Outputs(n: Net, I1: Gate, I2: Gate, A1: Gate, N1: Gate, A2: Gate, N2: Gate)
    requires AllDistinct(I1, I2, A1, N1, A2, N2) && Stage(n, 6, I1, I2, A1, N1, A2, N2)
    ensures var rank := Levels(I1, I2, A1, N1, A2, N2);
            && Ranked(n, rank)
            && Eval(n, rank, I1) == Success(true)
            && Eval(n, rank, I2) == Success(false)
            && Eval(n, rank, N1) == Success(true)
            && Eval(n, rank, A1) == Success(true)
            && Eval(n, rank, A2) == Success(true)
            && Eval(n, rank, N2) == Success(false)
  {
    var rank := Levels(I1, I2, A1, N1, A2, N2);
    FinalRanked(n, I1, I2, A1, N1, A2, N2);
    InputOutput(n, rank, I1, true);
    InputOutput(n, rank, I2, false);
    OneFed(n, rank, N1, I2, false);
    TwoFed(n, rank, A1, I1, N1, true, true);
    TwoFed(n, rank, A2, A1, I1, true, true);
    OneFed(n, rank, N2, A2, true);
  }

  /** An input gate holding `v` with nothing in its slots outputs `v`. */
  lemma InputOutput(n: Net, rank: map<Gate, nat>, g: Gate, v: bool)
    requires Ranked(n, rank) && g in n && n[g].dirty
    requires n[g].operation == BUFFER && n[g].inputGates == [] && n[g].inputValues == [v]
    ensures Eval(n, rank, g) == Success(v)
  {
    assert Width(n[g]) == 1;
    assert Slot(n, rank, g, 0) == Success(v);
    assert Inputs(n, rank, g, 1) == Success([]);
    assert [v] + [] == [v];
    assert Inputs(n, rank, g, 0) == Success([v]);
  }

  /** A dirty gate fed in its one slot by a gate outputting `v`. */
  lemma OneFed(n: Net, rank: map<Gate, nat>, g: Gate, x: Gate, v: bool)
    requires Ranked(n, rank) && g in n && n[g].dirty && x in n && n[g].inputGates == [x] && n[g].inputValues == []
    requires n[g].operation.NOT? && Eval(n, rank, x) == Success(v)
    ensures Eval(n, rank, g) == Success(!v)
  {
    assert Width(n[g]) == 1;
    assert Slot(n, rank, g, 0) == Success(v);
    assert Inputs(n, rank, g, 1) == Success([]);
    assert [v] + [] == [v];
    assert Inputs(n, rank, g, 0) == Success([v]);
  }

  /** A dirty AND gate fed in its two slots by gates outputting `v` and `w`. */
  lemma TwoFed(n: Net, rank: map<Gate, nat>, g: Gate, x: Gate, y: Gate, v: bool, w: bool)
    requires Ranked(n, rank) && g in n && n[g].dirty && x in n && y in n && n[g].inputGates == [x, y] && n[g].inputValues == []
    requires n[g].operation.AND? && Eval(n, rank, x) == Success(v) && Eval(n, rank, y) == Success(w)
    ensures Eval(n, rank, g) == Success(v && w)
  {
    assert Width(n[g]) == 2;
    assert Slot(n, rank, g, 0) == Success(v);
    assert Slot(n, rank, g, 1) == Success(w);
    assert Inputs(n, rank, g, 2) == Success([]);
    assert [w] + [] == [w];
    assert Inputs(n, rank, g, 1) == Success([w]);
    assert [v] + [w] == [v, w];
    assert Inputs(n, rank, g, 0) == Success([v, w]);
    assert Calculate(AND, [v, w]) == Success(v && w) by {
      assert [v, w][0] == v && [v, w][1] == w;
    }
  }
}
