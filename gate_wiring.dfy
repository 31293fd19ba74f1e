/** The shape of a gate network: which gates feed which. `wouldCreateCycle`
    looks along the `outputGates` links, while evaluation recurses along the
    `inputGates` slots. This module relates the two. Every filled slot is
    backed by a link, and the links form no loop. From those two facts it
    derives the ranking that makes evaluation terminate. It also shows which
    rewiring operations keep both facts. */
module GateWiring {
  import opened LogicGates

  // ---------------------------------------------------------------------------
  // Loops and links

  /** No walk of two or more gates along links comes back to where it started. */
  ghost predicate Acyclic(net: Net) {
    forall p | Path(net, p) && |p| > 1 :: p[0] != p[|p| - 1]
  }

  /** Every gate sitting in a slot of `g` has a link to `g`. */
  predicate SlotsLinked(net: Net)
    requires Closed(net)
  {
    forall g, i | g in net && 0 <= i < |net[g].inputGates| && net[g].inputGates[i] != null ::
      Edge(net, net[g].inputGates[i], g)
  }

  /** The network a circuit keeps: wires stay inside it, every slot has its
      link, and the links form no loop. */
  ghost predicate WellWired(net: Net) {
    Closed(net) && SlotsLinked(net) && Acyclic(net)
  }

  /** A walk of two or more gates leads from `x` to `y`. */
  ghost predicate Upstream(net: Net, x: Gate, y: Gate) {
    exists p :: Path(net, p) && |p| > 1 && p[0] == x && p[|p| - 1] == y
  }

  lemma UpstreamEdge(net: Net, x: Gate, y: Gate)
    requires x in net && y in net && Edge(net, x, y)
    ensures Upstream(net, x, y)
  {
    assert Path(net, [x, y]);
  }

  lemma UpstreamExtend(net: Net, x: Gate, y: Gate, z: Gate)
    requires Upstream(net, x, y) && y in net && z in net && Edge(net, y, z)
    ensures Upstream(net, x, z)
  {
    var p :| Path(net, p) && |p| > 1 && p[0] == x && p[|p| - 1] == y;
    assert Path(net, p + [z]);
  }

  // ---------------------------------------------------------------------------
  // A ranking from the shape

  /** The gates upstream of `g`. */
  ghost function Ancestors(net: Net, g: Gate): set<Gate> {
    set h | h in net && Upstream(net, h, g)
  }

  /** Each gate ranked by how many gates lie upstream of it. */
  ghost function RankOf(net: Net): (rank: map<Gate, nat>)
    ensures rank.Keys == net.Keys
  {
    map g | g in net :: |Ancestors(net, g)|
  }

  /** A gate feeding `g` has strictly fewer gates upstream of it than `g`. */
  lemma FeederRanksLower(net: Net, p: Gate, g: Gate)
    requires Closed(net) && Acyclic(net) && p in net && g in net && Edge(net, p, g)
    ensures |Ancestors(net, p)| < |Ancestors(net, g)|
  {
    forall h | h in Ancestors(net, p)
      ensures h in Ancestors(net, g)
    {
      UpstreamExtend(net, h, p, g);
    }
    UpstreamEdge(net, p, g);
    assert p in Ancestors(net, g);
    assert p !in Ancestors(net, p);
    ProperSubsetSmaller(Ancestors(net, p), Ancestors(net, g), p);
  }

  lemma ProperSubsetSmaller<T>(A: set<T>, B: set<T>, x: T)
    requires A <= B && x in B && x !in A
    ensures |A| < |B|
  {
    assert B == A + (B - A) && A * (B - A) == {};
    assert x in B - A;
  }

  /** A well-wired network can be evaluated: `RankOf` witnesses the absence of
      loops through the slots, whatever gates are dirty. */
  lemma WellWiredRanked(net: Net)
    requires WellWired(net)
    ensures Ranked(net, RankOf(net))
  {
    var rank := RankOf(net);
    forall g, i | g in net && net[g].dirty && 0 <= i < |net[g].inputGates| && net[g].inputGates[i] != null
      ensures rank[net[g].inputGates[i]] < rank[g]
    {
      FeederRanksLower(net, net[g].inputGates[i], g);
    }
  }

  // ---------------------------------------------------------------------------
  // Flooding keeps the shape

  /** Marking gates dirty moves no wire. */
  lemma RedirtiedWellWired(a: Net, b: Net)
    requires WellWired(a) && Redirtied(a, b)
    ensures WellWired(b)
  {
    RedirtiedClosed(a, b);
    forall x, y | x in a
      ensures Edge(b, x, y) == Edge(a, x, y)
    {
    }
    forall p | Path(b, p)
      ensures Path(a, p)
    {
    }
  }

  // ---------------------------------------------------------------------------
  // Walks

  lemma ReachesExtend(net: Net, x: Gate, y: Gate, z: Gate)
    requires Reaches(net, x, y) && y in net && z in net && Edge(net, y, z)
    ensures Reaches(net, x, z)
  {
    var p :| Path(net, p) && p[0] == x && p[|p| - 1] == y;
    assert Path(net, p + [z]);
  }

  lemma ReachesTrans(net: Net, x: Gate, y: Gate, z: Gate)
    requires Reaches(net, x, y) && Reaches(net, y, z)
    ensures Reaches(net, x, z)
  {
    var p :| Path(net, p) && p[0] == x && p[|p| - 1] == y;
    var q :| Path(net, q) && q[0] == y && q[|q| - 1] == z;
    var r := p + q[1..];
    forall j | 0 <= j < |r| - 1
      ensures Edge(net, r[j], r[j + 1])
    {
      if j >= |p| - 1 {
        assert r[j] == q[j - |p| + 1] && r[j + 1] == q[j - |p| + 2];
      }
    }
    assert Path(net, r);
  }

  /** Every walk in `b` is a walk in `a` when `b` has no link `a` lacks. */
  lemma FewerEdgesFewerPaths(a: Net, b: Net)
    requires b.Keys == a.Keys
    requires forall x, y | x in b && Edge(b, x, y) :: Edge(a, x, y)
    ensures forall p | Path(b, p) :: Path(a, p)
    ensures Acyclic(a) ==> Acyclic(b)
  {
  }

  // ---------------------------------------------------------------------------
  // `connectTo`

  /** Wiring adds exactly the link from `src` to `dst`. */
  lemma WiredEdge(a: Net, src: Gate, dst: Gate, i: nat, x: Gate, y: Gate)
    requires src in a && dst in a && x in a
    ensures Edge(Wired(a, src, dst, i), x, y) <==> Edge(a, x, y) || (x == src && y == dst)
  {
    var w := Wired(a, src, dst, i);
    if x == src {
      assert w[x].outputGates == a[x].outputGates + [Link(dst, i)];
      if y == dst {
        assert w[x].outputGates[|a[x].outputGates|].gate == dst;
      }
      if Edge(a, x, y) {
        var k :| 0 <= k < |a[x].outputGates| && a[x].outputGates[k].gate == y;
        assert w[x].outputGates[k].gate == y;
      }
    } else {
      assert w[x].outputGates == a[x].outputGates;
    }
  }

  /** A walk after wiring is a walk before, or it goes through the new link. */
  lemma {:induction false} WiredPath(a: Net, src: Gate, dst: Gate, i: nat, p: seq<Gate>)
    requires src in a && dst in a && Path(Wired(a, src, dst, i), p)
    ensures Path(a, p) || (Reaches(a, p[0], src) && Reaches(a, dst, p[|p| - 1]))
  {
    var w := Wired(a, src, dst, i);
    if |p| > 1 {
      var q := p[..|p| - 1];
      assert Path(w, q);
      WiredPath(a, src, dst, i, q);
      var x, y := p[|p| - 2], p[|p| - 1];
      assert Edge(w, x, y);
      WiredEdge(a, src, dst, i, x, y);
      if Path(a, q) {
        if Edge(a, x, y) {
          assert Path(a, p);
        } else {
          assert Path(a, q) && q[0] == p[0] && q[|q| - 1] == src;
          ReachesSelf(a, dst);
        }
      } else if Edge(a, x, y) {
        ReachesExtend(a, dst, x, y);
      } else {
        ReachesSelf(a, dst);
      }
    }
  }

  /** `connectTo` refuses exactly the wires that would close a loop, so the
      links stay loop-free. */
  lemma WiredAcyclic(a: Net, src: Gate, dst: Gate, i: nat)
    requires Acyclic(a) && src in a && dst in a && !Reaches(a, dst, src)
    ensures Acyclic(Wired(a, src, dst, i))
  {
    var w := Wired(a, src, dst, i);
    forall p | Path(w, p) && |p| > 1
      ensures p[0] != p[|p| - 1]
    {
      WiredPath(a, src, dst, i, p);
      if !Path(a, p) && p[0] == p[|p| - 1] {
        ReachesTrans(a, dst, p[0], src);
      }
    }
  }

  /** The slot `connectTo` fills comes with its link; slots it overwrites
      only lose a feeder. */
  lemma WiredLinked(a: Net, src: Gate, dst: Gate, i: nat)
    requires Closed(a) && SlotsLinked(a) && src in a && dst in a
    ensures Closed(Wired(a, src, dst, i)) && SlotsLinked(Wired(a, src, dst, i))
  {
    var w := Wired(a, src, dst, i);
    WiredClosed(a, src, dst, i);
    forall g, j | g in w && 0 <= j < |w[g].inputGates| && w[g].inputGates[j] != null
      ensures Edge(w, w[g].inputGates[j], g)
    {
      var p := w[g].inputGates[j];
      if g == dst && j == i {
        WiredEdge(a, src, dst, i, src, dst);
      } else {
        assert j < |a[g].inputGates| && a[g].inputGates[j] == p;
        assert Edge(a, p, g);
        WiredEdge(a, src, dst, i, p, g);
      }
    }
  }

  /** A wire `connectTo` accepts keeps the network well wired. */
  lemma WiredWellWired(a: Net, src: Gate, dst: Gate, i: nat)
    requires WellWired(a) && src in a && dst in a && !Reaches(a, dst, src)
    ensures WellWired(Wired(a, src, dst, i))
  {
    WiredLinked(a, src, dst, i);
    WiredAcyclic(a, src, dst, i);
  }

  // ---------------------------------------------------------------------------
  // `disconnectFrom`

  /** Unwiring, as written or corrected, only removes links. */
  lemma UnwiredEdges(a: Net, src: Gate, dst: Gate)
    requires Closed(a) && src in a && dst in a
    ensures forall x, y | x in Unwired(a, src, dst) && Edge(Unwired(a, src, dst), x, y) :: Edge(a, x, y)
    ensures forall x, y | x in UnwiredFixed(a, src, dst) && Edge(UnwiredFixed(a, src, dst), x, y) :: Edge(a, x, y)
  {
    var u, v := Unwired(a, src, dst), UnwiredFixed(a, src, dst);
    forall x, y | x in a && (Edge(u, x, y) || Edge(v, x, y))
      ensures Edge(a, x, y)
    {
      assert u[x].outputGates == v[x].outputGates;
      var k :| 0 <= k < |u[x].outputGates| && u[x].outputGates[k].gate == y;
      assert u[x].outputGates[k] in a[x].outputGates;
    }
  }

  /** The corrected `disconnectFrom` empties every slot whose link it drops. */
  lemma UnwiredFixedWellWired(a: Net, src: Gate, dst: Gate)
    requires WellWired(a) && src in a && dst in a
    ensures WellWired(UnwiredFixed(a, src, dst))
  {
    var u := UnwiredFixed(a, src, dst);
    UnwiredFixedClosed(a, src, dst);
    UnwiredEdges(a, src, dst);
    FewerEdgesFewerPaths(a, u);
    forall g, j | g in u && 0 <= j < |u[g].inputGates| && u[g].inputGates[j] != null
      ensures Edge(u, u[g].inputGates[j], g)
    {
      var p := u[g].inputGates[j];
      assert a[g].inputGates[j] == p;
      assert Edge(a, p, g);
      var k :| 0 <= k < |a[p].outputGates| && a[p].outputGates[k].gate == g;
      assert g != dst || p != src;
      if p == src {
        assert a[p].outputGates[k] in u[p].outputGates;
      } else {
        assert u[p].outputGates == a[p].outputGates;
      }
    }
  }

  // ---------------------------------------------------------------------------
  // `setInputs`

  /** New raw values move no wire. */
  lemma ValuesWellWired(a: Net, g: Gate, values: seq<bool>)
    requires WellWired(a) && g in a
    ensures WellWired(a[g := a[g].(inputValues := values)])
  {
    var b := a[g := a[g].(inputValues := values)];
    forall x, y | x in a
      ensures Edge(b, x, y) == Edge(a, x, y)
    {
      assert b[x].outputGates == a[x].outputGates;
    }
    FewerEdgesFewerPaths(a, b);
  }
}
