/** The electrical-topology engine of the workbench.

    Terminals ("nodes") are positions on the grid. A terminal that is added
    within the merge radius of an already registered terminal is folded into
    it; components (wire, bulb, switch, resistor, battery) join two terminals;
    and a backtracking search decides whether current can flow from the first
    battery's start terminal round to its end terminal. */
module CircuitGraph {

  /** Terminals strictly closer than this are one electrical node. */
  const MergeRadius: int := 25

  /** The component types that always conduct (a switch conducts only when on). */
  const ConductiveKinds: seq<string> := ["wire", "bulb", "resistor", "battery"]

  /** A terminal. Its id and position never change once made. Its adjacency set
      (`connected`) is kept by the graph, see `CircuitGraph.connected`. */
  class Node {
    const id: string
    const x: int
    const y: int

    constructor (id: string, x: int, y: int)
      ensures this.id == id && this.x == x && this.y == y
    {
      this.id, this.x, this.y := id, x, y;
    }
  }

  /** A component between two terminals. `kind` is the source's type tag
      ("wire", "bulb", "switch", "resistor", "battery", or any other string);
      `isOn` is the switch lever (and the bulb's lamp state, which the engine never reads). */
  class Component {
    const id: string
    const kind: string
    var start: Node?
    var end: Node?
    var isOn: bool

    constructor (id: string, kind: string, start: Node?, end: Node?, isOn: bool)
      ensures this.id == id && this.kind == kind && this.start == start && this.end == end && this.isOn == isOn
    {
      this.id, this.kind := id, kind;
      this.start, this.end, this.isOn := start, end, isOn;
    }
  }

  /** Integer form of `Math.hypot(dx, dy) < MergeRadius` over grid-snapped coordinates. */
  predicate Near(existing: Node, n: Node) {
    var dx, dy := existing.x - n.x, existing.y - n.y;
    dx * dx + dy * dy < MergeRadius * MergeRadius
  }

  lemma NearSymmetric(a: Node, b: Node)
    ensures Near(a, b) == Near(b, a)
  {
    assert (a.x - b.x) * (a.x - b.x) == (b.x - a.x) * (b.x - a.x);
    assert (a.y - b.y) * (a.y - b.y) == (b.y - a.y) * (b.y - a.y);
  }

  /** Two terminals are the same electrical node when both exist and their positions coincide. */
  predicate SameNode(a: Node?, b: Node?) {
    a != null && b != null && a.x == b.x && a.y == b.y
  }

  /** Index of the first registered terminal within the merge radius of `n`, or |ns| if none. */
  function FirstNear(ns: seq<Node>, n: Node): (k: nat)
    ensures k <= |ns|
    ensures k < |ns| ==> Near(ns[k], n)
    ensures forall j :: 0 <= j < k ==> !Near(ns[j], n)
  {
    if ns == [] then 0
    else if Near(ns[0], n) then 0
    else 1 + FirstNear(ns[1..], n)
  }

  /** Index of the registered terminal stored under `id`, or |ns| if none. */
  function IndexOfId(ns: seq<Node>, id: string): (k: nat)
    ensures k <= |ns|
    ensures k < |ns| ==> ns[k].id == id
    ensures forall j :: 0 <= j < k ==> ns[j].id != id
  {
    if ns == [] then 0
    else if ns[0].id == id then 0
    else 1 + IndexOfId(ns[1..], id)
  }

  /** No two registered terminals share an id (the registry is a map keyed by id). */
  predicate DistinctIds(ns: seq<Node>) {
    forall i, j :: 0 <= i < j < |ns| ==> ns[i].id != ns[j].id
  }

  /** No two registered terminals lie within the merge radius of each other. */
  predicate Separated(ns: seq<Node>) {
    forall i, j :: 0 <= i < |ns| && 0 <= j < |ns| && i != j ==> !Near(ns[i], ns[j])
  }

  /** The registry after storing `n` under its id: an existing entry with that id
      is replaced where it stands, otherwise `n` is appended (insertion order). */
  function Register(ns: seq<Node>, n: Node): (r: seq<Node>)
    ensures n in r && |r| <= |ns| + 1
    ensures forall m :: m in r ==> m == n || m in ns
    ensures forall m :: m in ns && m.id != n.id ==> m in r
  {
    var k := IndexOfId(ns, n.id);
    if k < |ns| then
      var r := ns[k := n];
      assert r[k] == n;
      assert forall j :: 0 <= j < |ns| && j != k ==> r[j] == ns[j];
      r
    else ns + [n]
  }

  lemma {:induction false} RegisterKeepsInvariant(ns: seq<Node>, n: Node)
    requires DistinctIds(ns) && Separated(ns)
    requires FirstNear(ns, n) == |ns|
    ensures DistinctIds(Register(ns, n)) && Separated(Register(ns, n))
  {
    var r := Register(ns, n);
    var k := IndexOfId(ns, n.id);
    forall i, j | 0 <= i < |r| && 0 <= j < |r| && i != j
      ensures !Near(r[i], r[j])
    {
      if r[i] == n && (k == |ns| || i == k) {
        NearSymmetric(r[i], r[j]);
      } else if r[j] == n && (k == |ns| || j == k) {
      } else {
        assert r[i] == ns[i] && r[j] == ns[j];
      }
    }
  }

  /** The terminal `addNode(n)` hands back for registry `ns`. */
  function Canonical(ns: seq<Node>, n: Node): Node {
    var k := FirstNear(ns, n);
    if k < |ns| then ns[k] else n
  }

  /** The registry after `addNode(n)`. */
  function AfterAdd(ns: seq<Node>, n: Node): seq<Node> {
    if FirstNear(ns, n) < |ns| then ns else Register(ns, n)
  }

  /** The adjacency set of `n` in `adj`; empty while `n` has none yet. */
  function Adj(adj: map<Node, set<Node>>, n: Node): set<Node> {
    if n in adj then adj[n] else {}
  }

  /** `a.connected.add(b)`. */
  function Link(adj: map<Node, set<Node>>, a: Node, b: Node): map<Node, set<Node>> {
    adj[a := Adj(adj, a) + {b}]
  }

  /** The adjacency sets after `addNode(n)` on registry `ns`: `n` gets an empty set if it
      had none, and when it is folded into a registered terminal the two become adjacent. */
  function AdjAfterAdd(ns: seq<Node>, adj: map<Node, set<Node>>, n: Node): map<Node, set<Node>> {
    var created := adj[n := Adj(adj, n)];
    var k := FirstNear(ns, n);
    if k < |ns| then Link(Link(created, ns[k], n), n, ns[k]) else created
  }

  /** The adjacency sets after `addComponent` on a component from `a` to `b`: both terminals
      are added, then the terminals handed back become adjacent to each other. */
  function AdjAfterJoin(ns: seq<Node>, adj: map<Node, set<Node>>, a: Node, b: Node): map<Node, set<Node>> {
    var s, e := Canonical(ns, a), Canonical(AfterAdd(ns, a), b);
    var placed := AdjAfterAdd(AfterAdd(ns, a), AdjAfterAdd(ns, adj, a), b);
    Link(Link(placed, s, e), e, s)
  }

  /** `addNode` only ever adds to adjacency sets: a terminal that is registered fresh
      keeps every set as it was (and gets an empty one of its own), and a merged terminal
      and the terminal it folds into become adjacent to each other. */
  lemma AdjAfterAddGrows(ns: seq<Node>, adj: map<Node, set<Node>>, n: Node)
    ensures var r := AdjAfterAdd(ns, adj, n);
            && r.Keys == adj.Keys + {n} + (if FirstNear(ns, n) < |ns| then {Canonical(ns, n)} else {})
            && (forall m :: m in adj ==> Adj(adj, m) <= Adj(r, m))
            && (FirstNear(ns, n) < |ns| ==> Canonical(ns, n) in Adj(r, n) && n in Adj(r, Canonical(ns, n)))
            && (FirstNear(ns, n) == |ns| ==> forall m :: m in r ==> Adj(r, m) == Adj(adj, m))
  {
  }

  /** After `addComponent` the two terminals handed back are adjacent to each other,
      and no adjacency was lost. */
  lemma AdjAfterJoinLinks(ns: seq<Node>, adj: map<Node, set<Node>>, a: Node, b: Node)
    ensures var r, s, e := AdjAfterJoin(ns, adj, a, b), Canonical(ns, a), Canonical(AfterAdd(ns, a), b);
            && e in Adj(r, s) && s in Adj(r, e)
            && forall m :: m in adj ==> Adj(adj, m) <= Adj(r, m)
  {
    var adj1 := AdjAfterAdd(ns, adj, a);
    var placed := AdjAfterAdd(AfterAdd(ns, a), adj1, b);
    var s, e := Canonical(ns, a), Canonical(AfterAdd(ns, a), b);
    AdjAfterAddGrows(ns, adj, a);
    AdjAfterAddGrows(AfterAdd(ns, a), adj1, b);
    assert forall m :: m in adj ==> Adj(adj, m) <= Adj(placed, m);
    LinkGrows(placed, s, e);
    LinkGrows(Link(placed, s, e), e, s);
  }

  /** Adding to one adjacency set loses nothing. */
  lemma LinkGrows(adj: map<Node, set<Node>>, a: Node, b: Node)
    ensures b in Adj(Link(adj, a, b), a)
    ensures forall m :: m in adj ==> Adj(adj, m) <= Adj(Link(adj, a, b), m)
  {
  }

  /** Whether `c` is attached at the electrical node of `n`. */
  predicate Touches(c: Component, n: Node?)
    reads c
  {
    SameNode(c.start, n) || SameNode(c.end, n)
  }

  /** The terminal reached by crossing `c` from `n`: the end if the start is at `n`, else the start. */
  function Far(c: Component, n: Node?): Node?
    reads c
  {
    if SameNode(c.start, n) then c.end else c.start
  }

  /** `getConnections`: the components attached at the position of `n`, in list order. */
  function Connections(cs: seq<Component>, n: Node?): (r: seq<Component>)
    reads cs
    ensures |r| <= |cs|
    ensures forall c :: c in r ==> c in cs && Touches(c, n)
    ensures forall c :: c in cs && Touches(c, n) ==> c in r
    ensures n == null ==> r == []
  {
    if cs == [] then []
    else if Touches(cs[0], n) then [cs[0]] + Connections(cs[1..], n)
    else Connections(cs[1..], n)
  }

  /** `componentConducts`: a switch conducts exactly when on, the four conductive kinds always,
      anything else (and a missing component) never. */
  predicate Conducts(c: Component?)
    reads c
  {
    c != null && if c.kind == "switch" then c.isOn else c.kind in ConductiveKinds
  }

  lemma ConductsTable(c: Component)
    ensures c.kind == "switch" ==> (Conducts(c) <==> c.isOn)
    ensures c.kind in {"wire", "bulb", "resistor", "battery"} ==> Conducts(c)
    ensures c.kind !in {"switch", "wire", "bulb", "resistor", "battery"} ==> !Conducts(c)
  {
    assert ConductiveKinds == ["wire", "bulb", "resistor", "battery"];
  }

  /** A conducting trail: crossing `path` component by component from `from` ends at the node of `to`. */
  ghost predicate IsTrail(from: Node?, path: seq<Component>, to: Node?)
    reads path
    decreases |path|
  {
    if path == [] then SameNode(from, to)
    else Conducts(path[0]) && Touches(path[0], from) && IsTrail(Far(path[0], from), path[1..], to)
  }

  /** A trail starts and ends at terminals. */
  lemma {:induction false} TrailEnds(from: Node?, path: seq<Component>, to: Node?)
    requires IsTrail(from, path, to)
    ensures from != null && to != null
  {
    if path != [] {
      TrailEnds(Far(path[0], from), path[1..], to);
    }
  }

  ghost predicate Distinct(path: seq<Component>) {
    forall i, j :: 0 <= i < j < |path| ==> path[i] != path[j]
  }

  /** Index of the first component of type "battery", or |cs| if none. */
  function FirstBattery(cs: seq<Component>): (k: nat)
    ensures k <= |cs|
    ensures k < |cs| ==> cs[k].kind == "battery"
    ensures forall j :: 0 <= j < k ==> cs[j].kind != "battery"
  {
    if cs == [] then 0
    else if cs[0].kind == "battery" then 0
    else 1 + FirstBattery(cs[1..])
  }

  lemma SubsetCard<T>(a: set<T>, b: set<T>)
    requires a <= b
    ensures |a| <= |b|
  {
    assert b == a + (b - a);
  }

  class CircuitGraph {
    /** The registered terminals in insertion order (a map keyed by terminal id). */
    var nodes: seq<Node>
    var components: seq<Component>
    /** The adjacency set of each terminal (`node.connected` of the source), kept here. */
    var connected: map<Node, set<Node>>

    ghost predicate Valid()
      reads this`nodes, this`components, components
    {
      Attached() && Registry()
    }

    /** Every registered component has both endpoints: all the search and
        `simulate` rely on, wherever the terminals happen to sit. */
    ghost predicate Attached()
      reads this`components, components
    {
      forall c :: c in components ==> c.start != null && c.end != null
    }

    /** The terminal registry is keyed by id and its terminals are pairwise apart. */
    ghost predicate Registry()
      reads this`nodes
    {
      DistinctIds(nodes) && Separated(nodes)
    }

    constructor ()
      ensures Valid() && nodes == [] && components == [] && connected == map[]
    {
      nodes, components, connected := [], [], map[];
    }

    /** `addNode`: fold `node` into the first registered terminal within the merge
        radius (making the two mutually adjacent, moving neither), or register it. */
    method AddNode(node: Node?) returns (r: Node?)
      requires Registry()
      modifies this`nodes, this`connected
      ensures Registry()
      ensures node == null ==> r == null && nodes == old(nodes) && connected == old(connected)
      ensures node != null ==> && r == Canonical(old(nodes), node)
                               && nodes == AfterAdd(old(nodes), node)
                               && connected == AdjAfterAdd(old(nodes), old(connected), node)
    {
      if node == null {
        return null;
      }
      connected := connected[node := Adj(connected, node)];
      var i := 0;
      while i < |nodes|
        invariant 0 <= i <= |nodes|
        invariant nodes == old(nodes)
        invariant forall j :: 0 <= j < i ==> !Near(nodes[j], node)
        invariant connected == old(connected)[node := Adj(old(connected), node)]
      {
        var existing := nodes[i];
        if Near(existing, node) {
          connected := Link(connected, existing, node);
          connected := Link(connected, node, existing);
          assert FirstNear(old(nodes), node) == i;
          return existing;
        }
        i := i + 1;
      }
      RegisterKeepsInvariant(nodes, node);
      nodes := Register(nodes, node);
      r := node;
    }

    /** `addComponent`: ignore a missing component or endpoint; otherwise replace both
        endpoints by their canonical terminals, join those, and append the component. */
    method AddComponent(comp: Component?)
      requires Valid()
      modifies this`nodes, this`components, this`connected, comp
      ensures Valid() && (comp != null ==> comp.isOn == old(comp.isOn))
      ensures old(comp == null || comp.start == null || comp.end == null) ==>
                nodes == old(nodes) && components == old(components) && connected == old(connected)
      ensures old(comp != null && comp.start != null && comp.end != null) ==>
                && components == old(components) + [comp]
                && comp.start == Canonical(old(nodes), old(comp.start))
                && comp.end == Canonical(AfterAdd(old(nodes), old(comp.start)), old(comp.end))
                && nodes == AfterAdd(AfterAdd(old(nodes), old(comp.start)), old(comp.end))
                && connected == AdjAfterJoin(old(nodes), old(connected), old(comp.start), old(comp.end))
    {
      if comp == null || comp.start == null || comp.end == null {
        return;
      }
      var s := AddNode(comp.start);
      comp.start := s;
      var e := AddNode(comp.end);
      comp.end := e;
      connected := Link(connected, s, e);
      connected := Link(connected, e, s);
      components := components + [comp];
    }

    /** Conducting components of the circuit. */
    ghost function Conducting(): set<Component>
      reads this, components
    {
      set c | c in components && Conducts(c)
    }

    /** Every member of `s` is a conducting component of the circuit. */
    ghost predicate InCircuitConducting(s: set<Component>)
      reads this, s
    {
      forall c :: c in s ==> c in components && Conducts(c)
    }

    ghost function ComponentSet(): set<Component>
      reads this
    {
      set c | c in components
    }

    /** Every component endpoint at the position of `t` is the terminal `t` itself
        (holds when all endpoints are registered terminals, which are pairwise apart). */
    ghost predicate CanonicalAt(t: Node?)
      reads this, components
    {
      forall c :: c in components ==>
        (SameNode(c.start, t) ==> c.start == t) && (SameNode(c.end, t) ==> c.end == t)
    }

    /** A conducting component attached at `current` whose far terminal is the very object `target`. */
    ghost predicate Direct(c: Component, current: Node?, target: Node?)
      reads c
    {
      target != null && Conducts(c) && Touches(c, current) && Far(c, current) == target
    }

    /** Two different components each lead directly from `current` to `target`. */
    ghost predicate TwoDirect(current: Node?, target: Node?)
      reads this, components
    {
      exists c1, c2 :: c1 in components && c2 in components && c1 != c2
        && Direct(c1, current, target) && Direct(c2, current, target)
    }

    /** What a successful search hands back: a trail of distinct, previously unvisited
        conducting components from `current` to the node of `target` (empty only when the
        search was entered already standing there with something visited); below the top
        level the visited set grows by exactly the trail; from an empty visited set, when
        `target` is the only terminal object at its position, at least two components
        end up visited. */
    ghost predicate FoundTrail(current: Node?, target: Node?, visited: set<Component>,
                               visitedOut: set<Component>, trail: seq<Component>)
      reads this, components, trail
    {
      && IsTrail(current, trail, target) && Distinct(trail) && (trail != [] || visited != {})
      && (forall c :: c in trail ==> c in components && c !in visited)
      && (visited != {} ==> visitedOut == visited + set c | c in trail)
      && (visited == {} && CanonicalAt(target) ==> |visitedOut| >= 2)
    }

    /** Prepending the component just crossed to a trail found from its far terminal. */
    lemma ExtendFound(current: Node, target: Node, comp: Component, visited: set<Component>,
                      before: set<Component>, vo: set<Component>, p: seq<Component>)
      requires Attached()
      requires comp in components && Conducts(comp) && Touches(comp, current)
      requires visited <= before && comp !in before
      requires visited != {} ==> before == visited
      requires Far(comp, current) == target ==> |before + {comp}| >= 2
      requires FoundTrail(Far(comp, current), target, before + {comp}, vo, p)
      ensures FoundTrail(current, target, visited, vo, [comp] + p)
    {
      var trail := [comp] + p;
      assert trail[1..] == p;
      assert IsTrail(current, trail, target);
      assert Distinct(trail);
      if visited == {} && CanonicalAt(target) {
        if |before + {comp}| < 2 {
          assert p != [];
          assert {comp, p[0]} <= vo;
          SubsetCard({comp, p[0]}, vo);
        } else {
          SubsetCard(before + {comp}, vo);
        }
      }
    }

    /** The outcome of `hasClosedLoop(current, target, visited)`: whether a trail was found,
        and the shared visited set as the search leaves it. */
    ghost function Search(current: Node?, target: Node?, visited: set<Component>): (r: (bool, set<Component>))
      requires Attached()
      reads this, components
      decreases ComponentSet() - visited, 2, 0
      ensures visited <= r.1
    {
      if current == null || target == null then (false, visited)
      else if SameNode(current, target) && |visited| > 0 then (true, visited)
      else SearchFrom(Connections(components, current), 0, current, target, visited, visited)
    }

    /** The loop of `hasClosedLoop` from entry `i` of `conns` on, with `acc` the visited set so far. */
    ghost function SearchFrom(conns: seq<Component>, i: nat, current: Node, target: Node,
                              visited: set<Component>, acc: set<Component>): (r: (bool, set<Component>))
      requires Attached() && conns == Connections(components, current) && i <= |conns|
      requires visited <= acc
      reads this, components
      decreases ComponentSet() - visited, 1, |conns| - i
      ensures acc <= r.1
    {
      if i == |conns| then (false, acc)
      else
        assert conns[i] in components;
        var t := Try(conns[i], current, target, visited, acc);
        if t.0 then t else SearchFrom(conns, i + 1, current, target, visited, t.1)
    }

    /** One pass of that loop, over the connection `comp`: a component that does not conduct or
        is visited is passed over; otherwise it becomes visited and, unless it leads straight to
        `target` while fewer than two components are visited, the search goes on from its far
        terminal, and `comp` is unvisited again when that fails. */
    ghost function Try(comp: Component, current: Node, target: Node,
                       visited: set<Component>, acc: set<Component>): (r: (bool, set<Component>))
      requires Attached() && comp in components && visited <= acc
      reads this, components
      decreases ComponentSet() - visited, 0, 0
      ensures acc <= r.1
    {
      if !Conducts(comp) || comp in acc then (false, acc)
      else if Far(comp, current) == target && |acc + {comp}| < 2 then (false, acc + {comp})
      else
        assert comp in ComponentSet();
        var sub := Search(Far(comp, current), target, acc + {comp});
        if sub.0 then sub else (false, sub.1 - {comp})
    }

    /** The search only ever adds conducting components of the circuit to the visited set,
        and a failed search entered with a non-empty visited set hands it back unchanged. */
    lemma {:induction false} SearchKeeps(current: Node?, target: Node?, visited: set<Component>)
      requires Attached()
      decreases ComponentSet() - visited, 2, 0
      ensures var r := Search(current, target, visited);
              && InCircuitConducting(r.1 - visited)
              && (!r.0 && visited != {} ==> r.1 == visited)
    {
      if current != null && target != null && !(SameNode(current, target) && |visited| > 0) {
        SearchFromKeeps(Connections(components, current), 0, current, target, visited, visited);
      }
    }

    lemma {:induction false} SearchFromKeeps(conns: seq<Component>, i: nat, current: Node, target: Node,
                                             visited: set<Component>, acc: set<Component>)
      requires Attached() && conns == Connections(components, current) && i <= |conns|
      requires visited <= acc && InCircuitConducting(acc - visited)
      requires visited != {} ==> acc == visited
      decreases ComponentSet() - visited, 1, |conns| - i
      ensures var r := SearchFrom(conns, i, current, target, visited, acc);
              && InCircuitConducting(r.1 - visited)
              && (!r.0 && visited != {} ==> r.1 == visited)
    {
      if i < |conns| {
        assert conns[i] in components;
        TryKeeps(conns[i], current, target, visited, acc);
        var t := Try(conns[i], current, target, visited, acc);
        if !t.0 {
          SearchFromKeeps(conns, i + 1, current, target, visited, t.1);
        }
      }
    }

    lemma {:induction false} TryKeeps(comp: Component, current: Node, target: Node,
                                      visited: set<Component>, acc: set<Component>)
      requires Attached() && comp in components
      requires visited <= acc && InCircuitConducting(acc - visited)
      requires visited != {} ==> acc == visited
      decreases ComponentSet() - visited, 0, 0
      ensures var r := Try(comp, current, target, visited, acc);
              && InCircuitConducting(r.1 - visited)
              && (!r.0 && visited != {} ==> r.1 == visited)
    {
      if Conducts(comp) && comp !in acc && !(Far(comp, current) == target && |acc + {comp}| < 2) {
        assert comp in ComponentSet();
        SearchKeeps(Far(comp, current), target, acc + {comp});
      }
    }

    /** A successful search has found a trail: see `FoundTrail`. */
    lemma {:induction false} SearchSound(current: Node?, target: Node?, visited: set<Component>)
      requires Attached()
      decreases ComponentSet() - visited, 2, 0
      ensures var r := Search(current, target, visited);
              r.0 ==> exists trail :: FoundTrail(current, target, visited, r.1, trail)
    {
      if current != null && target != null {
        if SameNode(current, target) && |visited| > 0 {
          assert FoundTrail(current, target, visited, visited, []);
        } else {
          SearchFromSound(Connections(components, current), 0, current, target, visited, visited);
        }
      }
    }

    lemma {:induction false} SearchFromSound(conns: seq<Component>, i: nat, current: Node, target: Node,
                                             visited: set<Component>, acc: set<Component>)
      requires Attached() && conns == Connections(components, current) && i <= |conns|
      requires visited <= acc
      requires visited != {} ==> acc == visited
      decreases ComponentSet() - visited, 1, |conns| - i
      ensures var r := SearchFrom(conns, i, current, target, visited, acc);
              r.0 ==> exists trail :: FoundTrail(current, target, visited, r.1, trail)
    {
      if i < |conns| {
        assert conns[i] in conns;
        TrySound(conns[i], current, target, visited, acc);
        var t := Try(conns[i], current, target, visited, acc);
        if !t.0 {
          TryUnchanged(conns[i], current, target, visited, acc);
          SearchFromSound(conns, i + 1, current, target, visited, t.1);
        }
      }
    }

    /** A failed pass over a connection leaves a non-empty visited set as it was. */
    lemma TryUnchanged(comp: Component, current: Node, target: Node,
                       visited: set<Component>, acc: set<Component>)
      requires Attached() && comp in components && visited <= acc
      requires visited != {} ==> acc == visited
      ensures var r := Try(comp, current, target, visited, acc);
              !r.0 && visited != {} ==> r.1 == visited
    {
      if Conducts(comp) && comp !in acc && !(Far(comp, current) == target && |acc + {comp}| < 2) {
        SearchKeeps(Far(comp, current), target, acc + {comp});
      }
    }

    lemma {:induction false} TrySound(comp: Component, current: Node, target: Node,
                                      visited: set<Component>, acc: set<Component>)
      requires Attached() && comp in components && Touches(comp, current)
      requires visited <= acc
      requires visited != {} ==> acc == visited
      decreases ComponentSet() - visited, 0, 0
      ensures var r := Try(comp, current, target, visited, acc);
              r.0 ==> exists trail :: FoundTrail(current, target, visited, r.1, trail)
    {
      if Conducts(comp) && comp !in acc && !(Far(comp, current) == target && |acc + {comp}| < 2) {
        assert comp in ComponentSet();
        var sub := Search(Far(comp, current), target, acc + {comp});
        SearchSound(Far(comp, current), target, acc + {comp});
        if sub.0 {
          var p :| FoundTrail(Far(comp, current), target, acc + {comp}, sub.1, p);
          ExtendFound(current, target, comp, visited, acc, sub.1, p);
        }
      }
    }

    /** From an empty visited set, a failed pass over a connection keeps at most one component
        visited, one leading straight to `target`, and keeps `comp` if it leads straight there. */
    lemma TryDirect(comp: Component, current: Node, target: Node, acc: set<Component>)
      requires Attached() && comp in components && Touches(comp, current)
      requires |acc| <= 1 && forall d :: d in acc ==> Direct(d, current, target)
      ensures var r := Try(comp, current, target, {}, acc);
              !r.0 ==> && |r.1| <= 1 && (forall d :: d in r.1 ==> Direct(d, current, target))
                       && (Direct(comp, current, target) ==> comp in r.1)
    {
      if Conducts(comp) && comp !in acc && !(Far(comp, current) == target && |acc + {comp}| < 2) {
        var sub := Search(Far(comp, current), target, acc + {comp});
        if !sub.0 {
          assert !Direct(comp, current, target);
          SearchKeeps(Far(comp, current), target, acc + {comp});
        }
      }
    }

    /** One more entry of `conns` is accounted for: it is kept, or it is not direct. */
    lemma DirectTried(conns: seq<Component>, i: nat, current: Node, target: Node, acc: set<Component>)
      requires i < |conns|
      requires forall k :: 0 <= k < i && Direct(conns[k], current, target) ==> conns[k] in acc
      requires Direct(conns[i], current, target) ==> conns[i] in acc
      ensures forall k :: 0 <= k < i + 1 && Direct(conns[k], current, target) ==> conns[k] in acc
    {
    }

    /** From an empty visited set, the loop keeps at most one component behind, one leading
        straight to `target`, and every direct component tried so far is kept. */
    lemma {:induction false} SearchFromDirect(conns: seq<Component>, i: nat, current: Node, target: Node,
                                              acc: set<Component>)
      requires Attached() && conns == Connections(components, current) && i <= |conns|
      requires |acc| <= 1 && forall d :: d in acc ==> Direct(d, current, target)
      requires forall k :: 0 <= k < i && Direct(conns[k], current, target) ==> conns[k] in acc
      decreases |conns| - i
      ensures var r := SearchFrom(conns, i, current, target, {}, acc);
              !r.0 ==> && |r.1| <= 1
                       && forall k :: 0 <= k < |conns| && Direct(conns[k], current, target) ==> conns[k] in r.1
    {
      if i < |conns| {
        assert conns[i] in conns;
        TryDirect(conns[i], current, target, acc);
        var t := Try(conns[i], current, target, {}, acc);
        if !t.0 {
          TryKeepsAcc(conns[i], current, target, acc);
          DirectTried(conns, i, current, target, t.1);
          SearchFromDirect(conns, i + 1, current, target, t.1);
        }
      }
    }

    /** A pass from an empty visited set never unvisits what was visited before it. */
    lemma TryKeepsAcc(comp: Component, current: Node, target: Node, acc: set<Component>)
      requires Attached() && comp in components
      ensures acc <= Try(comp, current, target, {}, acc).1
    {
    }

    /** Searching from an empty visited set: a failure leaves at most one component
        visited, and two components leading straight from `current` to `target` are
        always found as a loop. */
    lemma SearchFromEmpty(current: Node?, target: Node?)
      requires Attached()
      ensures var r := Search(current, target, {});
              && (!r.0 ==> |r.1| <= 1)
              && (TwoDirect(current, target) ==> r.0)
    {
      if current != null && target != null {
        var conns := Connections(components, current);
        SearchFromDirect(conns, 0, current, target, {});
        var r := Search(current, target, {});
        if !r.0 && TwoDirect(current, target) {
          var c1, c2 :| c1 in components && c2 in components && c1 != c2
            && Direct(c1, current, target) && Direct(c2, current, target);
          assert c1 in conns && c2 in conns;
          var k1 :| 0 <= k1 < |conns| && conns[k1] == c1;
          var k2 :| 0 <= k2 < |conns| && conns[k2] == c2;
          SubsetCard({c1, c2}, r.1);
        }
      }
    }

    /** A trail the search may use from `visited`: distinct conducting
        components of the circuit, none of them visited yet. */
    ghost predicate OpenTrail(current: Node?, target: Node?, visited: set<Component>, p: seq<Component>)
      reads this, components, p
    {
      IsTrail(current, p, target) && Distinct(p) && forall c :: c in p ==> c in components && c !in visited
    }

    /** The rest of an open trail is open from the far side of its first
        component, with that component visited too. */
    lemma OpenTail(current: Node?, target: Node?, visited: set<Component>, p: seq<Component>)
      requires p != [] && OpenTrail(current, target, visited, p)
      ensures OpenTrail(Far(p[0], current), target, visited + {p[0]}, p[1..])
    {
      forall c | c in p[1..] ensures c != p[0] {
        var j :| 0 <= j < |p[1..]| && p[1..][j] == c;
        assert p[j + 1] == c;
      }
    }

    /** Completeness of the search below the top level: with something
        visited, any open trail from `current` to `target` is found. */
    lemma {:induction false} SearchComplete(current: Node?, target: Node?, visited: set<Component>, p: seq<Component>)
      requires Attached() && visited != {} && OpenTrail(current, target, visited, p)
      decreases ComponentSet() - visited, 2, 0
      ensures Search(current, target, visited).0
    {
      TrailEnds(current, p, target);
      if !SameNode(current, target) {
        var conns := Connections(components, current);
        assert p[0] in conns;
        var k :| 0 <= k < |conns| && conns[k] == p[0];
        SearchFromComplete(conns, 0, k, current, target, visited, p);
      }
    }

    lemma {:induction false} SearchFromComplete(conns: seq<Component>, i: nat, k: nat, current: Node, target: Node,
                                                visited: set<Component>, p: seq<Component>)
      requires Attached() && conns == Connections(components, current) && i <= k < |conns|
      requires visited != {} && p != [] && conns[k] == p[0] && OpenTrail(current, target, visited, p)
      decreases ComponentSet() - visited, 1, k - i
      ensures SearchFrom(conns, i, current, target, visited, visited).0
    {
      assert conns[i] in conns;
      if i == k {
        TryComplete(current, target, visited, p);
      } else {
        TryUnchanged(conns[i], current, target, visited, visited);
        if !Try(conns[i], current, target, visited, visited).0 {
          SearchFromComplete(conns, i + 1, k, current, target, visited, p);
        }
      }
    }

    /** Crossing the first component of an open trail: with something
        already visited the skip never fires, and the rest of the trail is
        found from the far side. */
    lemma {:induction false} TryComplete(current: Node, target: Node, visited: set<Component>, p: seq<Component>)
      requires Attached() && visited != {} && p != [] && OpenTrail(current, target, visited, p)
      decreases ComponentSet() - visited, 0, 0
      ensures p[0] in components && Try(p[0], current, target, visited, visited).0
    {
      var c := p[0];
      var x :| x in visited;
      SubsetCard({x, c}, visited + {c});
      assert c in ComponentSet();
      OpenTail(current, target, visited, p);
      SearchComplete(Far(c, current), target, visited + {c}, p[1..]);
    }

    /** Index of the first entry of `conns` leading straight from `current`
        to `target`, |conns| if none: the one the top level skips. */
    ghost function FirstDirect(conns: seq<Component>, current: Node?, target: Node?): (k: nat)
      reads set c | c in conns
      ensures k <= |conns| && (k < |conns| ==> Direct(conns[k], current, target))
      ensures forall j :: 0 <= j < k ==> !Direct(conns[j], current, target)
    {
      if conns == [] then 0
      else if Direct(conns[0], current, target) then 0
      else 1 + FirstDirect(conns[1..], current, target)
    }

    /** `p` does not use the component the top level of the search skips. */
    ghost predicate Bypasses(current: Node?, target: Node?, p: seq<Component>)
      reads this, components
    {
      var conns := Connections(components, current);
      assert forall c :: c in conns ==> c in components;
      var k := FirstDirect(conns, current, target);
      k < |conns| ==> conns[k] !in p
    }

    /** A failed pass at the top level: the visited set is unchanged, except
        that the first direct component, met while nothing is visited, stays. */
    lemma TryTopFails(comp: Component, current: Node, target: Node, acc: set<Component>)
      requires Attached() && comp in components && Touches(comp, current) && |acc| <= 1
      requires !Try(comp, current, target, {}, acc).0
      ensures Try(comp, current, target, {}, acc).1 == if acc == {} && Direct(comp, current, target) then {comp} else acc
    {
      if Conducts(comp) && comp !in acc && !(Far(comp, current) == target && |acc + {comp}| < 2) {
        SearchKeeps(Far(comp, current), target, acc + {comp});
        if acc != {} {
          var d :| d in acc;
          forall e | e in acc ensures e == d {
            if e != d { SubsetCard({d, e}, acc); }
          }
          assert acc == {d};
          assert |acc + {comp}| == 2;
        }
      }
    }

    /** The visited set the top level holds on reaching entry `i` of `conns`
        when every earlier pass failed: only the skipped direct component. */
    ghost function TopAcc(conns: seq<Component>, i: nat, current: Node?, target: Node?): set<Component>
      reads set c | c in conns
    {
      var d := FirstDirect(conns, current, target);
      if i <= d || d == |conns| then {} else {conns[d]}
    }

    /** A failed top-level pass moves on with the visited set `TopAcc` predicts. */
    lemma TopStep(conns: seq<Component>, i: nat, current: Node, target: Node)
      requires Attached() && conns == Connections(components, current) && i < |conns|
      requires !Try(conns[i], current, target, {}, TopAcc(conns, i, current, target)).0
      ensures SearchFrom(conns, i, current, target, {}, TopAcc(conns, i, current, target))
           == SearchFrom(conns, i + 1, current, target, {}, TopAcc(conns, i + 1, current, target))
    {
      var d := FirstDirect(conns, current, target);
      var acc := TopAcc(conns, i, current, target);
      assert conns[i] in conns;
      TryTopFails(conns[i], current, target, acc);
      if i < d {
        assert !Direct(conns[i], current, target);
      }
    }

    /** The top-level loop from entry `i`, with the visited set it then holds. */
    lemma {:induction false} SearchFromTopComplete(conns: seq<Component>, i: nat, k: nat, current: Node, target: Node,
                                                   p: seq<Component>)
      requires Attached() && conns == Connections(components, current) && i <= k < |conns|
      requires p != [] && conns[k] == p[0] && OpenTrail(current, target, {}, p) && Bypasses(current, target, p)
      decreases k - i
      ensures SearchFrom(conns, i, current, target, {}, TopAcc(conns, i, current, target)).0
    {
      assert conns[i] in conns;
      if i == k {
        TryTopComplete(conns, i, current, target, p);
      } else if !Try(conns[i], current, target, {}, TopAcc(conns, i, current, target)).0 {
        TopStep(conns, i, current, target);
        SearchFromTopComplete(conns, i + 1, k, current, target, p);
      }
    }

    /** The top level reaching the first component of the trail: it is not
        the skipped one, so the rest of the trail is found from its far side. */
    lemma TryTopComplete(conns: seq<Component>, i: nat, current: Node, target: Node, p: seq<Component>)
      requires Attached() && conns == Connections(components, current) && i < |conns|
      requires p != [] && conns[i] == p[0] && OpenTrail(current, target, {}, p) && Bypasses(current, target, p)
      ensures p[0] in components && Try(p[0], current, target, {}, TopAcc(conns, i, current, target)).0
    {
      var acc := TopAcc(conns, i, current, target);
      var c := p[0];
      assert c !in acc && (|acc + {c}| >= 2 || !Direct(c, current, target));
      assert c in components && Search(Far(c, current), target, acc + {c}).0 by {
        OpenTail(current, target, {}, p);
        OpenWider(Far(c, current), target, {c}, acc + {c}, p[1..]);
        assert c in ComponentSet();
        SearchComplete(Far(c, current), target, acc + {c}, p[1..]);
      }
      TryFound(c, current, target, acc);
    }

    /** A pass over a conducting, unvisited component that is not skipped
        succeeds when the search from its far terminal does. */
    lemma TryFound(c: Component, current: Node, target: Node, acc: set<Component>)
      requires Attached() && c in components && Conducts(c) && c !in acc
      requires |acc + {c}| >= 2 || Far(c, current) != target
      requires Search(Far(c, current), target, acc + {c}).0
      ensures Try(c, current, target, {}, acc).0
    {
    }

    /** An open trail stays open from a larger visited set that adds none of its components. */
    lemma OpenWider(current: Node?, target: Node?, v: set<Component>, w: set<Component>, p: seq<Component>)
      requires OpenTrail(current, target, v, p) && forall c :: c in w && c !in v ==> c !in p
      ensures OpenTrail(current, target, w, p)
    {
    }

    /** Completeness at the top level: from nothing visited, any non-empty
        open trail that does not use the skipped direct component is found. */
    lemma SearchTopComplete(current: Node?, target: Node?, p: seq<Component>)
      requires Attached() && p != [] && OpenTrail(current, target, {}, p) && Bypasses(current, target, p)
      ensures Search(current, target, {}).0
    {
      TrailEnds(current, p, target);
      var conns := Connections(components, current);
      assert p[0] in conns;
      var k :| 0 <= k < |conns| && conns[k] == p[0];
      SearchFromTopComplete(conns, 0, k, current, target, p);
    }

    /** `hasClosedLoop`: backtracking search from `current` for a trail of unvisited conducting
        components ending at `target`'s position. `visited` is the shared set of the source,
        passed in and handed back. */
    method HasClosedLoop(current: Node?, target: Node?, visited: set<Component>)
      returns (found: bool, visitedOut: set<Component>)
      requires Attached()
      decreases ComponentSet() - visited, 1
      ensures (found, visitedOut) == Search(current, target, visited)
    {
      if current == null || target == null {
        return false, visited;
      }
      if SameNode(current, target) && |visited| > 0 {
        return true, visited;
      }
      var conns := Connections(components, current);
      visitedOut := visited;
      var i := 0;
      while i < |conns|
        invariant 0 <= i <= |conns| && visited <= visitedOut
        invariant SearchFrom(conns, i, current, target, visited, visitedOut) == Search(current, target, visited)
      {
        assert conns[i] in components;
        ghost var before := visitedOut;
        var f;
        f, visitedOut := TryComponent(conns[i], current, target, visited, visitedOut);
        ghost var here := SearchFrom(conns, i, current, target, visited, before);
        assert here == if f then (f, visitedOut)
                       else SearchFrom(conns, i + 1, current, target, visited, visitedOut);
        if f {
          return true, visitedOut;
        }
        i := i + 1;
      }
      assert SearchFrom(conns, i, current, target, visited, visitedOut) == (false, visitedOut);
      return false, visitedOut;
    }

    /** The body of the loop in `hasClosedLoop`, over the connection `comp`, with `acc` the
        shared visited set. A component whose far terminal is `target` itself is skipped, and
        stays visited, while the visited set would have fewer than two members. */
    method TryComponent(comp: Component, current: Node, target: Node, ghost visited: set<Component>,
                        acc: set<Component>)
      returns (found: bool, accOut: set<Component>)
      requires Attached() && comp in components && visited <= acc
      decreases ComponentSet() - visited, 0
      ensures (found, accOut) == Try(comp, current, target, visited, acc)
    {
      if !Conducts(comp) || comp in acc {
        return false, acc;
      }
      accOut := acc + {comp};
      var next := if SameNode(comp.start, current) then comp.end else comp.start;
      if next == target && |accOut| < 2 {
        return false, accOut;
      }
      assert comp in ComponentSet();
      found, accOut := HasClosedLoop(next, target, accOut);
      if !found {
        accOut := accOut - {comp};
      }
    }

    /** A closed conducting trail from battery `b`'s start round to its end. */
    ghost predicate LoopThrough(b: Component, p: seq<Component>)
      reads this, components, b, p
    {
      IsTrail(b.start, p, b.end) && Distinct(p) && p != [] && forall c :: c in p ==> c in components
    }

    /** `simulate`: -1 when there is no battery, otherwise 1 when a closed loop
        joins the first battery's terminals and 0 when not. */
    method Simulate() returns (status: int)
      requires Attached()
      ensures status == -1 <==> forall c :: c in components ==> c.kind != "battery"
      ensures status == -1 || status == 0 || status == 1
      ensures status != -1 ==>
                var b := components[FirstBattery(components)];
                status == (if Search(b.start, b.end, {}).0 then 1 else 0)
      ensures status != -1 ==>
                var b := components[FirstBattery(components)];
                TwoDirect(b.start, b.end) ==> status == 1
      ensures status != -1 ==>
                var b := components[FirstBattery(components)];
                CanonicalAt(b.end) && |Conducting()| < 2 ==> status == 0
      ensures status != -1 ==>
                var b := components[FirstBattery(components)];
                forall p :: LoopThrough(b, p) && Bypasses(b.start, b.end, p) ==> status == 1
    {
      var k := FirstBattery(components);
      if k == |components| {
        return -1;
      }
      var battery := components[k];
      var closed, vo := HasClosedLoop(battery.start, battery.end, {});
      SearchKeeps(battery.start, battery.end, {});
      SearchSound(battery.start, battery.end, {});
      SearchFromEmpty(battery.start, battery.end);
      status := if closed then 1 else 0;
      if closed && CanonicalAt(battery.end) {
        SubsetCard(vo, Conducting());
      }
      forall p | LoopThrough(battery, p) && Bypasses(battery.start, battery.end, p)
        ensures closed
      {
        SearchTopComplete(battery.start, battery.end, p);
      }
    }

    /** The search from `b`'s start to its end, entered with `b` already
        visited, succeeds exactly when a trail of distinct conducting
        components of the circuit other than `b` joins the two. */
    lemma BatteryVisited(b: Component)
      requires Attached()
      ensures Search(b.start, b.end, {b}).0 <==> exists p :: OpenTrail(b.start, b.end, {b}, p)
    {
      SearchSound(b.start, b.end, {b});
      if Search(b.start, b.end, {b}).0 {
        var vo := Search(b.start, b.end, {b}).1;
        var trail :| FoundTrail(b.start, b.end, {b}, vo, trail);
        assert OpenTrail(b.start, b.end, {b}, trail);
      }
      forall p | OpenTrail(b.start, b.end, {b}, p)
        ensures Search(b.start, b.end, {b}).0
      {
        SearchComplete(b.start, b.end, {b}, p);
      }
    }

    /** `simulate` as evidently intended: the search starts with the battery
        already visited, so it never crosses the battery itself and needs no
        rule for the step that lands on the battery's end. It answers 1
        exactly when a closed trail through the rest of the circuit joins the
        first battery's terminals, whatever the order of the components. */
    method SimulateFixed() returns (status: int)
      requires Attached()
      ensures status == -1 <==> forall c :: c in components ==> c.kind != "battery"
      ensures status == -1 || status == 0 || status == 1
      ensures status != -1 ==> FirstBattery(components) < |components|
      ensures status == 0 ==>
                var b := components[FirstBattery(components)];
                forall p :: !OpenTrail(b.start, b.end, {b}, p)
      ensures status == 1 ==>
                var b := components[FirstBattery(components)];
                exists p :: OpenTrail(b.start, b.end, {b}, p)
    {
      var k := FirstBattery(components);
      if k == |components| {
        return -1;
      }
      var battery := components[k];
      var closed, vo := HasClosedLoop(battery.start, battery.end, {battery});
      BatteryVisited(battery);
      status := if closed then 1 else 0;
    }
  }
}
