/** Small circuits built through the engine's own operations, with the verdict
    `simulate` is proved to give on each. */
module CircuitScenarios {
  import opened CircuitGraph

  /** A graph holding one battery from `a` = (0, 0) to `b` = (100, 0). */
  method BatteryGraph() returns (g: CircuitGraph, a: Node, b: Node, battery: Component)
    ensures fresh(g) && fresh(battery) && g.Valid()
    ensures g.nodes == [a, b] && g.components == [battery]
    ensures a.x == 0 && a.y == 0 && b.x == 100 && b.y == 0 && a.id == "a" && b.id == "b"
    ensures battery.kind == "battery" && battery.start == a && battery.end == b
  {
    g := new CircuitGraph();
    a := new Node("a", 0, 0);
    b := new Node("b", 100, 0);
    battery := new Component("battery", "battery", a, b, false);
    assert FirstNear([], a) == 0 && FirstNear([a], b) == 1;
    assert IndexOfId([a], "b") == 1;
    g.AddComponent(battery);
  }

  /** Adds a component of type `kind` from (100, 0) back to (0, 0) to the battery graph. */
  method CloseWith(g: CircuitGraph, a: Node, b: Node, battery: Component, kind: string, on: bool)
    returns (c: Component)
    requires g.Valid() && g.nodes == [a, b] && g.components == [battery]
    requires a.x == 0 && a.y == 0 && b.x == 100 && b.y == 0
    requires battery.kind == "battery" && battery.start == a && battery.end == b
    modifies g
    ensures fresh(c) && g.Valid() && g.nodes == [a, b] && g.components == [battery, c]
    ensures battery.start == a && battery.end == b && c.start == b && c.end == a
    ensures c.kind == kind && c.isOn == on
  {
    var b2 := new Node("b2", 100, 0);
    var a2 := new Node("a2", 0, 0);
    c := new Component(kind, kind, b2, a2, on);
    assert Near(a, a2) && !Near(a, b2) && Near(b, b2);
    assert FirstNear([a, b], b2) == 1 && FirstNear([a, b], a2) == 0;
    g.AddComponent(c);
  }

  /** A battery whose end is wired straight back to its start closes a loop. */
  method BatteryAndWire() returns (status: int)
    ensures status == 1
  {
    var g, a, b, battery := BatteryGraph();
    var wire := CloseWith(g, a, b, battery, "wire", false);
    assert g.Direct(battery, a, b) && g.Direct(wire, a, b);
    status := g.Simulate();
  }

  /** A battery on its own has nothing to close the loop. */
  method LoneBattery() returns (status: int)
    ensures status == 0
  {
    var g, a, b, battery := BatteryGraph();
    assert g.Conducting() == {battery};
    status := g.Simulate();
  }

  /** A switch left open across the battery does not close the loop. */
  method OpenSwitch() returns (status: int)
    ensures status == 0
  {
    var g, a, b, battery := BatteryGraph();
    var lever := CloseWith(g, a, b, battery, "switch", false);
    assert g.Conducting() == {battery};
    status := g.Simulate();
  }

  /** The same switch closed does. */
  method ClosedSwitch() returns (status: int)
    ensures status == 1
  {
    var g, a, b, battery := BatteryGraph();
    var lever := CloseWith(g, a, b, battery, "switch", true);
    assert g.Direct(battery, a, b) && g.Direct(lever, a, b);
    status := g.Simulate();
  }

  /** Without a battery there is nothing to simulate. */
  method NoBattery() returns (status: int)
    ensures status == -1
  {
    var g := new CircuitGraph();
    var a := new Node("a", 0, 0);
    var b := new Node("b", 100, 0);
    var wire := new Component("wire", "wire", a, b, false);
    g.AddComponent(wire);
    status := g.Simulate();
  }

  /** A graph holding only a wire whose two ends both sit at `s` = (0, 0). */
  method WireGraph() returns (g: CircuitGraph, s: Node, wire: Component)
    ensures fresh(g) && fresh(wire) && g.Valid()
    ensures g.nodes == [s] && g.components == [wire]
    ensures s.x == 0 && s.y == 0 && s.id == "s"
    ensures wire.kind == "wire" && wire.start == s && wire.end == s
  {
    g := new CircuitGraph();
    s := new Node("s", 0, 0);
    var s2 := new Node("s2", 0, 0);
    wire := new Component("wire", "wire", s, s2, false);
    assert FirstNear([], s) == 0 && FirstNear([s], s2) == 0;
    g.AddComponent(wire);
  }

  /** Adds a battery from (0, 0) to `t` = (100, 0) to the wire graph. */
  method AddBattery(g: CircuitGraph, s: Node, wire: Component) returns (t: Node, battery: Component)
    requires g.Valid() && g.nodes == [s] && g.components == [wire]
    requires s.x == 0 && s.y == 0 && s.id == "s"
    requires wire.kind == "wire" && wire.start == s && wire.end == s
    modifies g
    ensures fresh(battery) && g.Valid() && g.components == [wire, battery]
    ensures wire.start == s && wire.end == s && battery.start == s && battery.end == t
    ensures battery.kind == "battery" && t.x == 100 && t.y == 0
  {
    var s3 := new Node("s3", 0, 0);
    t := new Node("t", 100, 0);
    battery := new Component("battery", "battery", s3, t, false);
    assert FirstNear([s], s3) == 0 && FirstNear([s], t) == 1;
    assert IndexOfId([s], "t") == 1;
    g.AddComponent(battery);
  }

  /** Adds a wire whose two ends both sit at (0, 0) to the battery graph. */
  method AddSelfWire(g: CircuitGraph, a: Node, b: Node, battery: Component) returns (wire: Component)
    requires g.Valid() && g.nodes == [a, b] && g.components == [battery]
    requires a.x == 0 && a.y == 0 && b.x == 100 && b.y == 0
    requires battery.kind == "battery" && battery.start == a && battery.end == b
    modifies g
    ensures fresh(wire) && g.Valid() && g.components == [battery, wire]
    ensures battery.start == a && battery.end == b && wire.start == a && wire.end == a
    ensures wire.kind == "wire"
  {
    var a2 := new Node("a2", 0, 0);
    var a3 := new Node("a3", 0, 0);
    wire := new Component("wire", "wire", a2, a3, false);
    assert FirstNear([a, b], a2) == 0 && FirstNear([a, b], a3) == 0;
    g.AddComponent(wire);
  }

  /** Crossing the wire from `s` lands back on `s`, so a trail made of the
      wire alone never gets from `s` to `t`. */
  lemma {:induction false} WireGoesNowhere(s: Node, t: Node, wire: Component, p: seq<Component>)
    requires wire.start == s && wire.end == s && !SameNode(s, t)
    requires forall i | 0 <= i < |p| :: p[i] == wire
    ensures !IsTrail(s, p, t)
  {
    if p != [] {
      assert Far(p[0], s) == s;
      WireGoesNowhere(s, t, wire, p[1..]);
    }
  }

  /** In the self-wired graph every trail from the battery's start to its end
      that stays in the circuit uses the battery itself. */
  lemma OnlyThroughBattery(g: CircuitGraph, s: Node, t: Node, wire: Component, battery: Component)
    requires g.Attached() && (g.components == [wire, battery] || g.components == [battery, wire])
    requires wire.start == s && wire.end == s && battery.start == s && battery.end == t
    requires !SameNode(s, t)
    ensures forall p :: g.LoopThrough(battery, p) ==> battery in p
    ensures !exists p :: g.OpenTrail(s, t, {battery}, p)
  {
    forall p | g.LoopThrough(battery, p) ensures battery in p {
      if battery !in p {
        forall i | 0 <= i < |p| ensures p[i] == wire {
          assert p[i] in g.components;
        }
        WireGoesNowhere(s, t, wire, p);
      }
    }
  }

  /** The wire listed first: `simulate` crosses the wire from `s` back to `s`,
      then the battery, and with two components visited takes the battery's
      end as a closed loop. It answers 1, though every trail of the circuit
      from the battery's start to its end is through the battery itself. */
  method SelfLoopFirst() returns (g: CircuitGraph, battery: Component, status: int)
    ensures g.Attached() && FirstBattery(g.components) < |g.components|
    ensures battery == g.components[FirstBattery(g.components)]
    ensures status == 1
    ensures forall p :: g.LoopThrough(battery, p) ==> battery in p
  {
    var s, wire;
    g, s, wire := WireGraph();
    var t;
    t, battery := AddBattery(g, s, wire);
    assert FirstBattery(g.components) == 1;
    var conns := Connections(g.components, s);
    assert [wire, battery][1..] == [battery];
    assert Touches(wire, s) && Touches(battery, s);
    assert Connections([battery], s) == [battery];
    assert conns == [wire, battery];
    assert |{wire} + {battery}| == 2;
    assert g.Search(t, t, {wire, battery}).0;
    assert g.Try(battery, s, t, {wire}, {wire}).0;
    assert g.SearchFrom(conns, 1, s, t, {wire}, {wire}).0;
    assert g.SearchFrom(conns, 0, s, t, {wire}, {wire}).0;
    assert g.Search(s, t, {wire}).0;
    assert g.Try(wire, s, t, {}, {}).0;
    assert g.SearchFrom(conns, 0, s, t, {}, {}).0;
    status := g.Simulate();
    OnlyThroughBattery(g, s, t, wire, battery);
  }

  /** The search behind `SelfLoopLast`, step by step. */
  lemma BatteryFirstFails(g: CircuitGraph, s: Node, t: Node, wire: Component, battery: Component)
    requires g.Attached() && g.components == [battery, wire]
    requires wire.kind == "wire" && battery.kind == "battery"
    requires wire.start == s && wire.end == s && battery.start == s && battery.end == t
    requires !SameNode(s, t)
    ensures !g.Search(s, t, {}).0
  {
    var conns := Connections(g.components, s);
    var both := {battery, wire};
    assert [battery, wire][1..] == [wire];
    assert Touches(wire, s) && Touches(battery, s);
    assert Connections([wire], s) == [wire];
    assert conns == [battery, wire];
    assert g.Try(battery, s, t, {}, {}) == (false, {battery});
    assert g.SearchFrom(conns, 2, s, t, both, both) == (false, both);
    assert g.SearchFrom(conns, 1, s, t, both, both) == (false, both);
    assert g.SearchFrom(conns, 0, s, t, both, both) == (false, both);
    assert g.Search(s, t, both) == (false, both);
    assert {battery} + {wire} == both && both - {wire} == {battery};
    assert g.Try(wire, s, t, {}, {battery}) == (false, {battery});
    assert g.SearchFrom(conns, 2, s, t, {}, {battery}) == (false, {battery});
    assert g.SearchFrom(conns, 1, s, t, {}, {battery}) == (false, {battery});
    assert g.SearchFrom(conns, 0, s, t, {}, {}) == (false, {battery});
  }

  /** The same two components with the battery listed first: the first step
      skips the battery and leaves it visited, the wire leads back to `s`, and
      `simulate` answers 0. */
  method SelfLoopLast() returns (status: int)
    ensures status == 0
  {
    var g, s, t, battery := BatteryGraph();
    var wire := AddSelfWire(g, s, t, battery);
    assert FirstBattery(g.components) == 0;
    BatteryFirstFails(g, s, t, wire, battery);
    status := g.Simulate();
  }

  /** The corrected search on the wire-first graph answers 0, as the battery
      has no trail around it. */
  method SelfLoopFixed() returns (status: int)
    ensures status == 0
  {
    var g, s, wire := WireGraph();
    var t, battery := AddBattery(g, s, wire);
    assert FirstBattery(g.components) == 1;
    status := g.SimulateFixed();
    assert battery in g.components;
    OnlyThroughBattery(g, s, t, wire, battery);
  }
}
