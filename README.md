# Circuit workbench engines in Dafny

This project models the two simulation engines of an educational circuit
workbench and proves properties of them.

**The electrical-topology engine (`CircuitGraph`).** It keeps a registry of
terminals keyed by id and a list of components (wire, bulb, switch,
resistor, battery), each between a start and an end terminal.
- `addNode` folds a new terminal into the first registered terminal lying
  strictly within the merge radius of 25, and makes the two adjacent.
  Otherwise it registers the new terminal.
- `addComponent` replaces both endpoints by their canonical terminals,
  joins them and appends the component.
- `hasClosedLoop` is a backtracking search over conducting components. It
  uses one shared visited set.
- `simulate` answers -1 when there is no battery. Otherwise it answers 1
  when a closed loop joins the first battery's terminals and 0 when none
  does.

**The boolean gate network (`LogicGate`, `InputGate`, `LogicCircuit`).**
Each gate has ordered input slots, a list of consumer links, raw input
values and a `dirty`/`cachedOutput` memo.
- `connectTo` refuses a wire that would close a loop along consumer links.
- `markDownstreamDirty` floods `dirty` and stops at gates already dirty.
- `getOutput` recomputes lazily through the truth table of
  `calculateOutput`.
- `LogicCircuit` registers gates by id, wires them, removes them and
  evaluates them all.

Both engines mutate objects in place, so terminals, components, the graph,
gates and the circuit are Dafny classes. Each method is proved against a
ghost specification function:
- `Search` for `hasClosedLoop`;
- `Eval`, `Inputs` and `Slot` for `getOutput`, `getAllInputValues` and
  `getInputValue`;
- `Wired`, `Unwired`, `UnwiredFixed` and `Flooded` for the rewiring
  operations.

The gate methods work over a value snapshot of the gates (`Snap`, a map
from gate to `GateState`). The invariants proved about that snapshot are:
- `WellWired`: links stay inside the network, every filled slot has its
  link, and the links form no loop. This yields the ranking that makes
  `getOutput` terminate.
- `Sound`: `WellWired`, plus every clean gate's cached output equals what
  recomputing everything from the raw input values gives (`Coherent`).

The circuit keeps `Intact` (`WellWired`, every link matched by the slot it
names, and every filled slot backed by a link naming it) but not `Sound`: `connectGates` calls `connectTo` as
written, which can leave a cache stale, and `CircuitStale` shows
`evaluate` then answering the stale value.

Where the system's specification and its code disagree, the model follows
the code:
- `addNode` never moves an existing terminal and never unions adjacency
  sets.
- `'LIGHT'` is an unknown operation and fails.
- `connectTo` floods from the source rather than the destination.
- `disconnectFrom` clears only the first matching slot.
- The "no inputs ⇒ false" rule tests the number of slots, not the number
  of connected gates.

The `connectTo` and `disconnectFrom` points are reported under Findings,
with the order dependence of `simulate`.

## Model

| member | source | states |
|---|---|---|
| CircuitGraph.FirstNear | src/logic/circuit_graph.js:39-53 | the scan stops at the first registered terminal within the radius; none before it is within the radius |
| CircuitGraph.IndexOfId | src/logic/circuit_graph.js:55 | the entry stored under an id is the first with that id, and none before it has it |
| CircuitGraph.Register | src/logic/circuit_graph.js:55 | `nodes.set` holds the terminal afterwards, adds at most one entry, keeps every entry with another id, and adds nothing else |
| CircuitGraph.RegisterKeepsInvariant | src/logic/circuit_graph.js:39-56 | registering a terminal that is out of range of all others keeps ids distinct and every two terminals at least 25 apart |
| CircuitGraph.AdjAfterAddGrows | src/logic/circuit_graph.js:37-49 | `addNode` only adds to adjacency sets; when merged, the new and existing terminals are adjacent both ways |
| CircuitGraph.AdjAfterJoinLinks | src/logic/circuit_graph.js:63-67 | after `addComponent` the two canonical endpoints are adjacent to each other both ways |
| CircuitGraph.Connections | src/logic/circuit_graph.js:72-77 | `getConnections` returns exactly the components with an endpoint at the terminal's position; none for a missing terminal |
| CircuitGraph.ConductsTable | src/logic/circuit_graph.js:79-84 | a switch conducts iff it is on, wire/bulb/resistor/battery always conduct, any other type never does |
| CircuitGraph.FirstBattery | src/logic/circuit_graph.js:122 | `find` selects the first component of type battery; none before it is one |
| CircuitGraph.CircuitGraph.constructor | src/logic/circuit_graph.js:2-6 | a new graph has no terminals and no components and satisfies the invariant |
| CircuitGraph.CircuitGraph.AddNode | src/logic/circuit_graph.js:34-57 | null gives null and no change; otherwise the result is the first terminal in range (registry unchanged, the two made adjacent) or the argument itself, registered; terminals stay 25 apart |
| CircuitGraph.CircuitGraph.AddComponent | src/logic/circuit_graph.js:60-70 | a missing component or endpoint changes nothing; otherwise the endpoints become their canonical terminals, which are joined, and the component is appended once at the end |
| CircuitGraph.CircuitGraph.SearchSound | src/logic/circuit_graph.js:90-118 | a successful search has found a trail of distinct, previously unvisited conducting components to the target's position |
| CircuitGraph.CircuitGraph.SearchFromEmpty | src/logic/circuit_graph.js:97-114 | from an empty visited set a failed search leaves at most one component visited, and two components running straight from start to target are always found |
| CircuitGraph.CircuitGraph.HasClosedLoop | src/logic/circuit_graph.js:90-118 | the backtracking search answers `Search` and hands back the shared visited set as `Search` leaves it; it terminates on the components not yet visited |
| CircuitGraph.CircuitGraph.TryComponent | src/logic/circuit_graph.js:98-113 | one loop pass: skip non-conducting or visited components, skip a first step landing on the target while fewer than two are visited, else recurse and drop the component again on failure |
| CircuitGraph.CircuitGraph.SearchComplete | src/logic/circuit_graph.js:90-118 | with something already visited, any trail of distinct, unvisited, conducting components from the current terminal to the target's position is found |
| CircuitGraph.CircuitGraph.TryTopFails | src/logic/circuit_graph.js:98-113 | a failed pass at the top level gives back the visited set it was handed, except that the first component leading straight to the target stays visited after being skipped |
| CircuitGraph.CircuitGraph.SearchTopComplete | src/logic/circuit_graph.js:90-118 | from nothing visited, any non-empty such trail is found unless it uses the first component leading straight to the target, the one the first step skips |
| CircuitGraph.CircuitGraph.Simulate | src/logic/circuit_graph.js:121-163 | -1 iff there is no battery, never -2; otherwise 1 exactly when the search from the first battery's start to its end, with nothing visited, succeeds; and 1 whenever a closed trail exists that avoids the first component running straight between the battery's terminals (normally the battery itself) |
| CircuitGraph.CircuitGraph.BatteryVisited | src/logic/circuit_graph.js:90-118 | the search from a battery's start to its end, entered with the battery visited, succeeds iff a trail of distinct conducting components of the circuit other than the battery joins its terminals |
| CircuitGraph.CircuitGraph.SimulateFixed | src/logic/circuit_graph.js:121-163 | -1 iff there is no battery; otherwise 1 iff a trail of distinct conducting components other than the first battery joins its terminals, whatever the order of the components |
| CircuitScenarios.BatteryAndWire | src/logic/circuit_graph.js:121-163 | a battery plus a wire between its two terminal positions simulates to 1 |
| CircuitScenarios.LoneBattery | src/logic/circuit_graph.js:121-163 | a lone battery simulates to 0 |
| CircuitScenarios.OpenSwitch | src/logic/circuit_graph.js:79-84 | an open switch across the battery does not close the loop: 0 |
| CircuitScenarios.ClosedSwitch | src/logic/circuit_graph.js:79-84 | the same switch closed closes it: 1 |
| CircuitScenarios.NoBattery | src/logic/circuit_graph.js:122-126 | a circuit without a battery simulates to -1 |
| CircuitScenarios.OnlyThroughBattery | src/logic/circuit_graph.js:90-118 | with only a wire whose two ends sit at the battery's start besides the battery, every closed trail through the battery uses the battery, and no trail avoids it |
| CircuitScenarios.SelfLoopFirst | src/logic/circuit_graph.js:97-113 | that wire listed before the battery: `simulate` answers 1, though every trail from the battery's start to its end is the battery itself |
| CircuitScenarios.SelfLoopLast | src/logic/circuit_graph.js:97-113 | the same two components with the battery listed first: `simulate` answers 0 |
| CircuitScenarios.SelfLoopFixed | src/logic/circuit_graph.js:121-163 | the corrected simulation on the wire-first circuit answers 0 |
| LogicGates.TagName | src/logic/logic_gates.js:89-107 | operation tags round-trip, and a tag is unknown exactly when it is none of the eight handled names |
| LogicGates.ConjAll | src/logic/logic_gates.js:91 | `every` is true iff all inputs are true |
| LogicGates.DisjAny | src/logic/logic_gates.js:93 | `some` is true iff some input is true |
| LogicGates.ParityCount | src/logic/logic_gates.js:101-103 | XOR is true iff the count of true inputs is odd |
| LogicGates.TruthTable | src/logic/logic_gates.js:86-108 | `calculateOutput` for each of the eight operations, and the unknown-operation error exactly for every other tag (LIGHT included) |
| LogicGates.EmptyAnd | src/logic/logic_gates.js:90-103 | AND, XNOR and NOT of no inputs compute true (which `getOutput` then overrides) |
| LogicGates.SettledEval | src/logic/logic_gates.js:111-122 | demanding outputs never changes what any gate of the network evaluates to |
| LogicGates.ClosedSetBlocks | src/logic/logic_gates.js:35-48 | a set of gates closed under links cannot be left along links |
| LogicGates.FloodExact | src/logic/logic_gates.js:124-131 | after the flood a gate is dirty iff it was dirty or a path of clean gates leads to it from the start |
| LogicGates.DirtyFloodIdle | src/logic/logic_gates.js:125 | a flood started at a dirty gate changes nothing |
| LogicGates.SetSlot | src/logic/logic_gates.js:22 | writing slot i puts the gate there, grows the slots to cover i with empty holes, and keeps every other slot |
| LogicGates.RemoveLinksTo | src/logic/logic_gates.js:54 | the filter keeps exactly the links to other gates |
| LogicGates.FirstIndex | src/logic/logic_gates.js:55 | `findIndex` gives the first slot holding the gate, or none |
| LogicGates.ClearAll | src/logic/logic_gates.js:55-58 | the corrected disconnect empties every slot holding the gate and keeps the others |
| LogicGates.Gate.constructor | src/logic/logic_gates.js:2-10 | a new gate has the given id and operation, no slots, links or values, and is dirty |
| LogicGates.Gate.Input | src/logic/logic_gates.js:144-148 | an input gate is a dirty BUFFER holding the one value given |
| LogicGates.Gate.GetOutput | src/logic/logic_gates.js:111-122 | the answer is `Eval` of the network as it was; only caches change, and only to their evaluated values; a successful answer leaves the gate clean |
| LogicGates.Gate.GetAllInputValues | src/logic/logic_gates.js:75-84 | the answer is `Inputs`: one value per slot up to max(slots, values), or the first error |
| LogicGates.Gate.GetInputValue | src/logic/logic_gates.js:68-73 | the answer is `Slot`: the feeding gate's output, or the raw value, or false |
| LogicGates.Gate.MarkDownstreamDirty | src/logic/logic_gates.js:124-131 | the flood only sets dirty flags, and sets exactly those reached along clean gates |
| LogicGates.Gate.WouldCreateCycle | src/logic/logic_gates.js:32-51 | true iff the target reaches this gate along links (the target itself included) |
| LogicGates.Gate.HasPathTo | src/logic/logic_gates.js:35-48 | a found path is real; a failed search has explored a link-closed set avoiding the target |
| LogicGates.Gate.ConnectTo | src/logic/logic_gates.js:12-30 | refused, with nothing changed, iff the target reaches this gate; otherwise the slot (default: the next one) and one link are added and the flood starts at the source |
| LogicGates.Gate.ConnectToFixed | src/logic/logic_gates.js:12-30 | as `ConnectTo`, but the flood starts at the destination, which ends dirty |
| LogicGates.Gate.DisconnectFrom | src/logic/logic_gates.js:53-60 | all links to the gate go, only its first slot holding this gate is emptied, and the flood starts at the gate |
| LogicGates.Gate.DisconnectFromFixed | src/logic/logic_gates.js:53-60 | all links to the gate go, every slot holding this gate is emptied, and the gate ends dirty |
| LogicGates.Gate.SetInputs | src/logic/logic_gates.js:62-66 | the raw values are replaced, and the gate and its downstream are flooded dirty |
| LogicGates.Gate.SetValue | src/logic/logic_gates.js:150-152 | the input gate holds the one new value and is flooded dirty |
| GateWiring.WellWiredRanked | src/logic/logic_gates.js:111-122 | a well-wired network is ranked: every gate in a slot of a dirty gate ranks below it, so evaluation terminates |
| GateWiring.RedirtiedWellWired | src/logic/logic_gates.js:124-131 | flooding dirty flags keeps a network well wired |
| GateWiring.ReachesTrans | src/logic/logic_gates.js:35-48 | reachability along links is transitive |
| GateWiring.WiredWellWired | src/logic/logic_gates.js:12-30 | a wire admitted by the cycle check keeps the network well wired |
| GateWiring.UnwiredFixedWellWired | src/logic/logic_gates.js:53-60 | the corrected disconnect keeps the network well wired |
| GateWiring.ValuesWellWired | src/logic/logic_gates.js:62-66 | replacing raw values keeps the network well wired |
| GateCache.CoherentEval | src/logic/logic_gates.js:111-122 | on a coherent network every gate's answer equals recomputing everything from raw values |
| GateCache.SoundEval | src/logic/logic_gates.js:111-122 | on a sound network `getOutput` answers the gate's fresh value |
| GateCache.SettledSound | src/logic/logic_gates.js:111-122 | demanding outputs keeps the network sound and changes no fresh value |
| GateCache.FloodSound | src/logic/logic_gates.js:124-131 | flooding from the one gate whose inputs changed restores soundness |
| GateCache.ConnectSound | src/logic/logic_gates.js:12-30 | an admitted wire flooded from the destination keeps the network sound |
| GateCache.DisconnectSound | src/logic/logic_gates.js:53-60 | the corrected disconnect keeps the network sound |
| GateCache.SetInputsSound | src/logic/logic_gates.js:62-66 | `setInputs` keeps the network sound |
| GateFindings.ConnectToStale | src/logic/logic_gates.js:28 | on a sound network, `connectTo` as written leaves the destination answering its cached true while its fresh value is false |
| GateFindings.ConnectToFixedFresh | src/logic/logic_gates.js:12-30 | the corrected connect on the same network answers the fresh false and stays sound |
| GateFindings.DisconnectLeavesSlot | src/logic/logic_gates.js:53-60 | after two connects and one `disconnectFrom` as written, a slot holds the source with no link behind it |
| GateFindings.ReconnectLoops | src/logic/logic_gates.js:17-22 | the cycle check then admits the reverse wire; the links stay loop-free but no ranking of the slots exists, so evaluation never ends |
| GateFindings.DisconnectFixedClears | src/logic/logic_gates.js:53-60 | the corrected disconnect empties both slots and the later reverse wire keeps the network sound |
| GateCircuit.LookupFinds | src/logic/logic_gates.js:192-194 | `gates.get` finds an id iff it is registered, and then its gate |
| GateCircuit.PutSpec | src/logic/logic_gates.js:178-181 | `gates.set` registers the gate under its id, replaces an old entry in place, and keeps every other entry |
| GateCircuit.DeleteSpec | src/logic/logic_gates.js:209 | `gates.delete` forgets exactly that id and keeps every other entry in order |
| GateCircuit.CollectKeys | src/logic/logic_gates.js:213-219 | a successful evaluation has exactly one entry per registered id |
| GateCircuit.CollectValues | src/logic/logic_gates.js:213-219 | each entry of a successful evaluation is that gate's own output |
| GateCircuit.CollectError | src/logic/logic_gates.js:213-219 | a failed evaluation throws the error of the first gate that fails |
| GateCircuit.WiredMatched | src/logic/logic_gates.js:22-26 | a wire into the next slot keeps every link matched by its slot and every filled slot backed by its link |
| GateCircuit.AddFreshIntact | src/logic/logic_gates.js:178-181 | registering a gate straight from its constructor keeps the circuit's network intact |
| GateCircuit.AddFreshSound | src/logic/logic_gates.js:178-181 | registering a new, unwired, dirty gate keeps a sound network sound |
| GateCircuit.WiredRanked | src/logic/logic_gates.js:111-122 | a network whose links form no loop is ranked for `getOutput`, so `evaluate` terminates on it |
| GateCircuit.EvaluatedFresh | src/logic/logic_gates.js:213-219 | on a sound network `evaluate` answers every gate's fresh output, what recomputing everything from the raw values gives |
| GateCircuit.DetachedIsolated | src/logic/logic_gates.js:196-211 | after `removeGate` nothing in an intact circuit refers to the removed gate: no slot holds it, no link leads to it, and it has no wire |
| GateCircuit.DetachedKeeps | src/logic/logic_gates.js:196-211 | a gate that neither feeds nor is fed by the removed gate is left exactly as it was |
| GateCircuit.DetachedIntact | src/logic/logic_gates.js:196-211 | removing a gate from an intact network leaves it intact |
| GateCircuit.UnfedStep | src/logic/logic_gates.js:199-203 | one pass of the first loop: an empty slot changes nothing, and a filled one is the as-written `disconnectFrom` of its gate from the removed gate |
| GateCircuit.UnfedDone | src/logic/logic_gates.js:199-203 | on a network whose links are matched by slots, once every gate in a slot of the removed gate has let go, the removed gate's slots are empty and no gate keeps a link to it; nothing else differs |
| GateCircuit.CutStep | src/logic/logic_gates.js:205-207 | one pass of the second loop: the as-written `disconnectFrom` of the removed gate from the link's consumer, with that consumer marked dirty |
| GateCircuit.SlotsBound | src/logic/logic_gates.js:205-207 | when every filled slot is backed by its own link, a consumer holds the removed gate in no more slots than it has links from it, so one first-slot clearing per link empties them all |
| GateCircuit.CutDone | src/logic/logic_gates.js:205-207 | once the removed gate has let go of every consumer it had, one as-written `disconnectFrom` per link, the network is `Detached` |
| GateCircuit.LogicCircuit.constructor | src/logic/logic_gates.js:174-176 | a new circuit has no gates and is intact |
| GateCircuit.LogicCircuit.AddGate | src/logic/logic_gates.js:178-181 | the gate is registered under its id, returned, and the circuit stays intact |
| GateCircuit.LogicCircuit.GetGate | src/logic/logic_gates.js:192-194 | the answer is the gate under the id, present iff the id is registered |
| GateCircuit.LogicCircuit.ConnectGates | src/logic/logic_gates.js:184-190 | a missing source, then a missing destination, throws and changes nothing; otherwise true iff the destination does not reach the source; then the wire fills a new last slot of the destination, one link is added and the flood starts at the source, as `connectTo` does; false changes nothing; the circuit stays intact |
| GateCircuit.LogicCircuit.RemoveGate | src/logic/logic_gates.js:196-211 | an unknown id changes nothing; otherwise only that id is deleted and the network is `Detached` up to dirty flags turning on: the gate has no wire, every gate it fed has emptied the slots holding it and is dirty, no link leads to it, and every other field of every gate is unchanged |
| GateCircuit.LogicCircuit.Detach | src/logic/logic_gates.js:198-208 | the two loops together leave the network `Detached` up to dirty flags turning on, and the gate isolated |
| GateCircuit.LogicCircuit.DetachInputs | src/logic/logic_gates.js:199-203 | every gate in a slot of the removed gate drops all its links to it and the removed gate's slots end empty; every other field of every gate is unchanged and dirty flags only turn on (`Unlinked`) |
| GateCircuit.LogicCircuit.DetachOutputs | src/logic/logic_gates.js:205-207 | the removed gate drops every link it had when the loop began; each of those consumers clears the first slot holding it once per link and ends dirty; every other field is unchanged and dirty flags only turn on |
| GateCircuit.LogicCircuit.DetachInput | src/logic/logic_gates.js:200-202 | one pass of the first loop, by the as-written `disconnectFrom`, takes the network one step further along `Unfed` |
| GateCircuit.LogicCircuit.DetachOutput | src/logic/logic_gates.js:206 | one pass of the second loop, by the as-written `disconnectFrom`, takes the network one step further along `Cut` |
| GateCircuit.LogicCircuit.Forget | src/logic/logic_gates.js:209 | `gates.delete` drops that id's entry and keeps every other in order |
| GateCircuit.LogicCircuit.Evaluate | src/logic/logic_gates.js:213-219 | the result is `Evaluated`: each registered gate's `getOutput` on the network as `evaluate` found it (a clean gate answers its cache, stale or not), under its id, in registry order, or the first error; caches only settle, a sound network stays sound, and on success every registered gate is clean |
| CircuitStale.FirstAnswer | src/logic/logic_gates.js:111-122 | a lone AND gate computes true (the AND of nothing) and `evaluate` reports it as false |
| CircuitStale.SecondAnswer | src/logic/logic_gates.js:28 | after `connectGates("i", "a")` the flood stops at the dirty "i": "a" answers its cached true while its fresh value is false |
| CircuitStale.StaleEvaluate | src/logic/logic_gates.js:178-219 | on a new circuit, `addGate(AND "a")`, `evaluate()`, `addGate(InputGate(false, "i"))`, `connectGates("i", "a")`, `evaluate()` answers {a: false} and then {a: true, i: false} |
| GateDemo.Demo | src/logic/logic_gates.js:222-237 | the six demo wirings are each admitted and the seventh (and2→and1) is refused; the outputs are input1 true, input2 false, not1 true, and1 true, and2 true, not2 false |
| GateDemo.Outputs | src/logic/logic_gates.js:248 | the evaluated outputs of the finished demo circuit |

## Left out

- The Phaser scenes, the backend service, the component constructor files, every `console.log`, the bulb logging and `turnOff` probing in `simulate`, and `getInfo` (a logging aid) are not modelled. `node.js` is not part of this model: a terminal is a class with a constant id and integer position, and its adjacency set is kept by the graph.
- Random gate ids are not modelled: ids are passed in.
- `Math.hypot(dx, dy) < 25` is modelled as `dx*dx + dy*dy < 625` over integer, grid-snapped coordinates. There is no floating point.
- Unknown component types are kept as strings, so the misspelled `'switche'` filter in `simulate` is representable. Its `return -2` sits inside a `forEach` callback and never leaves `simulate`, so the model has no -2 path.
- `next.type === 'switch'` in `hasClosedLoop` tests a terminal, which has no type, so it never holds and is not modelled. `if (!next) continue` cannot fire, because every registered component has both endpoints.
- CircuitGraph.Connections: the contract states which components are returned, not that they come in list order (the body is an order-keeping filter).
- CircuitGraph.CircuitGraph.Simulate: completeness is proved for closed trails that avoid the first component running straight from the battery's start to its end (normally the battery itself). The search's first step skips that component and leaves it visited, so a loop that needs it is not promised. Nor is the converse: a 1 need not come from a closed trail avoiding the battery, and the answer depends on the order of the components (see Findings).
- CircuitGraph.CircuitGraph.AddNode: terminals never move after registration (their positions are constants), and "terminals stay 25 apart" holds only under that assumption. The workbench scene that drives the engine is not part of this model; it overwrites the position of registered terminals and calls `addNode` again, which can leave two terminals closer than 25 and moves every component sharing the terminal. CircuitGraph.CircuitGraph.Simulate and `hasClosedLoop` therefore require only that every component has both endpoints (`Attached`), not the spacing.
- LogicGates.Gate.GetOutput: requires a ranking of the slots of every dirty gate of the set of gates it may touch, and that set must be closed under links as well as slots. A gate whose links lead into a loop of slots is therefore outside the contract, although the source's `getOutput` never follows links and answers for it. On a network with a loop of slots below the gate, the source recurses until the stack overflows, which the model does not represent; `GateFindings.ReconnectLoops` shows such a network arising.
- LogicGates.Gate.GetOutput: JavaScript `undefined` (a BUFFER with no inputs) and the initial `null` cache are modelled as false. Every consumer treats them as false.
- LogicGates.Gate.ConnectTo: the slot index is a natural number. Negative or non-integer indices are not modelled, and holes left by a far index read as empty slots.
- GateCircuit.LogicCircuit.AddGate: requires that the gate's wiring keep the circuit's network intact, as a gate straight from its constructor does. The source also accepts gates wired into other circuits.
- GateCircuit.LogicCircuit.RemoveGate: which gates its floods turn dirty is stated only as "flags only turn on, and every former consumer ends dirty", not as the exact set reached.
- GateCircuit.LogicCircuit.Detach: the same for its floods.
- GateCircuit.LogicCircuit.DetachInputs: the same; its floods start at the removed gate.
- GateCircuit.LogicCircuit.DetachOutputs: the same; its floods start at each former consumer.
- GateCircuit.LogicCircuit.DetachInput: the same for its one flood.
- GateCircuit.LogicCircuit.DetachOutput: the same for its one flood.
- Concurrency is not modelled: both engines are single-threaded and synchronous.

## Findings

| source | as written | input that shows it | evidently intended | confidence | as-written member | corrected member |
|---|---|---|---|---|---|---|
| src/logic/circuit_graph.js:97-105 | `hasClosedLoop` is entered with nothing visited and keeps the battery from closing the loop on its own only by skipping a first step that lands on the target | a wire whose two ends both sit at the battery's start, listed before the battery: the search crosses the wire back to the start, then the battery with two components visited, and answers 1, though every trail between the battery's terminals is the battery itself; listed after the battery, the same circuit answers 0 | search from the battery's start with the battery already visited, so 1 means a closed trail through the rest of the circuit | not executed | CircuitScenarios.SelfLoopFirst | CircuitGraph.CircuitGraph.SimulateFixed |
| src/logic/logic_gates.js:28 | `connectTo` floods dirty from the source gate, whose inputs did not change | an AND gate with no inputs, already evaluated (cached true); a new input gate holding false (dirty) is connected to it: the flood stops at the dirty source and the AND keeps answering true, while its fresh value is false; `CircuitStale.StaleEvaluate` runs the same through the circuit, which keeps `connectTo` as written | flood from the destination, whose inputs changed | not executed | GateFindings.ConnectToStale | GateFindings.ConnectToFixedFresh |
| src/logic/logic_gates.js:54-58 | `disconnectFrom` drops every link to the destination but empties only the first slot holding the source | P connected twice to an AND gate D, then `P.disconnectFrom(D)`: slot 1 still holds P with no link; `D.connectTo(P)` then passes the cycle check, and P and D sit in each other's slots | empty every slot holding the source | not executed | GateFindings.ReconnectLoops | GateFindings.DisconnectFixedClears |
