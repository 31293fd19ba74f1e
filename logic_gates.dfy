/** The boolean gate engine of the logic-gate workbench.

    A gate has an operation tag, ordered input slots (each holding the gate
    that feeds it, or nothing), the list of its consumers, raw input values
    for slots that no gate feeds, and a memo: `dirty` says whether the cached
    output must be recomputed. Outputs are computed lazily and on demand;
    connecting, disconnecting and setting inputs flood `dirty` downstream.

    The specification works on a snapshot of the gates' fields (`Net`), so
    that properties of the engine are stated and proved about values; the
    `Gate` class carries the same fields and its methods are proved against
    the snapshot functions. */
module LogicGates {

  datatype Option<T> = None | Some(value: T)

  /** The exceptions the engine raises. */
  datatype Error =
    | UnknownOperation(operation: string)  // `calculateOutput` on a tag it does not know
    | MissingGate(id: string)              // a circuit operation naming an id that is not registered

  datatype Result<T> = Success(value: T) | Failure(error: Error)

  /** A gate's operation. The source keeps the tag as a string; `Tag` reads
      it, and a tag the engine does not know (such as "LIGHT") is `Other`. */
  datatype Op = AND | OR | NOT | NAND | NOR | XOR | XNOR | BUFFER | Other(tag: string)

  /** The operation tags `calculateOutput` knows. */
  const Known: seq<string> := ["AND", "OR", "NOT", "NAND", "NOR", "XOR", "XNOR", "BUFFER"]

  function Tag(s: string): Op {
    if s == "AND" then AND
    else if s == "OR" then OR
    else if s == "NOT" then NOT
    else if s == "NAND" then NAND
    else if s == "NOR" then NOR
    else if s == "XOR" then XOR
    else if s == "XNOR" then XNOR
    else if s == "BUFFER" then BUFFER
    else Other(s)
  }

  function Name(op: Op): string {
    match op
    case AND => "AND"
    case OR => "OR"
    case NOT => "NOT"
    case NAND => "NAND"
    case NOR => "NOR"
    case XOR => "XOR"
    case XNOR => "XNOR"
    case BUFFER => "BUFFER"
    case Other(t) => t
  }

  /** Reading a tag loses nothing, and only unknown tags read as `Other`. */
  lemma TagName(s: string, op: Op)
    ensures Name(Tag(s)) == s
    ensures Tag(s).Other? <==> s !in Known
    ensures !(op.Other? && op.tag in Known) ==> Tag(Name(op)) == op
  {
  }

  function Max(a: nat, b: nat): nat {
    if a < b then b else a
  }

  // ---------------------------------------------------------------------------
  // The truth table

  /** The number of true inputs (`inputs.filter(val => val === true).length`). */
  function CountTrue(xs: seq<bool>): (n: nat)
    ensures n <= |xs|
  {
    if xs == [] then 0 else (if xs[0] then 1 else 0) + CountTrue(xs[1..])
  }

  /** `calculateOutput` on already collected input values. A missing first
      input reads as false (`!undefined` is true, `undefined` is falsy). */
  function Calculate(operation: Op, inputs: seq<bool>): Result<bool> {
    match operation
    case AND => Success(forall i | 0 <= i < |inputs| :: inputs[i])
    case OR => Success(exists i | 0 <= i < |inputs| :: inputs[i])
    case NOT => Success(!(|inputs| > 0 && inputs[0]))
    case NAND => Success(!(forall i | 0 <= i < |inputs| :: inputs[i]))
    case NOR => Success(!(exists i | 0 <= i < |inputs| :: inputs[i]))
    case XOR => Success(CountTrue(inputs) % 2 == 1)
    case XNOR => Success(CountTrue(inputs) % 2 == 0)
    case BUFFER => Success(|inputs| > 0 && inputs[0])
    case Other(t) => Failure(UnknownOperation(t))
  }

  /** Reference semantics: the gates as folds of the two-input connectives. */
  function Conj(xs: seq<bool>): bool {
    if xs == [] then true else xs[0] && Conj(xs[1..])
  }

  function Disj(xs: seq<bool>): bool {
    if xs == [] then false else xs[0] || Disj(xs[1..])
  }

  function Parity(xs: seq<bool>): bool {
    if xs == [] then false else xs[0] != Parity(xs[1..])
  }

  lemma {:induction false} ConjAll(xs: seq<bool>)
    ensures Conj(xs) <==> forall i | 0 <= i < |xs| :: xs[i]
  {
    if xs != [] {
      ConjAll(xs[1..]);
      assert forall i | 1 <= i < |xs| :: xs[i] == xs[1..][i - 1];
    }
  }

  lemma {:induction false} DisjAny(xs: seq<bool>)
    ensures Disj(xs) <==> exists i | 0 <= i < |xs| :: xs[i]
  {
    if xs != [] {
      DisjAny(xs[1..]);
      assert forall i | 1 <= i < |xs| :: xs[i] == xs[1..][i - 1];
    }
  }

  lemma {:induction false} ParityCount(xs: seq<bool>)
    ensures Parity(xs) <==> CountTrue(xs) % 2 == 1
  {
    if xs != [] {
      ParityCount(xs[1..]);
    }
  }

  /** The whole truth table against the folds; every other tag (such as the
      "LIGHT" gates of the workbench) is an error. */
  lemma TruthTable(s: string, xs: seq<bool>)
    ensures s == "AND" ==> Calculate(Tag(s), xs) == Success(Conj(xs))
    ensures s == "OR" ==> Calculate(Tag(s), xs) == Success(Disj(xs))
    ensures s == "NAND" ==> Calculate(Tag(s), xs) == Success(!Conj(xs))
    ensures s == "NOR" ==> Calculate(Tag(s), xs) == Success(!Disj(xs))
    ensures s == "XOR" ==> Calculate(Tag(s), xs) == Success(Parity(xs))
    ensures s == "XNOR" ==> Calculate(Tag(s), xs) == Success(!Parity(xs))
    ensures s == "NOT" ==> Calculate(Tag(s), xs) == Success(xs == [] || !xs[0])
    ensures s == "BUFFER" ==> Calculate(Tag(s), xs) == Success(xs != [] && xs[0])
    ensures s !in Known <==> Calculate(Tag(s), xs) == Failure(UnknownOperation(s))
  {
    ConjAll(xs);
    DisjAny(xs);
    ParityCount(xs);
  }

  /** The empty conjunction is true: an AND gate with no inputs computes true,
      and only the override in `Eval` turns its output to false. */
  lemma EmptyAnd()
    ensures Calculate(AND, []) == Success(true)
    ensures Calculate(XNOR, []) == Success(true) && Calculate(NOT, []) == Success(true)
  {
  }

  // ---------------------------------------------------------------------------
  // Snapshots of the gate network

  /** An entry of a gate's `outputGates`: the consumer and the slot it is fed into. */
  datatype Link = Link(gate: Gate, inputIndex: nat)

  /** The fields of one gate. An empty array hole (`inputGates[i]` never
      assigned) and an explicit `null` are both `null` here: the engine only
      tests slots for truthiness. */
  datatype GateState = GateState(
    operation: Op,
    inputGates: seq<Gate?>,
    outputGates: seq<Link>,
    inputValues: seq<bool>,
    cachedOutput: bool,
    dirty: bool)

  /** The fields of every gate of a set of gates. */
  type Net = map<Gate, GateState>

  /** Every gate a slot or a link names is itself in the snapshot. */
  predicate Closed(net: Net) {
    forall g | g in net ::
      && (forall i | 0 <= i < |net[g].inputGates| && net[g].inputGates[i] != null :: net[g].inputGates[i] in net)
      && (forall k | 0 <= k < |net[g].outputGates| :: net[g].outputGates[k].gate in net)
  }

  /** `rank` witnesses that no dirty gate depends, through dirty gates, on
      itself: the gates feeding a dirty gate rank strictly lower. This is
      what makes the recursion of `getOutput` terminate. */
  predicate Ranked(net: Net, rank: map<Gate, nat>) {
    && Closed(net)
    && net.Keys <= rank.Keys
    && forall g, i | g in net && net[g].dirty && 0 <= i < |net[g].inputGates| && net[g].inputGates[i] != null ::
         rank[net[g].inputGates[i]] < rank[g]
  }

  /** How deep a demand for the output of `g` can recurse: a clean gate answers from its cache. */
  function Depth(net: Net, rank: map<Gate, nat>, g: Gate): nat
    requires g in net && net.Keys <= rank.Keys
  {
    if net[g].dirty then rank[g] + 1 else 0
  }

  predicate SlotsIn(net: Net, slots: seq<Gate?>) {
    forall i | 0 <= i < |slots| && slots[i] != null :: slots[i] in net
  }

  /** The deepest gate among some input slots. */
  function MaxDepth(net: Net, rank: map<Gate, nat>, slots: seq<Gate?>): (d: nat)
    requires net.Keys <= rank.Keys && SlotsIn(net, slots)
    ensures forall i | 0 <= i < |slots| && slots[i] != null :: Depth(net, rank, slots[i]) <= d
  {
    if slots == [] then 0
    else
      var rest := MaxDepth(net, rank, slots[1..]);
      assert forall i | 1 <= i < |slots| :: slots[i] == slots[1..][i - 1];
      if slots[0] != null && Depth(net, rank, slots[0]) > rest then Depth(net, rank, slots[0]) else rest
  }

  /** Strictly above the depth of every gate feeding `g`. */
  function SlotBound(net: Net, rank: map<Gate, nat>, g: Gate): nat
    requires Ranked(net, rank) && g in net
  {
    1 + MaxDepth(net, rank, net[g].inputGates)
  }

  /** The depth of the gate in slot `i` of `g`, 0 for an empty slot. */
  function SlotDepth(net: Net, rank: map<Gate, nat>, g: Gate, i: nat): nat
    requires Ranked(net, rank) && g in net
  {
    if i < |net[g].inputGates| && net[g].inputGates[i] != null then Depth(net, rank, net[g].inputGates[i]) else 0
  }

  /** Every slot at most `bound` deep: then so is the deepest. */
  lemma {:induction false} MaxDepthAtMost(net: Net, rank: map<Gate, nat>, slots: seq<Gate?>, bound: nat)
    requires net.Keys <= rank.Keys && SlotsIn(net, slots)
    requires forall i | 0 <= i < |slots| && slots[i] != null :: Depth(net, rank, slots[i]) <= bound
    ensures MaxDepth(net, rank, slots) <= bound
  {
    if slots != [] {
      assert forall i | 1 <= i < |slots| :: slots[i] == slots[1..][i - 1];
      MaxDepthAtMost(net, rank, slots[1..], bound);
    }
  }

  lemma BoundBelowDepth(net: Net, rank: map<Gate, nat>, g: Gate)
    requires Ranked(net, rank) && g in net && net[g].dirty
    ensures SlotBound(net, rank, g) <= Depth(net, rank, g)
  {
    MaxDepthAtMost(net, rank, net[g].inputGates, rank[g]);
  }

  // ---------------------------------------------------------------------------
  // What `getOutput` answers

  /** A non-BUFFER gate with an empty `inputGates` array reports false,
      whatever it computed and whatever its raw input values. */
  function Override(s: GateState, v: bool): bool {
    if |s.inputGates| == 0 && s.operation != BUFFER then false else v
  }

  /** How many inputs `getAllInputValues` collects. */
  function Width(s: GateState): nat {
    Max(|s.inputGates|, |s.inputValues|)
  }

  /** The output `getOutput` reports for `g`, or the error it throws. */
  function Eval(net: Net, rank: map<Gate, nat>, g: Gate): Result<bool>
    requires Ranked(net, rank) && g in net
    decreases Depth(net, rank, g), 2
  {
    if !net[g].dirty then Success(Override(net[g], net[g].cachedOutput))
    else match Raw(net, rank, g)
      case Success(v) => Success(Override(net[g], v))
      case Failure(e) => Failure(e)
  }

  /** What `calculateOutput` computes for a dirty gate: the value cached before the override. */
  function Raw(net: Net, rank: map<Gate, nat>, g: Gate): Result<bool>
    requires Ranked(net, rank) && g in net && net[g].dirty
    decreases Depth(net, rank, g), 1
  {
    BoundBelowDepth(net, rank, g);
    match Inputs(net, rank, g, 0)
      case Success(vs) => Calculate(net[g].operation, vs)
      case Failure(e) => Failure(e)
  }

  /** The input values of `g` from slot `i` on, or the first error met, in slot order. */
  function Inputs(net: Net, rank: map<Gate, nat>, g: Gate, i: nat): Result<seq<bool>>
    requires Ranked(net, rank) && g in net && i <= Width(net[g])
    decreases SlotBound(net, rank, g), 1, Width(net[g]) - i
  {
    if i == Width(net[g]) then Success([])
    else Cons(Slot(net, rank, g, i), Inputs(net, rank, g, i + 1))
  }

  /** One value in front of the rest; the earlier error wins. */
  function Cons(r: Result<bool>, rest: Result<seq<bool>>): Result<seq<bool>> {
    match r
      case Failure(e) => Failure(e)
      case Success(v) =>
        match rest
          case Failure(e) => Failure(e)
          case Success(vs) => Success([v] + vs)
  }

  /** `getInputValue(i)`: the feeding gate's output, else the raw value, else false. */
  function Slot(net: Net, rank: map<Gate, nat>, g: Gate, i: nat): Result<bool>
    requires Ranked(net, rank) && g in net
    decreases SlotBound(net, rank, g), 0
  {
    if i < |net[g].inputGates| && net[g].inputGates[i] != null then Eval(net, rank, net[g].inputGates[i])
    else Success(i < |net[g].inputValues| && net[g].inputValues[i])
  }

  /** `vs` followed by the values of `r`, unless `r` is an error. */
  function Prepend(vs: seq<bool>, r: Result<seq<bool>>): Result<seq<bool>> {
    if r.Failure? then r else Success(vs + r.value)
  }

  // ---------------------------------------------------------------------------
  // Settling: what demanding outputs does to the network

  /** `s` is gate `g` of `a` after `getOutput` recomputed it: clean, holding its raw value. */
  predicate Cleaned(a: Net, rank: map<Gate, nat>, g: Gate, s: GateState)
    requires Ranked(a, rank) && g in a
  {
    && a[g].dirty
    && !s.dirty
    && s == a[g].(dirty := false, cachedOutput := s.cachedOutput)
    && Raw(a, rank, g) == Success(s.cachedOutput)
  }

  /** `b` is `a` with some dirty gates recomputed and nothing else changed. */
  predicate Settled(a: Net, b: Net, rank: map<Gate, nat>) {
    && Ranked(a, rank)
    && a.Keys == b.Keys
    && forall g | g in a :: a[g] == b[g] || Cleaned(a, rank, g, b[g])
  }

  /** Every gate that changed from `a` to `b` had depth below `bound` in `a`. */
  predicate Below(a: Net, b: Net, rank: map<Gate, nat>, bound: nat)
    requires a.Keys <= rank.Keys && a.Keys <= b.Keys
  {
    forall g | g in a && a[g] != b[g] :: Depth(a, rank, g) < bound
  }

  lemma SettledRanked(a: Net, b: Net, rank: map<Gate, nat>)
    requires Settled(a, b, rank)
    ensures Ranked(b, rank)
    ensures forall g | g in a :: Depth(b, rank, g) <= Depth(a, rank, g)
  {
    forall g | g in b
      ensures (forall i | 0 <= i < |b[g].inputGates| && b[g].inputGates[i] != null :: b[g].inputGates[i] in b)
      ensures (forall k | 0 <= k < |b[g].outputGates| :: b[g].outputGates[k].gate in b)
    {
      assert b[g].inputGates == a[g].inputGates && b[g].outputGates == a[g].outputGates;
    }
  }

  /** Recomputing gates changes no answer: every gate reports in `b` what it
      reported in `a`. This is why a second `getOutput` or `evaluate` with no
      mutation in between repeats the first. */
  lemma {:induction false} SettledEval(a: Net, b: Net, rank: map<Gate, nat>, g: Gate)
    requires Settled(a, b, rank) && g in a
    ensures Ranked(b, rank) && Eval(b, rank, g) == Eval(a, rank, g)
    decreases Depth(a, rank, g), 2
  {
    SettledRanked(a, b, rank);
    if a[g] != b[g] {
      assert Cleaned(a, rank, g, b[g]);
    } else if a[g].dirty {
      SettledRaw(a, b, rank, g);
    }
  }

  lemma {:induction false} SettledRaw(a: Net, b: Net, rank: map<Gate, nat>, g: Gate)
    requires Settled(a, b, rank) && g in a && a[g].dirty && b[g] == a[g]
    ensures Ranked(b, rank) && Raw(b, rank, g) == Raw(a, rank, g)
    decreases Depth(a, rank, g), 1
  {
    SettledRanked(a, b, rank);
    BoundBelowDepth(a, rank, g);
    SettledInputs(a, b, rank, g, 0);
  }

  lemma SettledInputs(a: Net, b: Net, rank: map<Gate, nat>, g: Gate, i: nat)
    requires Settled(a, b, rank) && g in a && i <= Width(a[g])
    requires a[g].inputGates == b[g].inputGates && a[g].inputValues == b[g].inputValues
    ensures Ranked(b, rank) && Inputs(b, rank, g, i) == Inputs(a, rank, g, i)
    decreases SlotBound(a, rank, g), 1, 0
  {
    SettledRanked(a, b, rank);
    forall j | i <= j < Width(a[g])
      ensures Slot(b, rank, g, j) == Slot(a, rank, g, j)
    {
      SettledSlot(a, b, rank, g, j);
    }
    SameSlotsSameInputs(a, b, rank, rank, g, i);
  }

  /** `Inputs` only depends on what the slots answer, not on the ranking. */
  lemma {:induction false} SameSlotsSameInputs(a: Net, b: Net, ra: map<Gate, nat>, rb: map<Gate, nat>, g: Gate, i: nat)
    requires Ranked(a, ra) && Ranked(b, rb) && g in a && g in b
    requires Width(a[g]) == Width(b[g]) && i <= Width(a[g])
    requires forall j | i <= j < Width(a[g]) :: Slot(b, rb, g, j) == Slot(a, ra, g, j)
    ensures Inputs(b, rb, g, i) == Inputs(a, ra, g, i)
    decreases Width(a[g]) - i
  {
    if i < Width(a[g]) {
      SameSlotsSameInputs(a, b, ra, rb, g, i + 1);
    }
  }

  lemma {:induction false} SettledSlot(a: Net, b: Net, rank: map<Gate, nat>, g: Gate, i: nat)
    requires Settled(a, b, rank) && g in a
    requires a[g].inputGates == b[g].inputGates && a[g].inputValues == b[g].inputValues
    ensures Ranked(b, rank) && Slot(b, rank, g, i) == Slot(a, rank, g, i)
    decreases SlotBound(a, rank, g), 0
  {
    SettledRanked(a, b, rank);
    if i < |a[g].inputGates| && a[g].inputGates[i] != null {
      SettledEval(a, b, rank, a[g].inputGates[i]);
    }
  }

  /** The last step of `getOutput` on a dirty gate `g`: its inputs are
      collected (settling `a` into `m` below `g`), and it caches `v`. */
  lemma CacheStep(a: Net, m: Net, n: Net, rank: map<Gate, nat>, g: Gate, v: bool)
    requires Settled(a, m, rank) && g in a && a[g].dirty
    requires Below(a, m, rank, SlotBound(a, rank, g))
    requires Raw(a, rank, g) == Success(v)
    requires n.Keys == m.Keys && n[g] == m[g].(cachedOutput := v, dirty := false)
    requires forall h | h in m && h != g :: n[h] == m[h]
    ensures Settled(a, n, rank) && Below(a, n, rank, Depth(a, rank, g) + 1)
    ensures Eval(a, rank, g) == Success(Override(n[g], n[g].cachedOutput))
  {
    BoundBelowDepth(a, rank, g);
    assert m[g] == a[g];
    assert Cleaned(a, rank, g, n[g]);
  }

  /** Demanding a slot of `g` recurses less deeply than demanding `g` did. */
  lemma SlotDeeper(a: Net, m: Net, rank: map<Gate, nat>, g: Gate, i: nat)
    requires Settled(a, m, rank) && g in a
    requires a[g].inputGates == m[g].inputGates
    ensures Ranked(m, rank) && SlotDepth(m, rank, g, i) < SlotBound(a, rank, g)
  {
    SettledRanked(a, m, rank);
  }

  /** One slot of `getAllInputValues`: the network settled from `a` to `m`
      by the earlier slots, and demanding slot `i` settled `m` into `n`. */
  lemma SlotStep(a: Net, m: Net, n: Net, rank: map<Gate, nat>, g: Gate, i: nat)
    requires Settled(a, m, rank) && g in a && Below(a, m, rank, SlotBound(a, rank, g))
    requires a[g].inputGates == m[g].inputGates && a[g].inputValues == m[g].inputValues
    requires Settled(m, n, rank) && Below(m, n, rank, SlotDepth(m, rank, g, i) + 1)
    ensures Settled(a, n, rank) && Below(a, n, rank, SlotBound(a, rank, g))
    ensures a[g].inputGates == n[g].inputGates && a[g].inputValues == n[g].inputValues
    ensures Slot(m, rank, g, i) == Slot(a, rank, g, i)
  {
    SettledRanked(a, m, rank);
    SettledSlot(a, m, rank, g, i);
    SettledTrans(a, m, n, rank);
  }

  /** The values collected so far, followed by what slot `i` answers. */
  lemma ValueStep(net: Net, rank: map<Gate, nat>, g: Gate, i: nat, values: seq<bool>, v: Result<bool>)
    requires Ranked(net, rank) && g in net && i < Width(net[g]) && v == Slot(net, rank, g, i)
    requires Inputs(net, rank, g, 0) == Prepend(values, Inputs(net, rank, g, i))
    ensures v.Failure? ==> Inputs(net, rank, g, 0) == Failure(v.error)
    ensures v.Success? ==> Inputs(net, rank, g, 0) == Prepend(values + [v.value], Inputs(net, rank, g, i + 1))
  {
    if v.Success? {
      var rest := Inputs(net, rank, g, i + 1);
      if rest.Success? {
        assert values + ([v.value] + rest.value) == values + [v.value] + rest.value;
      }
    }
  }

  /** Settling twice is settling once. */
  lemma SettledTrans(a: Net, b: Net, c: Net, rank: map<Gate, nat>)
    requires Settled(a, b, rank) && Settled(b, c, rank)
    ensures Settled(a, c, rank)
  {
    forall g | g in a && a[g] != c[g]
      ensures Cleaned(a, rank, g, c[g])
    {
      if b[g] != c[g] {
        assert Cleaned(b, rank, g, c[g]);
        assert a[g] == b[g];
        SettledRaw(a, b, rank, g);
      }
    }
  }

  /** Slot `i` of `g` is empty or fed by a clean gate. */
  predicate SlotClean(net: Net, g: Gate, i: nat)
    requires g in net
  {
    i < |net[g].inputGates| && net[g].inputGates[i] != null && net[g].inputGates[i] in net ==>
      !net[net[g].inputGates[i]].dirty
  }

  /** Every gate feeding `g` is clean. */
  predicate FeedersClean(net: Net, g: Gate)
    requires g in net
  {
    forall i | 0 <= i < |net[g].inputGates| :: SlotClean(net, g, i)
  }

  /** Every gate recomputed from `a` to `b` has clean feeders in `b`:
      `getOutput` settles the inputs of a gate before the gate. */
  predicate Tidy(a: Net, b: Net)
    requires a.Keys <= b.Keys
  {
    forall g | g in a && a[g] != b[g] :: FeedersClean(b, g)
  }

  /** Clean gates stay clean while settling, so tidiness composes. */
  lemma TidyTrans(a: Net, m: Net, n: Net, rank: map<Gate, nat>)
    requires Settled(a, m, rank) && Settled(m, n, rank) && Tidy(a, m) && Tidy(m, n)
    ensures Tidy(a, n)
  {
    forall g | g in a && a[g] != n[g]
      ensures FeedersClean(n, g)
    {
      if m[g] == n[g] {
        assert FeedersClean(m, g);
        forall i | 0 <= i < |n[g].inputGates|
          ensures SlotClean(n, g, i)
        {
          assert SlotClean(m, g, i);
        }
      }
    }
  }

  /** Caching `g` after its inputs came back clean keeps the network tidy. */
  lemma TidyCache(a: Net, m: Net, n: Net, rank: map<Gate, nat>, g: Gate, v: bool)
    requires Settled(a, m, rank) && Tidy(a, m) && g in a && a[g].dirty && a[g] == m[g] && FeedersClean(m, g)
    requires n.Keys == m.Keys && n[g] == m[g].(cachedOutput := v, dirty := false)
    requires forall h | h in m && h != g :: n[h] == m[h]
    ensures Tidy(a, n)
  {
    forall h | h in a && a[h] != n[h]
      ensures FeedersClean(n, h)
    {
      assert FeedersClean(m, h);
      forall i | 0 <= i < |n[h].inputGates|
        ensures SlotClean(n, h, i)
      {
        assert SlotClean(m, h, i);
      }
    }
  }

  /** The slots before `i` of `g` are all clean. */
  predicate CleanUpTo(net: Net, g: Gate, i: nat)
    requires g in net
  {
    forall j | 0 <= j < i :: SlotClean(net, g, j)
  }

  /** One more slot came back clean. */
  lemma CleanStep(m: Net, n: Net, rank: map<Gate, nat>, g: Gate, i: nat)
    requires Settled(m, n, rank) && g in m && CleanUpTo(m, g, i) && SlotClean(n, g, i)
    requires m[g].inputGates == n[g].inputGates
    ensures CleanUpTo(n, g, i + 1)
  {
    forall j | 0 <= j < i
      ensures SlotClean(n, g, j)
    {
      assert SlotClean(m, g, j);
    }
  }

  // ---------------------------------------------------------------------------
  // Paths along `outputGates`

  /** `y` is one of the consumers of `x`. */
  predicate Edge(net: Net, x: Gate, y: Gate)
    requires x in net
  {
    exists k | 0 <= k < |net[x].outputGates| :: net[x].outputGates[k].gate == y
  }

  /** A walk from consumer to consumer. */
  ghost predicate Path(net: Net, older p: seq<Gate>) {
    && |p| > 0
    && (forall j | 0 <= j < |p| :: p[j] in net)
    && (forall j | 0 <= j < |p| - 1 :: Edge(net, p[j], p[j + 1]))
  }

  ghost predicate Reaches(net: Net, x: Gate, y: Gate) {
    exists p :: Path(net, p) && p[0] == x && p[|p| - 1] == y
  }

  /** A walk through gates that are all clean. */
  ghost predicate CleanPath(net: Net, older p: seq<Gate>) {
    Path(net, p) && forall j | 0 <= j < |p| :: !net[p[j]].dirty
  }

  ghost predicate CleanReaches(net: Net, x: Gate, y: Gate) {
    exists p :: CleanPath(net, p) && p[0] == x && p[|p| - 1] == y
  }

  lemma ReachesSelf(net: Net, x: Gate)
    requires x in net
    ensures Reaches(net, x, x)
  {
    assert Path(net, [x]);
  }

  lemma ReachesStep(net: Net, x: Gate, y: Gate, z: Gate)
    requires x in net && Edge(net, x, y) && Reaches(net, y, z)
    ensures Reaches(net, x, z)
  {
    var p :| Path(net, p) && p[0] == y && p[|p| - 1] == z;
    assert Path(net, [x] + p);
  }

  /** Every consumer of every gate of `D` lies in `V`. */
  predicate Explored(net: Net, D: set<Gate>, V: set<Gate>)
    requires Closed(net) && D <= net.Keys
  {
    forall g, k | g in D && 0 <= k < |net[g].outputGates| :: net[g].outputGates[k].gate in V
  }

  /** `V` contains `x`, holds every consumer of its members, and misses `y`:
      then no walk leads from `x` to `y`. This is why `hasPathTo` answering
      false from an empty visited set means there is no path. */
  lemma ClosedSetBlocks(net: Net, V: set<Gate>, x: Gate, y: Gate)
    requires V <= net.Keys && x in V && y !in V
    requires forall g, k | g in V && 0 <= k < |net[g].outputGates| :: net[g].outputGates[k].gate in V
    ensures !Reaches(net, x, y)
  {
    forall p | Path(net, p) && p[0] == x
      ensures p[|p| - 1] != y
    {
      PathStaysIn(net, V, p, |p| - 1);
    }
  }

  lemma {:induction false} PathStaysIn(net: Net, V: set<Gate>, p: seq<Gate>, j: nat)
    requires V <= net.Keys && Path(net, p) && p[0] in V && j < |p|
    requires forall g, k | g in V && 0 <= k < |net[g].outputGates| :: net[g].outputGates[k].gate in V
    ensures p[j] in V
  {
    if j > 0 {
      PathStaysIn(net, V, p, j - 1);
      assert Edge(net, p[j - 1], p[j]);
    }
  }

  // ---------------------------------------------------------------------------
  // Flooding `dirty` downstream

  /** `b` is `a` with some more gates marked dirty, and nothing else changed. */
  predicate Redirtied(a: Net, b: Net) {
    && a.Keys == b.Keys
    && forall g | g in a :: b[g] == a[g].(dirty := b[g].dirty) && (a[g].dirty ==> b[g].dirty)
  }

  /** What `markDownstreamDirty` on `start` did to `a`, giving `b`: nothing if
      `start` was dirty; otherwise `start` is dirty, every gate it dirtied is
      reached from `start` through clean gates, and every gate it dirtied has
      all its consumers dirty. */
  ghost predicate Flooded(a: Net, b: Net, start: Gate)
    requires Closed(a) && Redirtied(a, b) && start in a
  {
    && (a[start].dirty ==> a == b)
    && (!a[start].dirty ==> b[start].dirty)
    && forall g | g in a && b[g].dirty && !a[g].dirty ::
         && CleanReaches(a, start, g)
         && forall k | 0 <= k < |b[g].outputGates| :: b[b[g].outputGates[k].gate].dirty
  }

  /** A flood that starts at a dirty gate changes nothing. */
  lemma DirtyFloodIdle(w: Net, b: Net, start: Gate)
    requires AfterFlood(w, b, start) && w[start].dirty
    ensures b == w
  {
  }

  /** The gates a flood dirties are exactly those reached from `start` along
      clean gates (none, if `start` was already dirty). */
  lemma FloodExact(a: Net, b: Net, start: Gate, g: Gate)
    requires Closed(a) && Redirtied(a, b) && start in a && Flooded(a, b, start) && g in a
    ensures b[g].dirty <==> a[g].dirty || CleanReaches(a, start, g)
  {
    if CleanReaches(a, start, g) && !a[g].dirty {
      var p :| CleanPath(a, p) && p[0] == start && p[|p| - 1] == g;
      FloodAlong(a, b, start, p, |p| - 1);
    }
  }

  lemma {:induction false} FloodAlong(a: Net, b: Net, start: Gate, p: seq<Gate>, j: nat)
    requires Closed(a) && Redirtied(a, b) && start in a && Flooded(a, b, start)
    requires CleanPath(a, p) && p[0] == start && j < |p|
    ensures b[p[j]].dirty
  {
    if j > 0 {
      FloodAlong(a, b, start, p, j - 1);
      assert Edge(a, p[j - 1], p[j]);
    }
  }

  /** Marking dirty only ever sets flags: it composes. */
  lemma RedirtiedTrans(a: Net, b: Net, c: Net)
    requires Redirtied(a, b) && Redirtied(b, c)
    ensures Redirtied(a, c)
  {
  }

  /** A walk through gates clean in `b`, where `b` only has more dirty flags
      than `a`, is a clean walk in `a`; and it extends backwards by a clean
      producer. */
  lemma CleanReachesBack(a: Net, b: Net, x: Gate, y: Gate, z: Gate)
    requires Redirtied(a, b) && x in a && !a[x].dirty && Edge(a, x, y) && CleanReaches(b, y, z)
    ensures CleanReaches(a, x, z)
  {
    var p :| CleanPath(b, p) && p[0] == y && p[|p| - 1] == z;
    var q := [x] + p;
    forall j | 0 <= j < |q| - 1
      ensures Edge(a, q[j], q[j + 1])
    {
      if j > 0 {
        assert Edge(b, p[j - 1], p[j]);
        assert b[p[j - 1]].outputGates == a[p[j - 1]].outputGates;
      }
    }
    assert CleanPath(a, q);
  }

  /** A flood from `s` that is under way: `s` is dirty, every gate dirtied so
      far is reached from `s` through clean gates, and every gate dirtied so
      far other than `s` has all its consumers dirty. */
  ghost predicate Flooding(a: Net, b: Net, s: Gate)
    requires Closed(a) && Redirtied(a, b)
  {
    forall g | g in a && b[g].dirty && !a[g].dirty ::
      && CleanReaches(a, s, g)
      && (g != s ==> forall k | 0 <= k < |b[g].outputGates| :: b[b[g].outputGates[k].gate].dirty)
  }

  /** The first `k` consumers of `s` are dirty in `b`. */
  predicate ConsumersDirty(a: Net, b: Net, s: Gate, k: nat)
    requires Closed(a) && Redirtied(a, b) && s in a && k <= |a[s].outputGates|
  {
    forall j | 0 <= j < k :: b[a[s].outputGates[j].gate].dirty
  }

  /** Setting `dirty` on a clean `s` starts a flood. */
  lemma FloodStart(a: Net, b: Net, s: Gate)
    requires Closed(a) && s in a && !a[s].dirty
    requires b.Keys == a.Keys && b[s] == a[s].(dirty := true)
    requires forall h | h in a && h != s :: b[h] == a[h]
    ensures Redirtied(a, b) && Flooding(a, b, s) && CleanSet(b) < CleanSet(a)
  {
    assert CleanPath(a, [s]);
    assert s in CleanSet(a) - CleanSet(b);
  }

  /** A recursive flood from the `k`-th consumer `x` of `s` keeps the flood from `s` going. */
  lemma FloodStep(a: Net, m: Net, n: Net, s: Gate, k: nat)
    requires Closed(a) && s in a && !a[s].dirty && k < |a[s].outputGates|
    requires Redirtied(a, m) && Flooding(a, m, s)
    requires Redirtied(m, n) && Closed(m) && Flooded(m, n, a[s].outputGates[k].gate)
    requires CleanSet(m) < CleanSet(a) && ConsumersDirty(a, m, s, k)
    ensures Redirtied(a, n) && Flooding(a, n, s) && ConsumersDirty(a, n, s, k + 1)
    ensures CleanSet(n) < CleanSet(a)
  {
    RedirtiedTrans(a, m, n);
    FloodReach(a, m, n, s, k);
    CleanSetShrinks(m, n);
    ConsumersExtend(a, m, n, s, k);
  }

  lemma ConsumersExtend(a: Net, m: Net, n: Net, s: Gate, k: nat)
    requires Closed(a) && s in a && k < |a[s].outputGates|
    requires Redirtied(a, m) && Redirtied(m, n) && Redirtied(a, n)
    requires ConsumersDirty(a, m, s, k) && n[a[s].outputGates[k].gate].dirty
    ensures ConsumersDirty(a, n, s, k + 1)
  {
    forall j | 0 <= j < k + 1
      ensures n[a[s].outputGates[j].gate].dirty
    {
      if j < k {
        assert m[a[s].outputGates[j].gate].dirty;
      }
    }
  }

  lemma FloodReach(a: Net, m: Net, n: Net, s: Gate, k: nat)
    requires Closed(a) && s in a && !a[s].dirty && k < |a[s].outputGates|
    requires Redirtied(a, m) && Flooding(a, m, s)
    requires Redirtied(m, n) && Closed(m) && Flooded(m, n, a[s].outputGates[k].gate)
    requires Redirtied(a, n)
    ensures Flooding(a, n, s)
  {
    var x := a[s].outputGates[k].gate;
    assert Edge(a, s, x);
    forall g | g in a && n[g].dirty && !a[g].dirty
      ensures CleanReaches(a, s, g)
    {
      if !m[g].dirty {
        CleanReachesBack(a, m, s, x, g);
      }
    }
  }

  /** Once every consumer of `s` is dirty, the flood is complete. */
  lemma FloodDone(a: Net, b: Net, s: Gate)
    requires Closed(a) && s in a && !a[s].dirty
    requires Redirtied(a, b) && Flooding(a, b, s) && b[s].dirty
    requires ConsumersDirty(a, b, s, |a[s].outputGates|)
    ensures Flooded(a, b, s)
  {
  }

  /** Redirtying keeps every wire where it is. */
  lemma RedirtiedClosed(a: Net, b: Net)
    requires Closed(a) && Redirtied(a, b)
    ensures Closed(b)
  {
  }

  /** The clean gates of a snapshot. */
  function CleanSet(net: Net): set<Gate> {
    set g | g in net && !net[g].dirty
  }

  lemma CleanSetShrinks(a: Net, b: Net)
    requires Redirtied(a, b)
    ensures CleanSet(b) <= CleanSet(a)
  {
  }

  // ---------------------------------------------------------------------------
  // Rewiring

  /** `slots[i] := g` on a JavaScript array: writing past the end leaves holes. */
  function SetSlot(slots: seq<Gate?>, i: nat, g: Gate): (r: seq<Gate?>)
    ensures |r| == Max(|slots|, i + 1) && r[i] == g
    ensures forall j | 0 <= j < |r| && j != i :: r[j] == (if j < |slots| then slots[j] else null)
  {
    if i < |slots| then slots[i := g] else slots + seq(i - |slots|, _ => null) + [g]
  }

  /** `outputGates.filter(conn => conn.gate !== g)`. */
  function RemoveLinksTo(links: seq<Link>, g: Gate): (r: seq<Link>)
    ensures forall k | 0 <= k < |r| :: r[k] in links && r[k].gate != g
    ensures forall k | 0 <= k < |links| && links[k].gate != g :: links[k] in r
    ensures |r| <= |links|
  {
    if links == [] then []
    else (if links[0].gate == g then [] else [links[0]]) + RemoveLinksTo(links[1..], g)
  }

  /** `slots.findIndex(s => s === g)`, with |slots| for "not found". */
  function FirstIndex(slots: seq<Gate?>, g: Gate): (i: nat)
    ensures i <= |slots| && (i < |slots| ==> slots[i] == g)
    ensures forall j | 0 <= j < i :: slots[j] != g
  {
    if slots == [] then 0
    else if slots[0] == g then 0
    else 1 + FirstIndex(slots[1..], g)
  }

  /** The slots with the first one holding `g` emptied. */
  function ClearFirst(slots: seq<Gate?>, g: Gate): seq<Gate?> {
    var i := FirstIndex(slots, g);
    if i < |slots| then slots[i := null] else slots
  }

  /** The slots with every one holding `g` emptied. */
  function ClearAll(slots: seq<Gate?>, g: Gate): (r: seq<Gate?>)
    ensures |r| == |slots| && forall j | 0 <= j < |r| :: r[j] != g
    ensures forall j | 0 <= j < |r| && slots[j] != g :: r[j] == slots[j]
  {
    seq(|slots|, j requires 0 <= j < |slots| => if slots[j] == g then null else slots[j])
  }

  /** `connectTo` on the snapshot, before the flood: `dst` takes `src` in slot `i`, `src` records the link. */
  function Wired(net: Net, src: Gate, dst: Gate, i: nat): Net
    requires src in net && dst in net
  {
    var n1 := net[dst := net[dst].(inputGates := SetSlot(net[dst].inputGates, i, src))];
    n1[src := n1[src].(outputGates := n1[src].outputGates + [Link(dst, i)])]
  }

  /** `disconnectFrom` on the snapshot, before the flood. */
  function Unwired(net: Net, src: Gate, dst: Gate): Net
    requires src in net && dst in net
  {
    var n1 := net[src := net[src].(outputGates := RemoveLinksTo(net[src].outputGates, dst))];
    n1[dst := n1[dst].(inputGates := ClearFirst(n1[dst].inputGates, src))]
  }

  /** The slot `connectTo` fills: the given index, or a new last slot. */
  function SlotFor(st: GateState, inputIndex: Option<nat>): nat {
    if inputIndex.Some? then inputIndex.value else |st.inputGates|
  }

  /** `b` is `w` after `markDownstreamDirty` on `start`. */
  ghost predicate AfterFlood(w: Net, b: Net, start: Gate) {
    Closed(w) && start in w && Redirtied(w, b) && Flooded(w, b, start)
  }

  /** A snapshot that differs from `a` at most at `g`, where it holds `st`, is `a[g := st]`. */
  lemma PointUpdate(a: Net, m: Net, g: Gate, st: GateState)
    requires g in a && m.Keys == a.Keys && m[g] == st
    requires forall h | h in a && h != g :: m[h] == a[h]
    ensures m == a[g := st]
  {
  }

  /** The two field writes of `connectTo`, one gate at a time, make `Wired`. */
  lemma WiredIs(a: Net, m: Net, n: Net, src: Gate, dst: Gate, i: nat)
    requires Closed(a) && src in a && dst in a
    requires m.Keys == a.Keys && m[dst] == a[dst].(inputGates := SetSlot(a[dst].inputGates, i, src))
    requires forall h | h in a && h != dst :: m[h] == a[h]
    requires n.Keys == m.Keys && n[src] == m[src].(outputGates := m[src].outputGates + [Link(dst, i)])
    requires forall h | h in m && h != src :: n[h] == m[h]
    ensures n == Wired(a, src, dst, i) && Closed(n)
  {
    PointUpdate(a, m, dst, a[dst].(inputGates := SetSlot(a[dst].inputGates, i, src)));
    PointUpdate(m, n, src, m[src].(outputGates := m[src].outputGates + [Link(dst, i)]));
    WiredClosed(a, src, dst, i);
  }

  /** The corrected `disconnectFrom` on the snapshot, before the flood. */
  function UnwiredFixed(net: Net, src: Gate, dst: Gate): Net
    requires src in net && dst in net
  {
    var n1 := net[src := net[src].(outputGates := RemoveLinksTo(net[src].outputGates, dst))];
    n1[dst := n1[dst].(inputGates := ClearAll(n1[dst].inputGates, src))]
  }

  lemma UnwiredFixedIs(a: Net, m: Net, n: Net, src: Gate, dst: Gate)
    requires Closed(a) && src in a && dst in a
    requires m.Keys == a.Keys && m[src] == a[src].(outputGates := RemoveLinksTo(a[src].outputGates, dst))
    requires forall h | h in a && h != src :: m[h] == a[h]
    requires n.Keys == m.Keys && n[dst] == m[dst].(inputGates := ClearAll(m[dst].inputGates, src))
    requires forall h | h in m && h != dst :: n[h] == m[h]
    ensures n == UnwiredFixed(a, src, dst) && Closed(n)
  {
    PointUpdate(a, m, src, a[src].(outputGates := RemoveLinksTo(a[src].outputGates, dst)));
    PointUpdate(m, n, dst, m[dst].(inputGates := ClearAll(m[dst].inputGates, src)));
    UnwiredFixedClosed(a, src, dst);
  }

  lemma UnwiredFixedClosed(net: Net, src: Gate, dst: Gate)
    requires Closed(net) && src in net && dst in net
    ensures Closed(UnwiredFixed(net, src, dst)) && UnwiredFixed(net, src, dst).Keys == net.Keys
  {
    var u := UnwiredFixed(net, src, dst);
    forall g | g in u
      ensures forall i | 0 <= i < |u[g].inputGates| && u[g].inputGates[i] != null :: u[g].inputGates[i] in u
      ensures forall k | 0 <= k < |u[g].outputGates| :: u[g].outputGates[k].gate in u
    {
      assert u[g].inputGates == net[g].inputGates || u[g].inputGates == ClearAll(net[g].inputGates, src);
      assert u[g].outputGates == net[g].outputGates || u[g].outputGates == RemoveLinksTo(net[g].outputGates, dst);
    }
  }

  lemma WiredClosed(net: Net, src: Gate, dst: Gate, i: nat)
    requires Closed(net) && src in net && dst in net
    ensures Closed(Wired(net, src, dst, i)) && Wired(net, src, dst, i).Keys == net.Keys
  {
  }

  /** The two field writes of `disconnectFrom`, one gate at a time, make `Unwired`. */
  lemma UnwiredIs(a: Net, m: Net, n: Net, src: Gate, dst: Gate)
    requires Closed(a) && src in a && dst in a
    requires m.Keys == a.Keys && m[src] == a[src].(outputGates := RemoveLinksTo(a[src].outputGates, dst))
    requires forall h | h in a && h != src :: m[h] == a[h]
    requires n.Keys == m.Keys && n[dst] == m[dst].(inputGates := ClearFirst(m[dst].inputGates, src))
    requires forall h | h in m && h != dst :: n[h] == m[h]
    ensures n == Unwired(a, src, dst) && Closed(n)
  {
    PointUpdate(a, m, src, a[src].(outputGates := RemoveLinksTo(a[src].outputGates, dst)));
    PointUpdate(m, n, dst, m[dst].(inputGates := ClearFirst(m[dst].inputGates, src)));
    UnwiredClosed(a, src, dst);
  }

  lemma UnwiredClosed(net: Net, src: Gate, dst: Gate)
    requires Closed(net) && src in net && dst in net
    ensures Closed(Unwired(net, src, dst)) && Unwired(net, src, dst).Keys == net.Keys
  {
  }

  // ---------------------------------------------------------------------------
  // Gates

  /** A gate (`LogicGate`; `InputGate` is the `Input` constructor). */
  class Gate {
    const id: string
    const operation: Op
    var inputGates: seq<Gate?>
    var outputGates: seq<Link>
    var inputValues: seq<bool>
    var cachedOutput: bool
    var dirty: bool

    /** A fresh gate has no connections and no cached output. */
    constructor (operation: string, id: string)
      ensures this.id == id && this.operation == Tag(operation)
      ensures inputGates == [] && outputGates == [] && inputValues == [] && !cachedOutput && dirty
    {
      this.id, this.operation := id, Tag(operation);
      inputGates, outputGates, inputValues := [], [], [];
      cachedOutput, dirty := false, true;
    }

    /** `InputGate`: a `BUFFER` gate holding one raw value. */
    constructor Input(value: bool, id: string)
      ensures this.id == id && operation == Tag("BUFFER")
      ensures inputGates == [] && outputGates == [] && inputValues == [value] && !cachedOutput && dirty
    {
      this.id, operation := id, BUFFER;
      inputGates, outputGates, inputValues := [], [], [];
      cachedOutput, dirty := false, true;
      new;
      SetInputs([value], {this});
    }

    /** `getOutput`: recompute a dirty gate from its inputs (demanding their
        outputs first, in slot order), cache the raw value and mark the gate
        clean; then apply the no-inputs override. The answer is the one the
        snapshot semantics gives, and the network only settles. */
    method GetOutput(ghost U: set<Gate>, ghost rank: map<Gate, nat>) returns (r: Result<bool>)
      requires this in U && Ranked(Snap(U), rank)
      modifies U`dirty, U`cachedOutput
      decreases Depth(Snap(U), rank, this), 2
      ensures Settled(old(Snap(U)), Snap(U), rank)
      ensures Below(old(Snap(U)), Snap(U), rank, Depth(old(Snap(U)), rank, this) + 1)
      ensures r == Eval(old(Snap(U)), rank, this)
      ensures r.Success? ==> !dirty
      ensures Tidy(old(Snap(U)), Snap(U))
    {
      if dirty {
        ghost var a := Snap(U);
        BoundBelowDepth(a, rank, this);
        var inputs := GetAllInputValues(U, rank);
        if inputs.Failure? {
          return Failure(inputs.error);
        }
        var v := Calculate(operation, inputs.value);
        if v.Failure? {
          return v;
        }
        ghost var m := Snap(U);
        cachedOutput, dirty := v.value, false;
        CacheStep(a, m, Snap(U), rank, this, v.value);
        TidyCache(a, m, Snap(U), rank, this, v.value);
      }
      if |inputGates| == 0 && operation != BUFFER {
        return Success(false);
      }
      return Success(cachedOutput);
    }

    /** `getAllInputValues`: one value per slot up to the longer of the two
        arrays, stopping at the first error. */
    method GetAllInputValues(ghost U: set<Gate>, ghost rank: map<Gate, nat>) returns (r: Result<seq<bool>>)
      requires this in U && Ranked(Snap(U), rank)
      modifies U`dirty, U`cachedOutput
      decreases SlotBound(Snap(U), rank, this), 1
      ensures Settled(old(Snap(U)), Snap(U), rank)
      ensures Below(old(Snap(U)), Snap(U), rank, SlotBound(old(Snap(U)), rank, this))
      ensures r == Inputs(old(Snap(U)), rank, this, 0)
      ensures Tidy(old(Snap(U)), Snap(U))
      ensures r.Success? ==> FeedersClean(Snap(U), this)
    {
      ghost var a := Snap(U);
      var values := [];
      var maxInputs := Max(|inputGates|, |inputValues|);
      var i := 0;
      ghost var all := Inputs(a, rank, this, 0);
      if all.Success? {
        assert [] + all.value == all.value;
      }
      while i < maxInputs
        invariant 0 <= i <= maxInputs == Width(a[this])
        invariant Settled(a, Snap(U), rank) && Below(a, Snap(U), rank, SlotBound(a, rank, this))
        invariant inputGates == a[this].inputGates && inputValues == a[this].inputValues
        invariant Inputs(a, rank, this, 0) == Prepend(values, Inputs(a, rank, this, i))
        invariant Tidy(a, Snap(U)) && CleanUpTo(Snap(U), this, i)
      {
        ghost var m := Snap(U);
        SlotDeeper(a, m, rank, this, i);
        var v := GetInputValue(i, U, rank);
        SlotStep(a, m, Snap(U), rank, this, i);
        TidyTrans(a, m, Snap(U), rank);
        ValueStep(a, rank, this, i, values, v);
        if v.Failure? {
          return Failure(v.error);
        }
        CleanStep(m, Snap(U), rank, this, i);
        values := values + [v.value];
        i := i + 1;
      }
      assert values + [] == values;
      return Success(values);
    }

    /** `getInputValue(index)`: the feeding gate's output, else the raw value, else false. */
    method GetInputValue(index: nat, ghost U: set<Gate>, ghost rank: map<Gate, nat>) returns (r: Result<bool>)
      requires this in U && Ranked(Snap(U), rank)
      modifies U`dirty, U`cachedOutput
      decreases SlotDepth(Snap(U), rank, this, index), 3
      ensures Settled(old(Snap(U)), Snap(U), rank)
      ensures Below(old(Snap(U)), Snap(U), rank, SlotDepth(old(Snap(U)), rank, this, index) + 1)
      ensures r == Slot(old(Snap(U)), rank, this, index)
      ensures Tidy(old(Snap(U)), Snap(U))
      ensures r.Success? ==> SlotClean(Snap(U), this, index)
    {
      if index < |inputGates| && inputGates[index] != null {
        r := inputGates[index].GetOutput(U, rank);
      } else {
        r := Success(index < |inputValues| && inputValues[index]);
      }
    }

    /** `markDownstreamDirty`: a clean gate turns dirty and floods its consumers,
        in link order; a dirty gate stops the flood. */
    method MarkDownstreamDirty(ghost U: set<Gate>)
      requires this in U && Closed(Snap(U))
      modifies U`dirty
      decreases CleanSet(Snap(U))
      ensures Redirtied(old(Snap(U)), Snap(U)) && Flooded(old(Snap(U)), Snap(U), this)
    {
      if !dirty {
        ghost var a := Snap(U);
        dirty := true;
        FloodStart(a, Snap(U), this);
        var outs := outputGates;
        var k := 0;
        while k < |outs|
          invariant 0 <= k <= |outs| && outs == a[this].outputGates
          invariant Redirtied(a, Snap(U)) && Flooding(a, Snap(U), this) && dirty
          invariant CleanSet(Snap(U)) < CleanSet(a)
          invariant ConsumersDirty(a, Snap(U), this, k)
        {
          ghost var m := Snap(U);
          RedirtiedClosed(a, m);
          outs[k].gate.MarkDownstreamDirty(U);
          FloodStep(a, m, Snap(U), this, k);
          k := k + 1;
        }
        FloodDone(a, Snap(U), this);
      }
    }

    /** `wouldCreateCycle(targetGate)`: would wiring this gate into `targetGate`
        close a loop, i.e. does a walk along consumers lead from `targetGate`
        back to this gate (or is `targetGate` this gate)? */
    method WouldCreateCycle(targetGate: Gate, ghost U: set<Gate>) returns (b: bool)
      requires this in U && targetGate in U && Closed(Snap(U))
      ensures b == Reaches(Snap(U), targetGate, this)
    {
      var visited;
      b, visited := HasPathTo(targetGate, this, {}, U);
      if !b {
        ClosedSetBlocks(Snap(U), visited, targetGate, this);
      }
    }

    /** `hasPathTo(start, target)`: depth-first search along `outputGates`,
        sharing one `visited` set across the whole search. A found path is a
        real walk; when nothing is found, `start` and everything the call
        newly visited have all their consumers visited, and `target` is
        never marked visited. */
    static method HasPathTo(start: Gate, target: Gate, visited: set<Gate>, ghost U: set<Gate>)
      returns (found: bool, visitedOut: set<Gate>)
      requires start in U && target in U && visited <= U && target !in visited && Closed(Snap(U))
      decreases U - visited
      ensures visited <= visitedOut <= U && target !in visitedOut
      ensures found ==> Reaches(Snap(U), start, target)
      ensures !found ==> start in visitedOut && Explored(Snap(U), visitedOut - visited, visitedOut)
    {
      if start == target {
        ReachesSelf(Snap(U), start);
        return true, visited;
      }
      if start in visited {
        return false, visited;
      }
      visitedOut := visited + {start};
      var outs := start.outputGates;
      var k := 0;
      while k < |outs|
        invariant 0 <= k <= |outs| && outs == Snap(U)[start].outputGates
        invariant visited + {start} <= visitedOut <= U && target !in visitedOut
        invariant Explored(Snap(U), visitedOut - visited - {start}, visitedOut)
        invariant forall j | 0 <= j < k :: outs[j].gate in visitedOut
      {
        var sub;
        found, sub := HasPathTo(outs[k].gate, target, visitedOut, U);
        if found {
          assert Edge(Snap(U), start, outs[k].gate);
          ReachesStep(Snap(U), start, outs[k].gate, target);
          return true, sub;
        }
        visitedOut := sub;
        k := k + 1;
      }
      return false, visitedOut;
    }

    /** `connectTo(gate, inputIndex)` as written: refuse (answering true) when
        the wire would close a loop; otherwise put this gate into the slot
        (by default a new last slot), record the link, and flood from this
        gate, which leaves `gate` clean if this gate was already dirty. */
    method ConnectTo(gate: Gate, inputIndex: Option<nat>, ghost U: set<Gate>) returns (refused: bool)
      requires this in U && gate in U && Closed(Snap(U))
      modifies U`dirty, this`outputGates, gate`inputGates
      ensures refused == Reaches(old(Snap(U)), gate, this)
      ensures refused ==> Snap(U) == old(Snap(U))
      ensures !refused ==> AfterFlood(Wired(old(Snap(U)), this, gate, SlotFor(old(Snap(U))[gate], inputIndex)), Snap(U), this)
    {
      var index := if inputIndex.Some? then inputIndex.value else |gate.inputGates|;
      refused := WouldCreateCycle(gate, U);
      if refused {
        return;
      }
      ghost var a := Snap(U);
      gate.inputGates := SetSlot(gate.inputGates, index, this);
      ghost var m := Snap(U);
      outputGates := outputGates + [Link(gate, index)];
      WiredIs(a, m, Snap(U), this, gate, index);
      MarkDownstreamDirty(U);
    }

    /** The corrected `connectTo`: as above, but the flood starts at `gate`,
        whose inputs are what changed, so `gate` and everything downstream of
        it through clean gates recompute on the next `getOutput`. */
    method ConnectToFixed(gate: Gate, inputIndex: Option<nat>, ghost U: set<Gate>) returns (refused: bool)
      requires this in U && gate in U && Closed(Snap(U))
      modifies U`dirty, this`outputGates, gate`inputGates
      ensures refused == Reaches(old(Snap(U)), gate, this)
      ensures refused ==> Snap(U) == old(Snap(U))
      ensures !refused ==> AfterFlood(Wired(old(Snap(U)), this, gate, SlotFor(old(Snap(U))[gate], inputIndex)), Snap(U), gate)
      ensures !refused ==> gate.dirty
    {
      var index := if inputIndex.Some? then inputIndex.value else |gate.inputGates|;
      refused := WouldCreateCycle(gate, U);
      if refused {
        return;
      }
      ghost var a := Snap(U);
      gate.inputGates := SetSlot(gate.inputGates, index, this);
      ghost var m := Snap(U);
      outputGates := outputGates + [Link(gate, index)];
      WiredIs(a, m, Snap(U), this, gate, index);
      gate.MarkDownstreamDirty(U);
    }

    /** `disconnectFrom(gate)`: drop every link to `gate`, empty the first slot
        of `gate` that holds this gate, and flood from `gate`. */
    method DisconnectFrom(gate: Gate, ghost U: set<Gate>)
      requires this in U && gate in U && Closed(Snap(U))
      modifies U`dirty, this`outputGates, gate`inputGates
      ensures AfterFlood(Unwired(old(Snap(U)), this, gate), Snap(U), gate)
      ensures gate.dirty
    {
      ghost var a := Snap(U);
      outputGates := RemoveLinksTo(outputGates, gate);
      ghost var m := Snap(U);
      var inputIndex := FirstIndex(gate.inputGates, this);
      if inputIndex < |gate.inputGates| {
        gate.inputGates := gate.inputGates[inputIndex := null];
      }
      UnwiredIs(a, m, Snap(U), this, gate);
      gate.MarkDownstreamDirty(U);
    }

    /** The corrected `disconnectFrom`: as above, but every slot of `gate`
        holding this gate is emptied, so no slot is left without its link. */
    method DisconnectFromFixed(gate: Gate, ghost U: set<Gate>)
      requires this in U && gate in U && Closed(Snap(U))
      modifies U`dirty, this`outputGates, gate`inputGates
      ensures AfterFlood(UnwiredFixed(old(Snap(U)), this, gate), Snap(U), gate)
      ensures gate.dirty
    {
      ghost var a := Snap(U);
      outputGates := RemoveLinksTo(outputGates, gate);
      ghost var m := Snap(U);
      gate.inputGates := ClearAll(gate.inputGates, this);
      UnwiredFixedIs(a, m, Snap(U), this, gate);
      gate.MarkDownstreamDirty(U);
    }

    /** `setInputs(values)`: replace the raw input values and flood from this gate. */
    method SetInputs(values: seq<bool>, ghost U: set<Gate>)
      requires this in U && Closed(Snap(U))
      modifies this`inputValues, U`dirty
      ensures AfterFlood(old(Snap(U))[this := old(Snap(U))[this].(inputValues := values)], Snap(U), this)
      ensures inputValues == values && dirty
    {
      ghost var a := Snap(U);
      inputValues := values;
      PointUpdate(a, Snap(U), this, a[this].(inputValues := values));
      MarkDownstreamDirty(U);
    }

    /** `InputGate.setValue(value)`: a single raw input. */
    method SetValue(value: bool, ghost U: set<Gate>)
      requires this in U && Closed(Snap(U))
      modifies this`inputValues, U`dirty
      ensures AfterFlood(old(Snap(U))[this := old(Snap(U))[this].(inputValues := [value])], Snap(U), this)
      ensures inputValues == [value] && dirty
    {
      SetInputs([value], U);
    }
  }

  /** The fields of the gates in `U`. */
  ghost function Snap(U: set<Gate>): Net
    reads U
  {
    map g | g in U :: GateState(g.operation, g.inputGates, g.outputGates, g.inputValues, g.cachedOutput, g.dirty)
  }
}
