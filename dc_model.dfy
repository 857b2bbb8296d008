/** What one simulation step computes, as functions over values: the node
    voltages of `solve_dc_circuit` (src/simulation/engine.py:95-144) and the
    pin voltages and currents the `update_*` methods write
    (src/simulation/engine.py:166-288), with the physical laws they obey. */
module DcModel {
  import opened Basics
  import opened Components
  import opened NodeMaps

  // ---------------------------------------------------------------------
  // Node voltages

  /** `node_voltages.get(pin_to_node.get(key, 'gnd'), 0.0)`: a pin without a
      node reads the 'gnd' entry. */
  function NodeVoltage(nv: map<NodeId, real>, ptn: map<PinRef, NodeId>, key: PinRef): (v: real)
    ensures key in ptn && ptn[key] in nv ==> v == nv[ptn[key]]
    ensures key in ptn && ptn[key] !in nv ==> v == 0.0
    ensures key !in ptn ==> v == if Gnd in nv then nv[Gnd] else 0.0
  {
    var n := if key in ptn then ptn[key] else Gnd;
    if n in nv then nv[n] else 0.0
  }

  function BatteryVoltage(part: Part): real {
    NumberOr(part.properties, "voltage", 5.0)
  }

  /** The first loop of `solve_dc_circuit`: every current node is set to 0;
      entries of nodes that no longer exist are kept. */
  function Zeroed(nv: map<NodeId, real>, nodes: map<NodeId, seq<PinRef>>): (r: map<NodeId, real>)
    ensures r.Keys == nv.Keys + nodes.Keys
    ensures forall n :: n in nodes ==> r[n] == 0.0
    ensures forall n :: n in nv && n !in nodes ==> r[n] == nv[n]
  {
    nv + map n | n in nodes :: 0.0
  }

  /** The second loop: each battery in order writes its voltage to the node
      of its `positive` pin, if that pin is connected. No entry is removed. */
  function Drive(nv: map<NodeId, real>, ptn: map<PinRef, NodeId>, ids: seq<string>, layout: map<string, Part>): (r: map<NodeId, real>)
    requires forall i :: 0 <= i < |ids| ==> ids[i] in layout
    ensures nv.Keys <= r.Keys
  {
    if ids == [] then nv
    else
      var before := Drive(nv, ptn, ids[..|ids| - 1], layout);
      var id := ids[|ids| - 1];
      if layout[id].kind == "battery" && PositiveOf(id) in ptn
      then before[ptn[PositiveOf(id)] := BatteryVoltage(layout[id])]
      else before
  }

  /** The node voltages after `solve_dc_circuit`: every node of the map and
      every earlier entry has one. The relaxation loop adds nothing:
      `update_node_voltage` is empty, so it stops after one pass. */
  function Solved(nv: map<NodeId, real>, m: NodeMap, ids: seq<string>, layout: map<string, Part>): (r: map<NodeId, real>)
    requires forall i :: 0 <= i < |ids| ==> ids[i] in layout
    ensures nv.Keys + m.nodes.Keys <= r.Keys
  {
    Drive(Zeroed(nv, m.nodes), m.pinToNode, ids, layout)
  }

  /** Reference: the last battery in `ids` whose `positive` pin is on node `n`. */
  function LastSource(ids: seq<string>, layout: map<string, Part>, ptn: map<PinRef, NodeId>, n: NodeId): (r: Option<string>)
    requires forall i :: 0 <= i < |ids| ==> ids[i] in layout
    ensures r.Some? ==> (r.value in ids && r.value in layout && layout[r.value].kind == "battery" &&
      PositiveOf(r.value) in ptn && ptn[PositiveOf(r.value)] == n)
    ensures r.None? <==> forall i :: 0 <= i < |ids| && layout[ids[i]].kind == "battery" && PositiveOf(ids[i]) in ptn ==>
      ptn[PositiveOf(ids[i])] != n
  {
    if ids == [] then None
    else
      var id := ids[|ids| - 1];
      if layout[id].kind == "battery" && PositiveOf(id) in ptn && ptn[PositiveOf(id)] == n then Some(id)
      else
        var r := LastSource(ids[..|ids| - 1], layout, ptn, n);
        assert forall i :: 0 <= i < |ids| - 1 ==> ids[..|ids| - 1][i] == ids[i];
        r
  }

  /** The value a node ends with: its last source's voltage, or `base`. */
  function SourcedOr(src: Option<string>, layout: map<string, Part>, base: real): real
    requires src.Some? ==> src.value in layout
  {
    if src.Some? then BatteryVoltage(layout[src.value]) else base
  }

  lemma {:induction false} DriveValue(nv: map<NodeId, real>, ptn: map<PinRef, NodeId>, ids: seq<string>, layout: map<string, Part>)
    requires forall i :: 0 <= i < |ids| ==> ids[i] in layout
    requires forall p :: p in ptn ==> ptn[p] in nv
    ensures Drive(nv, ptn, ids, layout).Keys == nv.Keys
    ensures forall n :: n in nv ==> Drive(nv, ptn, ids, layout)[n] == SourcedOr(LastSource(ids, layout, ptn, n), layout, nv[n])
  {
    if ids != [] {
      DriveValue(nv, ptn, ids[..|ids| - 1], layout);
    }
  }

  /** After `solve_dc_circuit`, a node holding a connected battery's
      `positive` pin has the voltage of the last such battery in component
      order, every other node has 0, and entries left over from an earlier
      step for nodes that no longer exist keep their old value. */
  lemma SolvedVoltage(nv: map<NodeId, real>, m: NodeMap, ids: seq<string>, layout: map<string, Part>)
    requires Coherent(m)
    requires forall i :: 0 <= i < |ids| ==> ids[i] in layout
    ensures Solved(nv, m, ids, layout).Keys == nv.Keys + m.nodes.Keys
    ensures forall n :: n in m.nodes ==>
      Solved(nv, m, ids, layout)[n] == SourcedOr(LastSource(ids, layout, m.pinToNode, n), layout, 0.0)
    ensures forall n :: n in nv && n !in m.nodes ==> Solved(nv, m, ids, layout)[n] == nv[n]
  {
    DriveValue(Zeroed(nv, m.nodes), m.pinToNode, ids, layout);
  }

  // ---------------------------------------------------------------------
  // Currents

  /** A Python float result, or the ZeroDivisionError a division by a zero
      resistance raises. */
  datatype Amps = Amps(value: real) | DivisionByZero

  /** Some pin of component `id` (pin names `names`) is on node `node`. */
  ghost predicate OnNode(names: seq<string>, id: string, ptn: map<PinRef, NodeId>, node: NodeId) {
    exists i :: 0 <= i < |names| && PinRef(id, names[i]) in ptn && ptn[PinRef(id, names[i])] == node
  }

  function ResistanceOr(part: Part, default: real): real {
    NumberOr(part.properties, "resistance", default)
  }

  /** `total_current += voltage / resistance`, raising on a zero resistance. */
  function AddLoad(acc: Amps, v: real, r: real): Amps {
    if acc.DivisionByZero? || r == 0.0 then DivisionByZero else Amps(acc.value + v / r)
  }

  /** The loop of `calculate_output_current` over the components in order. */
  ghost function LoadCurrent(ids: seq<string>, layout: map<string, Part>, ptn: map<PinRef, NodeId>, node: NodeId, v: real): (r: Amps)
    requires forall i :: 0 <= i < |ids| ==> ids[i] in layout
    ensures v == 0.0 && r.Amps? ==> r.value == 0.0
  {
    if ids == [] then Amps(0.0)
    else
      var acc := LoadCurrent(ids[..|ids| - 1], layout, ptn, node, v);
      var id := ids[|ids| - 1];
      if layout[id].kind == "resistor" && OnNode(layout[id].pinNames, id, ptn, node)
      then AddLoad(acc, v, ResistanceOr(layout[id], 1000.0))
      else acc
  }

  /** `calculate_output_current(component, pin)`. */
  ghost function OutputCurrent(battery: string, pin: string, v: real, ids: seq<string>,
                               layout: map<string, Part>, ptn: map<PinRef, NodeId>): (r: Amps)
    requires forall i :: 0 <= i < |ids| ==> ids[i] in layout
    ensures PinRef(battery, pin) !in ptn ==> r == Amps(0.0)
  {
    if PinRef(battery, pin) !in ptn then Amps(0.0)
    else LoadCurrent(ids, layout, ptn, ptn[PinRef(battery, pin)], v)
  }

  /** A resistor with a pin on `node`. */
  ghost predicate LoadOn(ids: seq<string>, layout: map<string, Part>, ptn: map<PinRef, NodeId>, node: NodeId, id: string)
    requires id in layout
  {
    id in ids && layout[id].kind == "resistor" && OnNode(layout[id].pinNames, id, ptn, node)
  }

  /** One more component in the loop of `calculate_output_current`. */
  lemma LoadCurrentStep(ids: seq<string>, layout: map<string, Part>, ptn: map<PinRef, NodeId>, node: NodeId, v: real, i: nat)
    requires i < |ids| && forall j :: 0 <= j < |ids| ==> ids[j] in layout
    ensures var id, acc := ids[i], LoadCurrent(ids[..i], layout, ptn, node, v);
      LoadCurrent(ids[..i + 1], layout, ptn, node, v)
      == if layout[id].kind == "resistor" && OnNode(layout[id].pinNames, id, ptn, node)
         then AddLoad(acc, v, ResistanceOr(layout[id], 1000.0)) else acc
  {
    assert ids[..i + 1][..i] == ids[..i];
  }

  /** Once the sum has raised, later components do not matter. */
  lemma {:induction false} LoadCurrentStuck(ids: seq<string>, layout: map<string, Part>, ptn: map<PinRef, NodeId>, node: NodeId, v: real, k: nat)
    requires k <= |ids| && forall i :: 0 <= i < |ids| ==> ids[i] in layout
    requires LoadCurrent(ids[..k], layout, ptn, node, v).DivisionByZero?
    ensures LoadCurrent(ids, layout, ptn, node, v).DivisionByZero?
  {
    if k == |ids| {
      assert ids[..k] == ids;
    } else {
      assert ids[..|ids| - 1][..k] == ids[..k];
      LoadCurrentStuck(ids[..|ids| - 1], layout, ptn, node, v, k);
    }
  }

  /** The sum of `t` over `ids`, in order. */
  ghost function SumOver(ids: seq<string>, t: string -> real): real {
    if ids == [] then 0.0 else SumOver(ids[..|ids| - 1], t) + t(ids[|ids| - 1])
  }

  /** A sum whose every term is `v` times another's is `v` times that sum. */
  lemma {:induction false} SumOverScales(ids: seq<string>, t: string -> real, u: string -> real, v: real)
    requires forall id :: u(id) == v * t(id)
    ensures SumOver(ids, u) == v * SumOver(ids, t)
  {
    if ids != [] {
      var pre, id := ids[..|ids| - 1], ids[|ids| - 1];
      SumOverScales(pre, t, u, v);
      assert v * (SumOver(pre, t) + t(id)) == v * SumOver(pre, t) + v * t(id);
    }
  }

  /** A resistor on `node` whose resistance is not zero. */
  ghost predicate LiveLoad(layout: map<string, Part>, ptn: map<PinRef, NodeId>, node: NodeId, id: string) {
    id in layout && layout[id].kind == "resistor" && OnNode(layout[id].pinNames, id, ptn, node)
    && ResistanceOr(layout[id], 1000.0) != 0.0
  }

  /** The conductance `id` adds on `node`. */
  ghost function Gain(layout: map<string, Part>, ptn: map<PinRef, NodeId>, node: NodeId, id: string): real {
    if LiveLoad(layout, ptn, node, id) then 1.0 / ResistanceOr(layout[id], 1000.0) else 0.0
  }

  /** The current Ohm's law gives through `id` at voltage `v`. */
  ghost function Ohm(layout: map<string, Part>, ptn: map<PinRef, NodeId>, node: NodeId, v: real, id: string): real {
    if LiveLoad(layout, ptn, node, id) then v / ResistanceOr(layout[id], 1000.0) else 0.0
  }

  /** Through each component, the current is the voltage times the
      conductance. */
  lemma OhmGains(layout: map<string, Part>, ptn: map<PinRef, NodeId>, node: NodeId, v: real)
    ensures forall id :: Ohm(layout, ptn, node, v, id) == v * Gain(layout, ptn, node, id)
  {
    forall id
      ensures Ohm(layout, ptn, node, v, id) == v * Gain(layout, ptn, node, id)
    {
      if LiveLoad(layout, ptn, node, id) {
        var r := ResistanceOr(layout[id], 1000.0);
        assert v / r == v * (1.0 / r);
      }
    }
  }

  /** Reference: the total conductance of the resistors on `node`. */
  ghost function Conductance(ids: seq<string>, layout: map<string, Part>, ptn: map<PinRef, NodeId>, node: NodeId): real {
    SumOver(ids, id => Gain(layout, ptn, node, id))
  }

  /** Some resistor on `node` among `ids` has zero resistance. */
  ghost predicate ZeroLoadIn(ids: seq<string>, layout: map<string, Part>, ptn: map<PinRef, NodeId>, node: NodeId)
    requires forall i :: 0 <= i < |ids| ==> ids[i] in layout
  {
    exists i :: 0 <= i < |ids| && LoadOn(ids, layout, ptn, node, ids[i]) && ResistanceOr(layout[ids[i]], 1000.0) == 0.0
  }

  /** Appending a component adds a zero load exactly when it is one. */
  lemma ZeroLoadSnoc(ids: seq<string>, layout: map<string, Part>, ptn: map<PinRef, NodeId>, node: NodeId)
    requires ids != [] && forall i :: 0 <= i < |ids| ==> ids[i] in layout
    ensures var pre, id := ids[..|ids| - 1], ids[|ids| - 1];
      ZeroLoadIn(ids, layout, ptn, node) <==>
        ZeroLoadIn(pre, layout, ptn, node) ||
        (layout[id].kind == "resistor" && OnNode(layout[id].pinNames, id, ptn, node) && ResistanceOr(layout[id], 1000.0) == 0.0)
  {
    var pre, id := ids[..|ids| - 1], ids[|ids| - 1];
    if ZeroLoadIn(pre, layout, ptn, node) {
      var i :| 0 <= i < |pre| && LoadOn(pre, layout, ptn, node, pre[i]) && ResistanceOr(layout[pre[i]], 1000.0) == 0.0;
      assert ids[i] == pre[i];
    }
    if ZeroLoadIn(ids, layout, ptn, node) {
      var i :| 0 <= i < |ids| && LoadOn(ids, layout, ptn, node, ids[i]) && ResistanceOr(layout[ids[i]], 1000.0) == 0.0;
      if i < |pre| {
        assert pre[i] == ids[i];
        assert LoadOn(pre, layout, ptn, node, pre[i]);
      }
    }
    assert layout[id].kind == "resistor" && OnNode(layout[id].pinNames, id, ptn, node) ==> LoadOn(ids, layout, ptn, node, ids[|ids| - 1]);
  }

  /** The load current fails exactly when some resistor on the node has zero
      resistance. */
  lemma {:induction false} LoadCurrentRaises(ids: seq<string>, layout: map<string, Part>, ptn: map<PinRef, NodeId>, node: NodeId, v: real)
    requires forall i :: 0 <= i < |ids| ==> ids[i] in layout
    ensures LoadCurrent(ids, layout, ptn, node, v).DivisionByZero? <==> ZeroLoadIn(ids, layout, ptn, node)
  {
    if ids != [] {
      LoadCurrentRaises(ids[..|ids| - 1], layout, ptn, node, v);
      ZeroLoadSnoc(ids, layout, ptn, node);
    }
  }

  /** Reference: Ohm's law summed over the resistors on `node` that have a
      non-zero resistance. */
  ghost function OhmSum(ids: seq<string>, layout: map<string, Part>, ptn: map<PinRef, NodeId>, node: NodeId, v: real): real {
    SumOver(ids, id => Ohm(layout, ptn, node, v, id))
  }

  /** When the load current does not fail it is the sum of the currents
      Ohm's law gives through each resistor on the node. */
  lemma {:induction false} LoadCurrentValue(ids: seq<string>, layout: map<string, Part>, ptn: map<PinRef, NodeId>, node: NodeId, v: real)
    requires forall i :: 0 <= i < |ids| ==> ids[i] in layout
    ensures LoadCurrent(ids, layout, ptn, node, v).Amps? ==>
      LoadCurrent(ids, layout, ptn, node, v).value == OhmSum(ids, layout, ptn, node, v)
  {
    if ids != [] {
      LoadCurrentValue(ids[..|ids| - 1], layout, ptn, node, v);
    }
  }

  /** The summed Ohm's law currents are the voltage times the total
      conductance. */
  lemma OhmSumScales(ids: seq<string>, layout: map<string, Part>, ptn: map<PinRef, NodeId>, node: NodeId, v: real)
    ensures OhmSum(ids, layout, ptn, node, v) == v * Conductance(ids, layout, ptn, node)
  {
    OhmGains(layout, ptn, node, v);
    SumOverScales(ids, id => Gain(layout, ptn, node, id), id => Ohm(layout, ptn, node, v, id), v);
  }

  /** The component at the other end of `c` as seen from `led`. */
  function OtherEnd(c: Connection, led: string): string {
    if c.toComponent == led then c.fromComponent else c.toComponent
  }

  /** The search of `calculate_led_current`: the index of the first
      connection touching the LED whose other end is a resistor. */
  function SeriesResistor(cs: seq<Connection>, led: string, layout: map<string, Part>): (r: Option<nat>)
    ensures r.Some? ==> (r.value < |cs| && cs[r.value].Touches(led) &&
      OtherEnd(cs[r.value], led) in layout && layout[OtherEnd(cs[r.value], led)].kind == "resistor")
    ensures forall j :: 0 <= j < |cs| && (r.None? || j < r.value) && cs[j].Touches(led) ==>
      !(OtherEnd(cs[j], led) in layout && layout[OtherEnd(cs[j], led)].kind == "resistor")
  {
    if cs == [] then None
    else if cs[0].Touches(led) && OtherEnd(cs[0], led) in layout && layout[OtherEnd(cs[0], led)].kind == "resistor" then Some(0)
    else match SeriesResistor(cs[1..], led, layout)
      case None => None
      case Some(i) => Some(i + 1)
  }

  /** `calculate_led_current`: through the series resistor (default 220),
      never negative; 1 mA when there is none. */
  function LedDrive(cs: seq<Connection>, led: string, layout: map<string, Part>, drop: real, vf: real): (r: Amps)
    ensures SeriesResistor(cs, led, layout).None? ==> r == Amps(0.001)
    ensures r.Amps? ==> r.value >= 0.0
  {
    match SeriesResistor(cs, led, layout)
    case None => Amps(0.001)
    case Some(i) =>
      var r := ResistanceOr(layout[OtherEnd(cs[i], led)], 220.0);
      if r == 0.0 then DivisionByZero else Amps(Max(0.0, (drop - vf) / r))
  }

  // ---------------------------------------------------------------------
  // Pin updates

  /** What the engine reads besides a component's own pins and properties. */
  datatype Env = Env(
    nv: map<NodeId, real>,
    ptn: map<PinRef, NodeId>,
    conns: seq<Connection>,
    ids: seq<string>,
    layout: map<string, Part>)
  {
    ghost predicate Valid() {
      forall i :: 0 <= i < |ids| ==> ids[i] in layout
    }
  }

  /** A component's pins after its update, and whether the update raised. */
  datatype Update = Update(pins: seq<Pin>, raised: bool)

  function SetVoltage(pins: seq<Pin>, i: nat, v: real): (r: seq<Pin>)
    requires i < |pins|
    ensures |r| == |pins| && r[i] == pins[i].(voltage := v)
    ensures forall j :: 0 <= j < |pins| && j != i ==> r[j] == pins[j]
    ensures SameNames(r, pins)
  {
    pins[i := pins[i].(voltage := v)]
  }

  function SetCurrent(pins: seq<Pin>, i: nat, c: real): (r: seq<Pin>)
    requires i < |pins|
    ensures |r| == |pins| && r[i] == pins[i].(current := c)
    ensures forall j :: 0 <= j < |pins| && j != i ==> r[j] == pins[j]
    ensures SameNames(r, pins)
  {
    pins[i := pins[i].(current := c)]
  }

  /** Pin `i` gets current `c` and pin `j` the opposite current. */
  function Opposite(pins: seq<Pin>, i: nat, j: nat, c: real): (r: seq<Pin>)
    requires i < |pins| && j < |pins| && i != j
    ensures |r| == |pins| && r[i] == pins[i].(current := c) && r[j] == pins[j].(current := -c)
    ensures forall k :: 0 <= k < |pins| && k != i && k != j ==> r[k] == pins[k]
    ensures SameNames(r, pins)
  {
    SetCurrent(SetCurrent(pins, i, c), j, -c)
  }

  /** Writing two voltages and then a pair of opposite currents touches
      only those two pins. */
  lemma PairWrite(pins: seq<Pin>, i: nat, j: nat, vi: real, vj: real, c: real)
    requires i < |pins| && j < |pins| && i != j
    ensures var r := Opposite(SetVoltage(SetVoltage(pins, i, vi), j, vj), i, j, c);
      && r[i] == pins[i].(voltage := vi, current := c) && r[j] == pins[j].(voltage := vj, current := -c)
      && (forall k :: 0 <= k < |pins| && k != i && k != j ==> r[k] == pins[k])
  {
  }

  /** The two named pins are different pins. */
  lemma DistinctPins(pins: seq<Pin>, a: string, b: string)
    requires a != b
    ensures FirstPin(pins, a).Some? && FirstPin(pins, b).Some? ==> FirstPin(pins, a).value != FirstPin(pins, b).value
  {
  }

  /** `update_battery`. The `positive` pin's voltage is written before its
      current is computed, so a raise leaves that voltage in place. */
  ghost function BatteryUpdate(pins: seq<Pin>, id: string, props: map<string, Value>, env: Env): (u: Update)
    requires env.Valid()
    ensures SameNames(u.pins, pins)
  {
    var v := NumberOr(props, "voltage", 5.0);
    var pos, neg := FirstPin(pins, "positive"), FirstPin(pins, "negative");
    if pos.Some? then
      DistinctPins(pins, "positive", "negative");
      BatteryFinish(SetVoltage(pins, pos.value, v), pos.value, neg, OutputCurrent(id, "positive", v, env.ids, env.layout, env.ptn))
    else if neg.Some? then Update(Return(pins, neg.value, 0.0), false)
    else Update(pins, false)
  }

  /** The rest of `update_battery` once the output current `out` of the
      `positive` pin `p` is known: a raise, or `p` carries it and the
      `negative` pin, if any, returns it. */
  function BatteryFinish(pins: seq<Pin>, p: nat, neg: Option<nat>, out: Amps): (u: Update)
    requires p < |pins| && (neg.Some? ==> neg.value < |pins| && neg.value != p)
    ensures SameNames(u.pins, pins)
  {
    match out
    case DivisionByZero => Update(pins, true)
    case Amps(i) =>
      var withI := SetCurrent(pins, p, i);
      if neg.Some? then Update(Return(withI, neg.value, -i), false) else Update(withI, false)
  }

  /** The `negative` pin `i` is set to 0 V and carries current `c`. */
  function Return(pins: seq<Pin>, i: nat, c: real): (r: seq<Pin>)
    requires i < |pins|
    ensures |r| == |pins| && r[i] == pins[i].(voltage := 0.0, current := c)
    ensures forall j :: 0 <= j < |pins| && j != i ==> r[j] == pins[j]
    ensures SameNames(r, pins)
  {
    SetCurrent(SetVoltage(pins, i, 0.0), i, c)
  }

  lemma DivTimes(x: real, r: real)
    requires r != 0.0
    ensures (x / r) * r == x
  {
  }

  /** `(v1 - v2) / resistance if resistance > 0 else 0.0`: Ohm's law,
      with no current through a non-positive resistance. */
  function OhmCurrent(v1: real, v2: real, r: real): (i: real)
    ensures r > 0.0 ==> i * r == v1 - v2
    ensures r <= 0.0 ==> i == 0.0
  {
    if r > 0.0 then DivTimes(v1 - v2, r); (v1 - v2) / r else 0.0
  }

  /** `update_resistor`: needs both pins; never raises. */
  function ResistorUpdate(pins: seq<Pin>, id: string, props: map<string, Value>, env: Env): (u: Update)
    ensures SameNames(u.pins, pins) && !u.raised
  {
    var r := NumberOr(props, "resistance", 1000.0);
    var p1, p2 := FirstPin(pins, "pin1"), FirstPin(pins, "pin2");
    if p1.Some? && p2.Some? then
      var v1 := NodeVoltage(env.nv, env.ptn, PinRef(id, "pin1"));
      var v2 := NodeVoltage(env.nv, env.ptn, PinRef(id, "pin2"));
      DistinctPins(pins, "pin1", "pin2");
      Update(Opposite(SetVoltage(SetVoltage(pins, p1.value, v1), p2.value, v2), p1.value, p2.value, OhmCurrent(v1, v2, r)), false)
    else Update(pins, false)
  }

  /** The current `update_led` writes to the anode when the anode is at `va`
      and the cathode at `vc`: nothing unless the drop exceeds the forward
      voltage, and then the drive of `calculate_led_current` capped at
      `max_current`. */
  function LedCurrent(va: real, vc: real, vf: real, imax: real, cs: seq<Connection>, id: string, layout: map<string, Part>): (r: Amps)
    ensures va - vc <= vf ==> r == Amps(0.0)
    ensures r.DivisionByZero? ==> va - vc > vf
    ensures r.Amps? ==> r.value <= Max(imax, 0.0) && r.value >= Min(imax, 0.0)
  {
    var drop := va - vc;
    if drop > vf then
      match LedDrive(cs, id, layout, drop, vf)
      case DivisionByZero => DivisionByZero
      case Amps(d) => Amps(Min(d, imax))
    else Amps(0.0)
  }

  /** `update_led`: needs both pins; the voltages are written before the
      current is computed. */
  function LedUpdate(pins: seq<Pin>, id: string, props: map<string, Value>, env: Env): (u: Update)
    ensures SameNames(u.pins, pins)
  {
    var vf := NumberOr(props, "forward_voltage", 2.0);
    var imax := NumberOr(props, "max_current", 0.020);
    var a, c := FirstPin(pins, "anode"), FirstPin(pins, "cathode");
    if a.Some? && c.Some? then
      var va := NodeVoltage(env.nv, env.ptn, PinRef(id, "anode"));
      var vc := NodeVoltage(env.nv, env.ptn, PinRef(id, "cathode"));
      DistinctPins(pins, "anode", "cathode");
      LedFinish(SetVoltage(SetVoltage(pins, a.value, va), c.value, vc), a.value, c.value,
        LedCurrent(va, vc, vf, imax, env.conns, id, env.layout))
    else Update(pins, false)
  }

  /** The rest of `update_led` once its current `i` is known: a raise, or
      the anode `a` carries it and the cathode `c` the opposite. */
  function LedFinish(pins: seq<Pin>, a: nat, c: nat, i: Amps): (u: Update)
    requires a < |pins| && c < |pins| && a != c
    ensures SameNames(u.pins, pins)
  {
    match i
    case DivisionByZero => Update(pins, true)
    case Amps(x) => Update(Opposite(pins, a, c, x), false)
  }

  /** `update_component`: dispatch on the type; other types are untouched. */
  ghost function ComponentUpdate(kind: string, pins: seq<Pin>, id: string, props: map<string, Value>, env: Env): (u: Update)
    requires env.Valid()
    ensures SameNames(u.pins, pins)
    ensures kind != "battery" && kind != "led" ==> !u.raised
  {
    if kind == "battery" then BatteryUpdate(pins, id, props, env)
    else if kind == "resistor" then ResistorUpdate(pins, id, props, env)
    else if kind == "led" then LedUpdate(pins, id, props, env)
    else Update(pins, false)
  }

  // ---------------------------------------------------------------------
  // The loop of `update_component_states`

  /** What updating component `k`, whose pins are `ps`, gives; its type and
      properties come from the layout. */
  ghost function UpdateOf(env: Env): (seq<Pin>, string) -> Update {
    (ps: seq<Pin>, k: string) => UpdateIn(env, ps, k)
  }

  /** The update of component `k` with pins `ps`, looked up in `env`. */
  ghost function UpdateIn(env: Env, ps: seq<Pin>, k: string): Update {
    if env.Valid() && k in env.layout
    then ComponentUpdate(env.layout[k].kind, ps, k, env.layout[k].properties, env)
    else Update(ps, false)
  }

  /** The components' pins, by id, as the loop goes, and whether it ended
      with a raise. */
  datatype Progress = Progress(pins: map<string, seq<Pin>>, raised: bool)

  /** The loop over `ids`, with `f` the update of one component: each
      component in turn is updated from its current pins until an update
      raises, which ends the loop. */
  ghost function Run(ids: seq<string>, pins: map<string, seq<Pin>>, f: (seq<Pin>, string) -> Update): (r: Progress)
    requires forall i :: 0 <= i < |ids| ==> ids[i] in pins
    ensures r.pins.Keys == pins.Keys
  {
    if ids == [] then Progress(pins, false)
    else
      var p := Run(ids[..|ids| - 1], pins, f);
      var k := ids[|ids| - 1];
      if p.raised then p
      else
        var u := f(p.pins[k], k);
        Progress(p.pins[k := u.pins], u.raised)
  }

  /** Reference: the position in `ids` of the first component whose update
      from its original pins raises, or `|ids|` when none does. */
  ghost function FirstRaise(ids: seq<string>, pins: map<string, seq<Pin>>, f: (seq<Pin>, string) -> Update): (n: nat)
    requires forall i :: 0 <= i < |ids| ==> ids[i] in pins
    ensures n <= |ids|
    ensures forall i :: 0 <= i < n ==> !f(pins[ids[i]], ids[i]).raised
    ensures n < |ids| ==> f(pins[ids[n]], ids[n]).raised
  {
    if ids == [] then 0
    else if f(pins[ids[0]], ids[0]).raised then 0
    else
      var m := FirstRaise(ids[1..], pins, f);
      assert forall i :: 0 < i <= m ==> ids[i] == ids[1..][i - 1];
      1 + m
  }

  /** One more component in the loop. */
  lemma RunSnoc(ids: seq<string>, i: nat, pins: map<string, seq<Pin>>, f: (seq<Pin>, string) -> Update)
    requires forall j :: 0 <= j < |ids| ==> ids[j] in pins
    requires i < |ids|
    ensures var p := Run(ids[..i], pins, f);
      Run(ids[..i + 1], pins, f)
      == if p.raised then p else Progress(p.pins[ids[i] := f(p.pins[ids[i]], ids[i]).pins], f(p.pins[ids[i]], ids[i]).raised)
  {
    assert ids[..i + 1][..i] == ids[..i];
  }

  /** Once an update has raised, the later components are not updated. */
  lemma {:induction false} RunStuck(ids: seq<string>, m: nat, pins: map<string, seq<Pin>>, f: (seq<Pin>, string) -> Update)
    requires forall j :: 0 <= j < |ids| ==> ids[j] in pins
    requires m <= |ids| && Run(ids[..m], pins, f).raised
    ensures Run(ids, pins, f) == Run(ids[..m], pins, f)
  {
    if m == |ids| {
      assert ids[..m] == ids;
    } else {
      assert ids[..|ids| - 1][..m] == ids[..m];
      RunStuck(ids[..|ids| - 1], m, pins, f);
    }
  }

  /** Over distinct ids, the loop gives the components up to and including
      the first one that raises (all of them when none does) the pins their
      update computes from the pins they had before the loop, and leaves the
      others alone; it raises exactly when some update does. */
  lemma {:induction false} RunFirstRaise(ids: seq<string>, pins: map<string, seq<Pin>>, f: (seq<Pin>, string) -> Update)
    requires forall j :: 0 <= j < |ids| ==> ids[j] in pins
    requires Distinct(ids)
    ensures var n, r := FirstRaise(ids, pins, f), Run(ids, pins, f);
      && (r.raised <==> n < |ids|)
      && (forall i :: 0 <= i < |ids| ==> r.pins[ids[i]] == if i <= n then f(pins[ids[i]], ids[i]).pins else pins[ids[i]])
      && (forall k :: k in pins && k !in ids ==> r.pins[k] == pins[k])
  {
    if ids != [] {
      var pre, k := ids[..|ids| - 1], ids[|ids| - 1];
      assert forall i :: 0 <= i < |pre| ==> pre[i] == ids[i];
      assert Distinct(pre);
      assert k !in pre;
      RunFirstRaise(pre, pins, f);
      var n, n' := FirstRaise(ids, pins, f), FirstRaise(pre, pins, f);
      if n' < |pre| {
        assert n == n';
      } else {
        assert n >= |pre|;
      }
    }
  }

  /** A component update raises exactly when it is a battery whose
      `positive` pin is on a node with a zero-resistance resistor, or an LED
      with both pins whose current divides by a zero series resistance. */
  lemma UpdateRaises(kind: string, pins: seq<Pin>, id: string, props: map<string, Value>, env: Env)
    requires env.Valid()
    ensures var key := PinRef(id, "positive");
      var a, c := FirstPin(pins, "anode"), FirstPin(pins, "cathode");
      ComponentUpdate(kind, pins, id, props, env).raised <==>
        (kind == "battery" && FirstPin(pins, "positive").Some? && key in env.ptn
           && ZeroLoadIn(env.ids, env.layout, env.ptn, env.ptn[key]))
        || (kind == "led" && a.Some? && c.Some?
           && LedCurrent(NodeVoltage(env.nv, env.ptn, PinRef(id, "anode")), NodeVoltage(env.nv, env.ptn, PinRef(id, "cathode")),
                NumberOr(props, "forward_voltage", 2.0), NumberOr(props, "max_current", 0.020), env.conns, id, env.layout).DivisionByZero?)
  {
    if kind == "battery" && FirstPin(pins, "positive").Some? {
      OutputCurrentLaw(id, "positive", NumberOr(props, "voltage", 5.0), env);
    }
  }

  // ---------------------------------------------------------------------
  // The laws the updates obey

  /** Both resistor pins read their nodes' voltages, pin 1 carries the Ohm's
      law current and pin 2 the opposite current; no other pin changes. */
  lemma ResistorLaw(pins: seq<Pin>, id: string, props: map<string, Value>, env: Env)
    requires FirstPin(pins, "pin1").Some? && FirstPin(pins, "pin2").Some?
    ensures var u := ResistorUpdate(pins, id, props, env);
      var i1, i2 := FirstPin(pins, "pin1").value, FirstPin(pins, "pin2").value;
      var v1, v2 := NodeVoltage(env.nv, env.ptn, PinRef(id, "pin1")), NodeVoltage(env.nv, env.ptn, PinRef(id, "pin2"));
      && u.pins[i1].voltage == v1 && u.pins[i2].voltage == v2
      && u.pins[i1].current == OhmCurrent(v1, v2, NumberOr(props, "resistance", 1000.0))
      && u.pins[i2].current == -u.pins[i1].current
      && (forall j :: 0 <= j < |pins| && j != i1 && j != i2 ==> u.pins[j] == pins[j])
  {
    DistinctPins(pins, "pin1", "pin2");
    var i1, i2 := FirstPin(pins, "pin1").value, FirstPin(pins, "pin2").value;
    var v1, v2 := NodeVoltage(env.nv, env.ptn, PinRef(id, "pin1")), NodeVoltage(env.nv, env.ptn, PinRef(id, "pin2"));
    PairWrite(pins, i1, i2, v1, v2, OhmCurrent(v1, v2, NumberOr(props, "resistance", 1000.0)));
  }

  /** The LED current is 0 unless the drop exceeds the forward voltage; when
      it conducts it never exceeds `max_current` and follows the series
      resistor, or is 1 mA without one; it raises only through a zero series
      resistance. */
  lemma LedCurrentLaw(va: real, vc: real, vf: real, imax: real, cs: seq<Connection>, id: string, layout: map<string, Part>)
    ensures var i := LedCurrent(va, vc, vf, imax, cs, id, layout);
      var drop := va - vc;
      var s := SeriesResistor(cs, id, layout);
      && (i.DivisionByZero? <==> drop > vf && s.Some? && ResistanceOr(layout[OtherEnd(cs[s.value], id)], 220.0) == 0.0)
      && (drop <= vf ==> i == Amps(0.0))
      && (drop > vf && i.Amps? ==> i.value <= imax)
      && (drop > vf && s.None? ==> i == Amps(Min(0.001, imax)))
      && (drop > vf && i.Amps? && s.Some? ==>
            i.value == Min(Max(0.0, (drop - vf) / ResistanceOr(layout[OtherEnd(cs[s.value], id)], 220.0)), imax))
  {
  }

  /** `LedUpdate` on an LED whose anode and cathode are pins `a` and `k`, in
      the order the steps happen. */
  lemma LedSteps(pins: seq<Pin>, id: string, props: map<string, Value>, env: Env, a: nat, k: nat)
    requires FirstPin(pins, "anode") == Some(a) && FirstPin(pins, "cathode") == Some(k)
    ensures a < |pins| && k < |pins| && a != k
    ensures var va := NodeVoltage(env.nv, env.ptn, PinRef(id, "anode"));
      var vc := NodeVoltage(env.nv, env.ptn, PinRef(id, "cathode"));
      LedUpdate(pins, id, props, env)
      == LedFinish(SetVoltage(SetVoltage(pins, a, va), k, vc), a, k,
           LedCurrent(va, vc, NumberOr(props, "forward_voltage", 2.0), NumberOr(props, "max_current", 0.020), env.conns, id, env.layout))
  {
    DistinctPins(pins, "anode", "cathode");
  }

  /** The LED pins read their nodes' voltages, the update raises exactly when
      the LED current does, and otherwise the anode carries the LED current
      and the cathode the opposite current. A raise leaves both currents as
      they were; only the voltage and current of the anode and the cathode
      ever change. */
  lemma LedLaw(pins: seq<Pin>, id: string, props: map<string, Value>, env: Env)
    requires FirstPin(pins, "anode").Some? && FirstPin(pins, "cathode").Some?
    ensures var u := LedUpdate(pins, id, props, env);
      var ia, ic := FirstPin(pins, "anode").value, FirstPin(pins, "cathode").value;
      var va, vc := NodeVoltage(env.nv, env.ptn, PinRef(id, "anode")), NodeVoltage(env.nv, env.ptn, PinRef(id, "cathode"));
      var i := LedCurrent(va, vc, NumberOr(props, "forward_voltage", 2.0), NumberOr(props, "max_current", 0.020), env.conns, id, env.layout);
      && |u.pins| == |pins| && ia != ic
      && u.pins[ia] == pins[ia].(voltage := va, current := u.pins[ia].current)
      && u.pins[ic] == pins[ic].(voltage := vc, current := u.pins[ic].current)
      && (u.raised <==> i.DivisionByZero?)
      && (i.Amps? ==> u.pins[ia].current == i.value && u.pins[ic].current == -i.value)
      && (u.raised ==> u.pins[ia].current == pins[ia].current && u.pins[ic].current == pins[ic].current)
      && (forall j :: 0 <= j < |pins| && j != ia && j != ic ==> u.pins[j] == pins[j])
  {
    DistinctPins(pins, "anode", "cathode");
    var ia, ic := FirstPin(pins, "anode").value, FirstPin(pins, "cathode").value;
    var va, vc := NodeVoltage(env.nv, env.ptn, PinRef(id, "anode")), NodeVoltage(env.nv, env.ptn, PinRef(id, "cathode"));
    var withV := SetVoltage(SetVoltage(pins, ia, va), ic, vc);
    assert withV[ia].voltage == va && withV[ic].voltage == vc;
  }

  /** `calculate_output_current`: an unconnected pin delivers nothing; a
      connected one raises exactly when a resistor on its node has zero
      resistance, and otherwise delivers the voltage times the total
      conductance on its node. */
  lemma OutputCurrentLaw(battery: string, pin: string, v: real, env: Env)
    requires env.Valid()
    ensures var out := OutputCurrent(battery, pin, v, env.ids, env.layout, env.ptn);
      var key := PinRef(battery, pin);
      && (key !in env.ptn ==> out == Amps(0.0))
      && (out.DivisionByZero? <==> key in env.ptn && ZeroLoadIn(env.ids, env.layout, env.ptn, env.ptn[key]))
      && (key in env.ptn && out.Amps? ==> out.value == v * Conductance(env.ids, env.layout, env.ptn, env.ptn[key]))
  {
    var key := PinRef(battery, pin);
    if key in env.ptn {
      LoadCurrentRaises(env.ids, env.layout, env.ptn, env.ptn[key], v);
      LoadCurrentValue(env.ids, env.layout, env.ptn, env.ptn[key], v);
      OhmSumScales(env.ids, env.layout, env.ptn, env.ptn[key], v);
    }
  }

  /** A battery with a `positive` pin: that pin reads the battery voltage
      whatever happens; the update raises exactly when the output current
      does, and a raise leaves its current and the `negative` pin as they
      were; otherwise it carries the output current, and the `negative` pin,
      if any, reads 0 and carries the opposite current. Without a `positive`
      pin the `negative` pin reads 0 and carries nothing. Only the voltage
      and current of these two pins ever change. */
  lemma BatteryLaw(pins: seq<Pin>, id: string, props: map<string, Value>, env: Env)
    requires env.Valid()
    ensures var u := BatteryUpdate(pins, id, props, env);
      var pos, neg := FirstPin(pins, "positive"), FirstPin(pins, "negative");
      var v := NumberOr(props, "voltage", 5.0);
      var out := OutputCurrent(id, "positive", v, env.ids, env.layout, env.ptn);
      && |u.pins| == |pins|
      && (u.raised <==> pos.Some? && out.DivisionByZero?)
      && (pos.Some? ==> u.pins[pos.value] == pins[pos.value].(voltage := v, current := u.pins[pos.value].current))
      && (pos.Some? && out.Amps? ==> u.pins[pos.value].current == out.value)
      && (pos.Some? && u.raised ==> u.pins[pos.value].current == pins[pos.value].current)
      && (neg.Some? && pos.Some? && out.Amps? ==> u.pins[neg.value] == pins[neg.value].(voltage := 0.0, current := -out.value))
      && (neg.Some? && u.raised ==> u.pins[neg.value] == pins[neg.value])
      && (neg.Some? && pos.None? ==> u.pins[neg.value] == pins[neg.value].(voltage := 0.0, current := 0.0))
      && (forall j :: 0 <= j < |pins| && (pos.None? || j != pos.value) && (neg.None? || j != neg.value) ==> u.pins[j] == pins[j])
  {
    DistinctPins(pins, "positive", "negative");
  }
}
