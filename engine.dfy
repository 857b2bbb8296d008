/** `SimulationEngine` (src/simulation/engine.py): the object that rebuilds
    the node map, solves the node voltages and writes every component's pin
    voltages and currents, one time step at a time. Each method is proved
    against the value-level definitions of the modules `NodeMaps` and
    `DcModel`. */
module Simulation {
  import opened Basics
  import opened Components
  import opened Circuits
  import opened NodeMaps
  import opened DcModel

  /** `abs(now[n] - before.get(n, 0))` */
  function Change(now: map<NodeId, real>, before: map<NodeId, real>, n: NodeId): real
    requires n in now
  {
    Abs(now[n] - if n in before then before[n] else 0.0)
  }

  class SimulationEngine {
    const circuit: Circuit
    var time: real
    var nodeVoltages: map<NodeId, real>
    /** Declared and cleared by the source, never filled. */
    var componentCurrents: map<string, map<string, real>>
    /** `self.nodes` and `self.pin_to_node`, empty until the first
        `build_node_map`. */
    var nodes: map<NodeId, seq<PinRef>>
    var pinToNode: map<PinRef, NodeId>

    ghost predicate Valid()
      reads circuit
    {
      circuit.Valid()
    }

    constructor (circuit: Circuit)
      ensures this.circuit == circuit
      ensures time == 0.0 && nodeVoltages == map[] && componentCurrents == map[]
      ensures nodes == map[] && pinToNode == map[]
    {
      this.circuit := circuit;
      time := 0.0;
      nodeVoltages := map[];
      componentCurrents := map[];
      nodes := map[];
      pinToNode := map[];
    }

    /** What the engine reads of each component: type, pin names, properties. */
    function Layout(): (m: map<string, Part>)
      reads circuit, circuit.components.Values
      ensures m.Keys == circuit.components.Keys
      ensures forall k :: k in m ==> m[k] == circuit.components[k].AsPart()
    {
      map k | k in circuit.components :: circuit.components[k].AsPart()
    }

    /** Everything a component update reads besides the component itself. */
    function Inputs(): (e: Env)
      reads this, circuit, circuit.components.Values
      requires Valid()
      ensures e.Valid()
      ensures e.nv == nodeVoltages && e.ptn == pinToNode && e.conns == circuit.connections
      ensures e.ids == circuit.order && e.layout == Layout()
    {
      Env(nodeVoltages, pinToNode, circuit.connections, circuit.order, Layout())
    }

    /** `reset`: time back to 0 and both result tables emptied; the node map
        stays. */
    method Reset()
      modifies this
      ensures time == 0.0 && nodeVoltages == map[] && componentCurrents == map[]
      ensures nodes == old(nodes) && pinToNode == old(pinToNode)
    {
      time := 0.0;
      nodeVoltages := map[];
      componentCurrents := map[];
    }

    // -------------------------------------------------------------------
    // build_node_map

    /** `for pin in pins: pin_to_node[pin] = target` */
    method RelabelAll(pins: seq<PinRef>, target: NodeId)
      modifies this
      ensures pinToNode == Relabel(old(pinToNode), pins, target)
      ensures nodes == old(nodes) && nodeVoltages == old(nodeVoltages) && time == old(time)
      ensures componentCurrents == old(componentCurrents)
    {
      var j := 0;
      while j < |pins|
        invariant 0 <= j <= |pins|
        invariant pinToNode == Relabel(old(pinToNode), pins[..j], target)
        invariant nodes == old(nodes) && nodeVoltages == old(nodeVoltages) && time == old(time)
        invariant componentCurrents == old(componentCurrents)
      {
        RelabelSnoc(old(pinToNode), pins[..j], pins[j], target);
        assert pins[..j + 1] == pins[..j] + [pins[j]];
        pinToNode := pinToNode[pins[j] := target];
        j := j + 1;
      }
      assert pins[..j] == pins;
    }

    /** The body of the connection loop: the wire joins two nodes, extends
        the node of one end, or creates a node numbered `counter`. */
    method AddWireStep(c: Connection, counter: nat) returns (next: nat)
      requires Coherent(NodeMap(nodes, pinToNode, counter))
      modifies this
      ensures NodeMap(nodes, pinToNode, next) == AddWire(old(NodeMap(nodes, pinToNode, counter)), c)
      ensures nodeVoltages == old(nodeVoltages) && time == old(time) && componentCurrents == old(componentCurrents)
    {
      next := counter;
      var a, b := c.From(), c.To();
      if a in pinToNode && b in pinToNode {
        var fa, tb := pinToNode[a], pinToNode[b];
        if fa != tb {
          nodes := nodes[fa := nodes[fa] + nodes[tb]];
          RelabelAll(nodes[tb], fa);
          nodes := nodes - {tb};
        }
      } else if a in pinToNode {
        var n := pinToNode[a];
        nodes := nodes[n := nodes[n] + [b]];
        pinToNode := pinToNode[b := n];
      } else if b in pinToNode {
        var n := pinToNode[b];
        nodes := nodes[n := nodes[n] + [a]];
        pinToNode := pinToNode[a := n];
      } else {
        var n := Net(counter);
        next := counter + 1;
        nodes := nodes[n := [a, b]];
        pinToNode := pinToNode[a := n][b := n];
      }
    }

    /** The loop over the connections. */
    method WireConnections()
      modifies this
      ensures nodes == Wire(circuit.connections).nodes && pinToNode == Wire(circuit.connections).pinToNode
      ensures nodeVoltages == old(nodeVoltages) && time == old(time) && componentCurrents == old(componentCurrents)
    {
      var cs := circuit.connections;
      nodes := map[Gnd := []];
      pinToNode := map[];
      var counter := 0;
      var i := 0;
      while i < |cs|
        invariant 0 <= i <= |cs|
        invariant NodeMap(nodes, pinToNode, counter) == Wire(cs[..i])
        invariant nodeVoltages == old(nodeVoltages) && time == old(time) && componentCurrents == old(componentCurrents)
      {
        WireStep(cs, i);
        counter := AddWireStep(cs[i], counter);
        i := i + 1;
      }
      assert cs[..i] == cs;
    }

    /** The body of the grounding loop for a battery `id`: its `negative`
        pin's node is appended to 'gnd', its pins move to 'gnd' and the node
        is deleted unless it is 'gnd' itself. */
    method GroundStep(id: string, ghost counter: nat)
      requires Coherent(NodeMap(nodes, pinToNode, counter))
      modifies this
      ensures NodeMap(nodes, pinToNode, counter) == GroundNode(old(NodeMap(nodes, pinToNode, counter)), id)
      ensures nodeVoltages == old(nodeVoltages) && time == old(time) && componentCurrents == old(componentCurrents)
    {
      var neg := PinRef(id, "negative");
      if neg in pinToNode {
        var n := pinToNode[neg];
        nodes := nodes[Gnd := nodes[Gnd] + nodes[n]];
        if n == Gnd {
          RelabelTwice(pinToNode, old(nodes)[Gnd], Gnd);
        }
        RelabelAll(nodes[n], Gnd);
        if n != Gnd {
          nodes := nodes - {n};
        }
      }
    }

    /** The loop over the components, in order, reading each one's type
        from `layout`: every connected battery's `negative` node is fused
        into 'gnd'. */
    method GroundBatteries(order: seq<string>, layout: map<string, Part>, ghost w: NodeMap)
      requires forall j :: 0 <= j < |order| ==> order[j] in layout
      requires Coherent(w) && NodeMap(nodes, pinToNode, w.counter) == w
      modifies this
      ensures NodeMap(nodes, pinToNode, w.counter) == Fuse(w, order, layout)
      ensures nodeVoltages == old(nodeVoltages) && time == old(time) && componentCurrents == old(componentCurrents)
    {
      var i := 0;
      while i < |order|
        invariant 0 <= i <= |order|
        invariant NodeMap(nodes, pinToNode, w.counter) == Fuse(w, order[..i], layout)
        invariant nodeVoltages == old(nodeVoltages) && time == old(time) && componentCurrents == old(componentCurrents)
      {
        FuseSnoc(w, order, layout, i);
        if layout[order[i]].kind == "battery" {
          GroundStep(order[i], w.counter);
        }
        i := i + 1;
      }
      assert order[..i] == order;
    }

    /** `build_node_map`: afterwards the node map is the one `BuildNodes`
        defines, whose shape the lemmas of `NodeMaps` describe. */
    method BuildNodeMap(ghost layout: map<string, Part>)
      requires Valid() && layout == Layout()
      modifies this
      ensures NodeMap(nodes, pinToNode, Wire(circuit.connections).counter) == BuildNodes(circuit.connections, circuit.order, layout)
      ensures nodeVoltages == old(nodeVoltages) && time == old(time) && componentCurrents == old(componentCurrents)
    {
      var parts := Layout();
      WireConnections();
      GroundBatteries(circuit.order, parts, Wire(circuit.connections));
    }

    // -------------------------------------------------------------------
    // solve_dc_circuit

    /** The first loop: every node of the map is set to 0 V; entries for
        nodes of an earlier map stay. */
    method ZeroNodes()
      modifies this
      ensures nodeVoltages == Zeroed(old(nodeVoltages), nodes)
      ensures nodes == old(nodes) && pinToNode == old(pinToNode) && time == old(time) && componentCurrents == old(componentCurrents)
    {
      var rest := nodes.Keys;
      while rest != {}
        invariant rest <= nodes.Keys
        invariant nodeVoltages.Keys == old(nodeVoltages).Keys + (nodes.Keys - rest)
        invariant forall n :: n in nodes && n !in rest ==> nodeVoltages[n] == 0.0
        invariant forall n :: n in old(nodeVoltages) && (n !in nodes || n in rest) ==> nodeVoltages[n] == old(nodeVoltages)[n]
        invariant nodes == old(nodes) && pinToNode == old(pinToNode) && time == old(time) && componentCurrents == old(componentCurrents)
        decreases rest
      {
        var n :| n in rest;
        nodeVoltages := nodeVoltages[n := 0.0];
        rest := rest - {n};
      }
      assert nodeVoltages == Zeroed(old(nodeVoltages), nodes);
    }

    /** The second loop, reading each component's type and properties from
        `layout`: each battery drives the node of its `positive` pin. */
    method DriveSources(order: seq<string>, layout: map<string, Part>)
      requires forall j :: 0 <= j < |order| ==> order[j] in layout
      modifies this
      ensures nodeVoltages == Drive(old(nodeVoltages), pinToNode, order, layout)
      ensures nodes == old(nodes) && pinToNode == old(pinToNode) && time == old(time) && componentCurrents == old(componentCurrents)
    {
      var i := 0;
      while i < |order|
        invariant 0 <= i <= |order|
        invariant nodeVoltages == Drive(old(nodeVoltages), pinToNode, order[..i], layout)
        invariant nodes == old(nodes) && pinToNode == old(pinToNode) && time == old(time) && componentCurrents == old(componentCurrents)
      {
        assert order[..i + 1][..i] == order[..i];
        var part := layout[order[i]];
        if part.kind == "battery" {
          var voltage := NumberOr(part.properties, "voltage", 5.0);
          var pos := PinRef(order[i], "positive");
          if pos in pinToNode {
            nodeVoltages := nodeVoltages[pinToNode[pos] := voltage];
          }
        }
        i := i + 1;
      }
      assert order[..i] == order;
    }

    /** The scan of `is_source_node`: some pin of the node is the `positive`
        pin of a battery of the circuit. */
    method IsSourceNode(pins: seq<PinRef>) returns (b: bool)
      ensures b <==> exists i :: 0 <= i < |pins| && circuit.IsBattery(pins[i].component) && pins[i].pin == "positive"
    {
      var i := 0;
      while i < |pins|
        invariant 0 <= i <= |pins|
        invariant forall j :: 0 <= j < i ==> !(circuit.IsBattery(pins[j].component) && pins[j].pin == "positive")
      {
        var component := circuit.GetComponent(pins[i].component);
        if component.Some? && component.value.kind == "battery" && pins[i].pin == "positive" {
          return true;
        }
        i := i + 1;
      }
      return false;
    }

    /** `update_node_voltage` has an empty body. */
    method UpdateNodeVoltage(node: NodeId)
      ensures unchanged(this)
    {
    }

    /** One pass of the relaxation loop: every node except 'gnd' that is
        not a source node gets `update_node_voltage`, so nothing changes. */
    method RelaxPass()
      ensures unchanged(this)
    {
      var rest := nodes.Keys;
      while rest != {}
        decreases rest
      {
        var n :| n in rest;
        if n != Gnd {
          var isSource := IsSourceNode(nodes[n]);
          if !isSource {
            UpdateNodeVoltage(n);
          }
        }
        rest := rest - {n};
      }
    }

    /** `max(abs(node_voltages[n] - before.get(n, 0)) for n in node_voltages)`;
        Python's `max` of nothing raises, so the table must not be empty. */
    method MaxChange(before: map<NodeId, real>) returns (m: real)
      requires nodeVoltages != map[]
      ensures forall n :: n in nodeVoltages ==> Change(nodeVoltages, before, n) <= m
      ensures exists n :: n in nodeVoltages && Change(nodeVoltages, before, n) == m
    {
      var rest := nodeVoltages.Keys;
      var first :| first in rest;
      m := Change(nodeVoltages, before, first);
      rest := rest - {first};
      while rest != {}
        invariant rest <= nodeVoltages.Keys
        invariant forall n :: n in nodeVoltages && n !in rest ==> Change(nodeVoltages, before, n) <= m
        invariant exists n :: n in nodeVoltages && Change(nodeVoltages, before, n) == m
        decreases rest
      {
        var n :| n in rest;
        m := Max(m, Change(nodeVoltages, before, n));
        rest := rest - {n};
      }
    }

    /** The relaxation loop (at most 100 passes, tolerance 0.001). The pass
        changes nothing, so the largest change is 0 and the loop stops after
        its first pass; the result is the number of passes. */
    method Relax() returns (passes: nat)
      requires nodeVoltages != map[]
      ensures passes == 1
    {
      passes := 0;
      var converged := false;
      while passes < 100 && !converged
        invariant passes <= 1 && (converged <==> passes == 1)
      {
        var before := nodeVoltages;
        RelaxPass();
        var change := MaxChange(before);
        passes := passes + 1;
        converged := change < 0.001;
      }
    }

    /** `solve_dc_circuit`, on the node map `m` built from the layout
        `layout`: the node voltages are those `Solved` defines;
        `SolvedVoltage` says what they are. */
    method SolveDcCircuit(ghost m: NodeMap, ghost layout: map<string, Part>)
      requires Valid() && layout == Layout()
      requires nodes == m.nodes && pinToNode == m.pinToNode && Gnd in nodes
      modifies this
      ensures nodeVoltages == Solved(old(nodeVoltages), m, circuit.order, layout)
      ensures nodes == old(nodes) && pinToNode == old(pinToNode) && time == old(time) && componentCurrents == old(componentCurrents)
    {
      var parts := Layout();
      ZeroNodes();
      ghost var zeroed := nodeVoltages;
      DriveSources(circuit.order, parts);
      var passes := Relax();
    }

    // -------------------------------------------------------------------
    // Currents

    /** `is_component_on_node`: some pin of `c` is on `node`. */
    method IsComponentOnNode(c: Component, node: NodeId) returns (b: bool)
      ensures b == OnNode(PinNames(c.pins), c.id, pinToNode, node)
    {
      var i := 0;
      while i < |c.pins|
        invariant 0 <= i <= |c.pins|
        invariant forall j :: 0 <= j < i ==>
          !(PinRef(c.id, c.pins[j].name) in pinToNode && pinToNode[PinRef(c.id, c.pins[j].name)] == node)
      {
        var key := PinRef(c.id, c.pins[i].name);
        if key in pinToNode && pinToNode[key] == node {
          return true;
        }
        i := i + 1;
      }
      return false;
    }

    /** `calculate_output_current(c, pin_name)`: the sum of the battery
        voltage over the resistance of every resistor on the pin's node, in
        component order; `OutputCurrentLaw` says what that is. */
    method CalculateOutputCurrent(c: Component, pinName: string, ghost env: Env) returns (r: Amps)
      requires Valid() && env.ids == circuit.order && env.layout == Layout() && env.ptn == pinToNode
      ensures r == OutputCurrent(c.id, pinName, NumberOr(c.properties, "voltage", 5.0), env.ids, env.layout, env.ptn)
    {
      var key := PinRef(c.id, pinName);
      if key !in pinToNode {
        return Amps(0.0);
      }
      var node := pinToNode[key];
      var order := circuit.order;
      ghost var layout := env.layout;
      ghost var v := NumberOr(c.properties, "voltage", 5.0);
      var total := 0.0;
      var i := 0;
      while i < |order|
        invariant 0 <= i <= |order|
        invariant LoadCurrent(order[..i], layout, pinToNode, node, v) == Amps(total)
      {
        LoadCurrentStep(order, layout, pinToNode, node, v, i);
        var comp := circuit.components[order[i]];
        assert layout[order[i]] == comp.AsPart() && comp.id == order[i];
        if comp.kind == "resistor" {
          var on := IsComponentOnNode(comp, node);
          if on {
            var resistance := NumberOr(comp.properties, "resistance", 1000.0);
            var voltage := NumberOr(c.properties, "voltage", 5.0);
            if resistance == 0.0 {
              LoadCurrentStuck(order, layout, pinToNode, node, v, i + 1);
              return DivisionByZero;
            }
            total := total + voltage / resistance;
          }
        }
        i := i + 1;
      }
      assert order[..i] == order;
      return Amps(total);
    }

    /** `calculate_led_current`: the first connection from the LED to a
        resistor decides the current; `LedCurrentLaw` says what it is. */
    method CalculateLedCurrent(led: Component, drop: real, vf: real) returns (r: Amps)
      requires Valid()
      ensures r == LedDrive(circuit.connections, led.id, Layout(), drop, vf)
    {
      var cs := circuit.connections;
      ghost var layout := Layout();
      var i := 0;
      while i < |cs|
        invariant 0 <= i <= |cs|
        invariant forall j :: 0 <= j < i && cs[j].Touches(led.id) ==>
          !(OtherEnd(cs[j], led.id) in layout && layout[OtherEnd(cs[j], led.id)].kind == "resistor")
      {
        var c := cs[i];
        if c.toComponent == led.id || c.fromComponent == led.id {
          var otherId := if c.toComponent == led.id then c.fromComponent else c.toComponent;
          var other := circuit.GetComponent(otherId);
          if other.Some? && other.value.kind == "resistor" {
            var resistance := NumberOr(other.value.properties, "resistance", 220.0);
            assert SeriesResistor(cs, led.id, layout) == Some(i);
            if resistance == 0.0 {
              return DivisionByZero;
            }
            return Amps(Max(0.0, (drop - vf) / resistance));
          }
        }
        i := i + 1;
      }
      return Amps(0.001);
    }

    // -------------------------------------------------------------------
    // Component updates

    /** Writing pin voltages and currents of `c` leaves the layout as it was. */
    twostate lemma LayoutKept(c: Component)
      requires unchanged(circuit)
      requires forall o :: o in circuit.components.Values && o != c ==> unchanged(o)
      requires c.properties == old(c.properties) && SameNames(c.pins, old(c.pins))
      ensures Layout() == old(Layout())
    {
      forall k | k in circuit.components
        ensures circuit.components[k].AsPart() == old(circuit.components[k].AsPart())
      {
        var o := circuit.components[k];
        assert o in circuit.components.Values;
        if o == c {
          SameNamesPinNames(c.pins, old(c.pins));
        }
      }
    }

    /** The end of `update_battery`: the `positive` pin `p` takes the
        output current, unless computing it raised, and the `negative` pin
        takes the opposite of what the `positive` pin carries. */
    method FinishBattery(c: Component, p: nat, neg: Option<nat>, out: Amps) returns (raised: bool)
      requires p < |c.pins| && (neg.Some? ==> neg.value < |c.pins| && neg.value != p)
      modifies c
      ensures Update(c.pins, raised) == BatteryFinish(old(c.pins), p, neg, out)
      ensures c.properties == old(c.properties)
    {
      if out.DivisionByZero? {
        return true;
      }
      c.pins := SetCurrent(c.pins, p, out.value);
      if neg.Some? {
        var returned := -c.pins[p].current;
        c.pins := Return(c.pins, neg.value, returned);
      }
      return false;
    }

    /** `update_battery`: the pins end as `BatteryUpdate` says, which
        `BatteryLaw` describes; the result says whether it raised. */
    method UpdateBattery(c: Component) returns (raised: bool)
      requires Valid()
      modifies c
      ensures Update(c.pins, raised) == BatteryUpdate(old(c.pins), c.id, c.properties, old(Inputs()))
      ensures c.properties == old(c.properties)
    {
      ghost var env := Inputs();
      var voltage := NumberOr(c.properties, "voltage", 5.0);
      var pos := c.GetPin("positive");
      var neg := c.GetPin("negative");
      if pos.Some? {
        DistinctPins(c.pins, "positive", "negative");
        c.pins := SetVoltage(c.pins, pos.value, voltage);
        LayoutKept(c);
        var out := CalculateOutputCurrent(c, "positive", env);
        raised := FinishBattery(c, pos.value, neg, out);
      } else {
        if neg.Some? {
          c.pins := Return(c.pins, neg.value, 0.0);
        }
        raised := false;
      }
    }

    /** `update_resistor`: the pins end as `ResistorUpdate` says, which
        `ResistorLaw` describes. */
    method UpdateResistor(c: Component)
      requires Valid()
      modifies c
      ensures c.pins == ResistorUpdate(old(c.pins), c.id, c.properties, old(Inputs())).pins
      ensures c.properties == old(c.properties)
    {
      var resistance := NumberOr(c.properties, "resistance", 1000.0);
      var pin1 := c.GetPin("pin1");
      var pin2 := c.GetPin("pin2");
      if pin1.Some? && pin2.Some? {
        var v1 := NodeVoltage(nodeVoltages, pinToNode, PinRef(c.id, "pin1"));
        var v2 := NodeVoltage(nodeVoltages, pinToNode, PinRef(c.id, "pin2"));
        DistinctPins(c.pins, "pin1", "pin2");
        c.pins := SetVoltage(c.pins, pin1.value, v1);
        c.pins := SetVoltage(c.pins, pin2.value, v2);
        var current := OhmCurrent(v1, v2, resistance);
        c.pins := SetCurrent(c.pins, pin1.value, current);
        c.pins := SetCurrent(c.pins, pin2.value, -current);
      }
    }

    /** The current `update_led` gives the anode: 0 unless the drop exceeds
        the forward voltage, and then the drive of `calculate_led_current`
        capped at `max_current`. */
    method LedConduction(c: Component, va: real, vc: real, vf: real, imax: real, ghost env: Env) returns (r: Amps)
      requires Valid() && env.conns == circuit.connections && env.layout == Layout()
      ensures r == LedCurrent(va, vc, vf, imax, env.conns, c.id, env.layout)
    {
      if va - vc > vf {
        var drive := CalculateLedCurrent(c, va - vc, vf);
        if drive.DivisionByZero? {
          return DivisionByZero;
        }
        return Amps(Min(drive.value, imax));
      }
      return Amps(0.0);
    }

    /** The end of `update_led`: a raise, or the anode `a` takes the
        current and the cathode `k` the opposite. */
    method FinishLed(c: Component, a: nat, k: nat, i: Amps) returns (raised: bool)
      requires a < |c.pins| && k < |c.pins| && a != k
      modifies c
      ensures Update(c.pins, raised) == LedFinish(old(c.pins), a, k, i)
      ensures c.properties == old(c.properties)
    {
      if i.DivisionByZero? {
        return true;
      }
      c.pins := SetCurrent(c.pins, a, i.value);
      c.pins := SetCurrent(c.pins, k, -i.value);
      return false;
    }

    /** The body of `update_led` once both pins are known: the anode `a` and
        the cathode `k` take their nodes' voltages `va` and `vc`, then the LED
        current is computed and written. */
    method DriveLed(c: Component, a: nat, k: nat, va: real, vc: real, vf: real, imax: real, ghost env: Env) returns (raised: bool)
      requires Valid() && env.conns == circuit.connections && env.layout == Layout()
      requires a < |c.pins| && k < |c.pins| && a != k
      modifies c
      ensures Update(c.pins, raised)
        == LedFinish(SetVoltage(SetVoltage(old(c.pins), a, va), k, vc), a, k, LedCurrent(va, vc, vf, imax, env.conns, c.id, env.layout))
      ensures c.properties == old(c.properties)
    {
      c.pins := SetVoltage(c.pins, a, va);
      c.pins := SetVoltage(c.pins, k, vc);
      LayoutKept(c);
      var i := LedConduction(c, va, vc, vf, imax, env);
      raised := FinishLed(c, a, k, i);
    }

    /** `update_led`: the pins end as `LedUpdate` says, which `LedLaw`
        describes; the result says whether it raised. */
    method UpdateLed(c: Component) returns (raised: bool)
      requires Valid()
      modifies c
      ensures Update(c.pins, raised) == LedUpdate(old(c.pins), c.id, c.properties, old(Inputs()))
      ensures c.properties == old(c.properties)
    {
      ghost var env := Inputs();
      var vf := NumberOr(c.properties, "forward_voltage", 2.0);
      var imax := NumberOr(c.properties, "max_current", 0.020);
      var anode := c.GetPin("anode");
      var cathode := c.GetPin("cathode");
      if anode.Some? && cathode.Some? {
        var va := NodeVoltage(nodeVoltages, pinToNode, PinRef(c.id, "anode"));
        var vc := NodeVoltage(nodeVoltages, pinToNode, PinRef(c.id, "cathode"));
        LedSteps(c.pins, c.id, c.properties, env, anode.value, cathode.value);
        raised := DriveLed(c, anode.value, cathode.value, va, vc, vf, imax, env);
      } else {
        raised := false;
      }
    }

    // -------------------------------------------------------------------
    // update_component and the loop over the components

    /** `update_component`: dispatch on the type; other types are left
        alone. The result says whether the update raised. */
    method UpdateComponent(c: Component) returns (raised: bool)
      requires Valid()
      modifies c
      ensures Update(c.pins, raised) == ComponentUpdate(c.kind, old(c.pins), c.id, c.properties, old(Inputs()))
      ensures c.properties == old(c.properties)
    {
      if c.kind == "battery" {
        raised := UpdateBattery(c);
      } else if c.kind == "resistor" {
        UpdateResistor(c);
        raised := false;
      } else if c.kind == "led" {
        raised := UpdateLed(c);
      } else {
        raised := false;
      }
    }

    /** Each component's pins, by id. */
    ghost function PinsOf(): (m: map<string, seq<Pin>>)
      reads circuit, circuit.components.Values
      ensures m.Keys == circuit.components.Keys
      ensures forall k :: k in m ==> m[k] == circuit.components[k].pins
    {
      map k | k in circuit.components :: circuit.components[k].pins
    }

    /** What the engine itself changes leaves the components alone. */
    twostate lemma ComponentsKept()
      requires unchanged(circuit) && unchanged(circuit.components.Values)
      ensures Layout() == old(Layout()) && PinsOf() == old(PinsOf())
    {
    }

    /** When only component `c` changed, only its entry of the pin table
        changed. */
    twostate lemma PinsUpdated(c: Component)
      requires unchanged(circuit) && Valid()
      requires c.id in circuit.components && circuit.components[c.id] == c
      requires forall o :: o in circuit.components.Values && o != c ==> unchanged(o)
      ensures PinsOf() == old(PinsOf())[c.id := c.pins]
    {
      forall k | k in circuit.components && k != c.id
        ensures circuit.components[k].pins == old(circuit.components[k].pins)
      {
        var o := circuit.components[k];
        assert o in circuit.components.Values && o.id == k;
      }
    }

    /** `update_component_states`: the components in order, each updated
        from its current pins, stopping at the first update that raises;
        `RunFirstRaise` says what that gives. */
    method UpdateComponentStates() returns (raised: bool)
      requires Valid()
      modifies circuit.components.Values
      ensures Run(circuit.order, old(PinsOf()), UpdateOf(old(Inputs()))) == Progress(PinsOf(), raised)
      ensures Inputs() == old(Inputs())
    {
      ghost var env, pins0 := Inputs(), PinsOf();
      ghost var f := UpdateOf(env);
      var order := circuit.order;
      var i := 0;
      while i < |order|
        invariant 0 <= i <= |order|
        invariant Inputs() == env
        invariant Run(order[..i], pins0, f) == Progress(PinsOf(), false)
      {
        raised := Advance(order, i, env, pins0, f);
        if raised {
          return;
        }
        i := i + 1;
      }
      assert order[..i] == order;
      raised := false;
    }

    /** One turn of the loop: the component at position `i` of the order
        is updated; either the loop so far has grown by one entry or the
        update raised and the whole loop is done. */
    method Advance(order: seq<string>, i: nat, ghost env: Env, ghost pins0: map<string, seq<Pin>>, ghost f: (seq<Pin>, string) -> Update)
      returns (raised: bool)
      requires Valid() && order == circuit.order && i < |order| && env == Inputs() && f == UpdateOf(env)
      requires pins0.Keys == circuit.components.Keys
      requires Run(order[..i], pins0, f) == Progress(PinsOf(), false)
      modifies circuit.components[order[i]]
      ensures !raised ==> Run(order[..i + 1], pins0, f) == Progress(PinsOf(), false)
      ensures raised ==> Run(order, pins0, f) == Progress(PinsOf(), true)
      ensures Inputs() == env
    {
      RunSnoc(order, i, pins0, f);
      raised := UpdateEntry(order[i], env, f);
      if raised {
        RunStuck(order, i + 1, pins0, f);
      }
    }

    /** The body of the loop for the component with id `k`: its pins change
        as `f` says and nothing else changes. */
    method UpdateEntry(k: string, ghost env: Env, ghost f: (seq<Pin>, string) -> Update) returns (raised: bool)
      requires Valid() && k in circuit.components && env == Inputs() && f == UpdateOf(env)
      modifies circuit.components[k]
      ensures PinsOf() == old(PinsOf())[k := f(old(PinsOf())[k], k).pins]
      ensures raised == f(old(PinsOf())[k], k).raised
      ensures Inputs() == env
    {
      var c := circuit.components[k];
      assert c in circuit.components.Values && c.id == k;
      raised := UpdateComponent(c);
      PinsUpdated(c);
      LayoutKept(c);
    }

    // -------------------------------------------------------------------
    // step

    /** The first two calls of `step`: the node map is rebuilt and solved,
        reading the components' layout `layout`. */
    method Prepare(ghost layout: map<string, Part>)
      requires Valid() && layout == Layout()
      modifies this
      ensures var m := BuildNodes(circuit.connections, circuit.order, layout);
        nodes == m.nodes && pinToNode == m.pinToNode && nodeVoltages == Solved(old(nodeVoltages), m, circuit.order, layout)
      ensures time == old(time) && componentCurrents == old(componentCurrents)
    {
      ghost var m := BuildNodes(circuit.connections, circuit.order, layout);
      BuildNodeMap(layout);
      SolveDcCircuit(m, layout);
    }

    /** `step(dt)`: the clock advances, the node map is rebuilt, the node
        voltages are solved and the components are updated in order; the
        result says whether an update raised, which ends the step. */
    method Step(dt: real) returns (raised: bool)
      requires Valid()
      modifies this, circuit.components.Values
      ensures time == old(time) + dt && componentCurrents == old(componentCurrents)
      ensures Layout() == old(Layout())
      ensures var m := BuildNodes(circuit.connections, circuit.order, Layout());
        nodes == m.nodes && pinToNode == m.pinToNode && nodeVoltages == Solved(old(nodeVoltages), m, circuit.order, Layout())
      ensures Run(circuit.order, old(PinsOf()), UpdateOf(Inputs())) == Progress(PinsOf(), raised)
    {
      ghost var layout := Layout();
      time := time + dt;
      Prepare(layout);
      ComponentsKept();
      raised := UpdateComponentStates();
    }
  }
}
