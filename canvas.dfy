/** The decision logic of the circuit canvas (src/ui/canvas_view.py): the
    component factory, the colour and brightness rules the display applies
    to simulated values, the wiring state machine and the simulation switch.
    Drawing, mouse handling and the timer are not modelled. */
module Canvas {
  import opened Basics
  import opened Components
  import opened Circuits
  import opened Simulation

  // ---------------------------------------------------------------------
  // Component factory (canvas_view.py:361-393)

  /** What the factory builds, before it is given an id. */
  datatype Design = Design(kind: string, name: string, pins: seq<Pin>, properties: map<string, Value>)

  /** `create_component(component_type)`: a battery, an LED or a resistor
      with the stock pins and properties; any other type gives nothing. */
  function Blueprint(kind: string): (r: Option<Design>)
    ensures r.Some? <==> kind == "battery" || kind == "led" || kind == "resistor"
    ensures r.Some? ==> r.value.kind == kind && |r.value.pins| == 2
    ensures r.Some? ==> forall i :: 0 <= i < |r.value.pins| ==>
      r.value.pins[i].voltage == 0.0 && r.value.pins[i].current == 0.0 && r.value.pins[i].connectedTo == []
  {
    if kind == "battery" then
      Some(Design("battery", "Battery",
        [NewPin("positive", "output", (-33.0, 0.0)), NewPin("negative", "output", (33.0, 0.0))],
        map["voltage" := Number(5.0)]))
    else if kind == "led" then
      Some(Design("led", "LED",
        [NewPin("anode", "input", (0.0, 25.0)), NewPin("cathode", "input", (0.0, -25.0))],
        map["color" := Text("red"), "forward_voltage" := Number(2.0), "max_current" := Number(0.020)]))
    else if kind == "resistor" then
      Some(Design("resistor", "Resistor",
        [NewPin("pin1", "passive", (-30.0, 0.0)), NewPin("pin2", "passive", (30.0, 0.0))],
        map["resistance" := Number(220.0)]))
    else None
  }

  /** The stock parts as the simulation engine reads them: each has the two
      pins its update looks up, and the property defaults the engine would
      fall back on are also the values the factory stores. */
  lemma FactoryDefaults()
    ensures var b := Blueprint("battery").value;
      PinNames(b.pins) == ["positive", "negative"] && NumberOr(b.properties, "voltage", 5.0) == 5.0
    ensures var l := Blueprint("led").value;
      && PinNames(l.pins) == ["anode", "cathode"]
      && NumberOr(l.properties, "forward_voltage", 2.0) == 2.0
      && NumberOr(l.properties, "max_current", 0.020) == 0.020
      && l.properties["color"] == Text("red")
    ensures var r := Blueprint("resistor").value;
      PinNames(r.pins) == ["pin1", "pin2"] && NumberOr(r.properties, "resistance", 220.0) == 220.0
  {
    var b, l, r := Blueprint("battery").value, Blueprint("led").value, Blueprint("resistor").value;
    assert PinNames(b.pins) == [b.pins[0].name] + PinNames(b.pins[1..]);
    assert PinNames(l.pins) == [l.pins[0].name] + PinNames(l.pins[1..]);
    assert PinNames(r.pins) == [r.pins[0].name] + PinNames(r.pins[1..]);
  }

  /** The factory followed by the component constructor, with the fresh id
      (a uuid in the source) passed in. */
  method CreateComponent(kind: string, id: string) returns (c: Option<Component>)
    ensures c.None? <==> Blueprint(kind).None?
    ensures c.Some? ==>
      && fresh(c.value) && c.value.id == id
      && var d := Blueprint(kind).value;
      c.value.kind == d.kind && c.value.name == d.name && c.value.pins == d.pins && c.value.properties == d.properties
  {
    var design := Blueprint(kind);
    if design.None? {
      return None;
    }
    var d := design.value;
    var made := new Component(d.kind, d.name, d.pins, d.properties, id);
    c := Some(made);
  }

  // ---------------------------------------------------------------------
  // Display rules

  /** The three pin colours of `PinGraphicsItem.update_state`. */
  datatype Shade = Low | Intermediate | High

  function Level(s: Shade): nat {
    match s
    case Low => 0
    case Intermediate => 1
    case High => 2
  }

  /** Red above 4.5 V, yellow above 0.5 V, grey otherwise (canvas_view.py:44-49). */
  function PinShade(voltage: real): (s: Shade)
    ensures s == High <==> voltage > 4.5
    ensures s == Intermediate <==> 0.5 < voltage <= 4.5
    ensures s == Low <==> voltage <= 0.5
  {
    if voltage > 4.5 then High
    else if voltage > 0.5 then Intermediate
    else Low
  }

  /** A higher voltage never shows a lower level. */
  lemma PinShadeMonotone(v: real, w: real)
    requires v <= w
    ensures Level(PinShade(v)) <= Level(PinShade(w))
  {
  }

  /** `LEDGraphicsItem.update_state`: lit above 1 mA through the anode,
      brightness proportional to the current and full at 20 mA. */
  function Brightness(current: real): (b: real)
    ensures current > 0.001 ==> 0.0 < b <= 1.0
    ensures current <= 0.001 ==> b == 0.0
  {
    if current > 0.001 then Min(1.0, current / 0.020) else 0.0
  }

  datatype LedLook = LedLook(lit: bool, brightness: real)

  /** The LED's look from its pins: a missing anode pin leaves it dark. */
  function LedState(pins: seq<Pin>): (r: LedLook)
    ensures r.lit <==> FirstPin(pins, "anode").Some? && pins[FirstPin(pins, "anode").value].current > 0.001
    ensures r.lit ==> 0.0 < r.brightness <= 1.0
    ensures !r.lit ==> r.brightness == 0.0
  {
    match FirstPin(pins, "anode")
    case None => LedLook(false, 0.0)
    case Some(i) => LedLook(pins[i].current > 0.001, Brightness(pins[i].current))
  }

  /** More current never dims the LED, and it is at full brightness exactly
      from 20 mA on. */
  lemma BrightnessMonotone(i: real, j: real)
    requires i <= j
    ensures Brightness(i) <= Brightness(j)
    ensures Brightness(j) == 1.0 <==> j >= 0.020
  {
    if i > 0.001 {
      assert i / 0.020 <= j / 0.020;
    }
  }

  /** `WireGraphicsItem.update_current`: above 1 mA either way the wire's
      green channel is `min(255, int(100 + |I| * 1000))`, otherwise the
      resting 150. */
  function WireGreen(current: real): (g: int)
    ensures Abs(current) > 0.001 ==> 101 <= g <= 255
    ensures Abs(current) <= 0.001 ==> g == 150
  {
    if Abs(current) > 0.001 then
      var level := (100.0 + Abs(current) * 1000.0).Floor;
      if level < 255 then level else 255
    else 150
  }

  /** The highlight depends on the size of the current, not its direction,
      grows with it and saturates from 155 mA on. */
  lemma WireGreenLaw(i: real, j: real)
    requires 0.001 < Abs(i) <= Abs(j)
    ensures WireGreen(-i) == WireGreen(i)
    ensures WireGreen(i) <= WireGreen(j)
    ensures Abs(j) >= 0.155 ==> WireGreen(j) == 255
  {
    assert Abs(-i) == Abs(i);
    var li, lj := 100.0 + Abs(i) * 1000.0, 100.0 + Abs(j) * 1000.0;
    assert li <= lj;
    assert li.Floor <= lj.Floor;
  }

  // ---------------------------------------------------------------------
  // Wiring state machine (canvas_view.py:445-509)

  /** `wiring_mode`, `wiring_start_pin` and whether `temp_wire` is set. */
  datatype WiringState = WiringState(mode: bool, start: Option<PinRef>, tempWire: bool)

  const Idle := WiringState(false, None, false)

  /** `start_wiring` on the pin `pinName` of the component item `owner`
      (None when the pin's parent item is not a component item): wiring
      mode is entered, and the start pin and temporary wire are recorded
      only for a component's pin. */
  function Started(w: WiringState, owner: Option<string>, pinName: string): (r: WiringState)
    ensures r.mode
    ensures owner.Some? ==> r.start == Some(PinRef(owner.value, pinName)) && r.tempWire
    ensures owner.None? ==> r.start == w.start && r.tempWire == w.tempWire
  {
    match owner
    case None => w.(mode := true)
    case Some(id) => WiringState(true, Some(PinRef(id, pinName)), true)
  }

  /** `complete_wiring` on the pin `pinName` of `owner`: the connection it
      adds, if any. None without a start pin, without a component under the
      end pin, or when the end pin is the start pin. */
  function Completed(w: WiringState, owner: Option<string>, pinName: string, connectionId: string): (r: Option<Connection>)
    ensures r.Some? <==> w.start.Some? && owner.Some? && w.start.value != PinRef(owner.value, pinName)
    ensures r.Some? ==> r.value.From() == w.start.value && r.value.To() == PinRef(owner.value, pinName)
    ensures r.Some? ==> r.value == NewConnection(w.start.value.component, w.start.value.pin, owner.value, pinName, connectionId)
  {
    if w.start.None? || owner.None? then None
    else
      var s := w.start.value;
      if s.component == owner.value && s.pin == pinName then None
      else Some(NewConnection(s.component, s.pin, owner.value, pinName, connectionId))
  }

  /** No wire is ever drawn from a pin to itself, and none without a start
      pin. */
  lemma NoSelfWire(w: WiringState, owner: Option<string>, pinName: string, connectionId: string)
    ensures var c := Completed(w, owner, pinName, connectionId);
      c.Some? ==> c.value.From() != c.value.To()
    ensures w.start.None? ==> Completed(w, owner, pinName, connectionId).None?
  {
  }

  /** A right-click on a component's pin followed by a release on another
      pin adds exactly the wire between them. */
  lemma DragAddsWire(w: WiringState, from: string, fromPin: string, to: string, toPin: string, connectionId: string)
    requires PinRef(from, fromPin) != PinRef(to, toPin)
    ensures Completed(Started(w, Some(from), fromPin), Some(to), toPin, connectionId)
      == Some(NewConnection(from, fromPin, to, toPin, connectionId))
  {
  }

  function AsSeq<T>(o: Option<T>): (r: seq<T>)
    ensures |r| <= 1 && (o.Some? ==> r == [o.value])
  {
    if o.Some? then [o.value] else []
  }

  // ---------------------------------------------------------------------
  // The canvas

  class CanvasView {
    const circuit: Circuit
    const engine: SimulationEngine
    var wiringMode: bool
    var wiringStartPin: Option<PinRef>
    var tempWire: bool
    var simulationRunning: bool

    function Wiring(): (w: WiringState)
      reads this
      ensures w.mode == wiringMode && w.start == wiringStartPin && w.tempWire == tempWire
    {
      WiringState(wiringMode, wiringStartPin, tempWire)
    }

    /** A new canvas: an empty circuit with its engine, not wiring, not
        simulating. */
    constructor ()
      ensures fresh(circuit) && fresh(engine) && engine.circuit == circuit
      ensures circuit.Valid() && circuit.components == map[] && circuit.connections == []
      ensures engine.time == 0.0 && engine.nodeVoltages == map[]
      ensures Wiring() == Idle && !simulationRunning
    {
      var c := new Circuit();
      circuit := c;
      engine := new SimulationEngine(c);
      wiringMode := false;
      wiringStartPin := None;
      tempWire := false;
      simulationRunning := false;
    }

    method StartWiring(owner: Option<string>, pinName: string)
      modifies this
      ensures Wiring() == Started(old(Wiring()), owner, pinName)
      ensures simulationRunning == old(simulationRunning)
    {
      wiringMode := true;
      if owner.Some? {
        wiringStartPin := Some(PinRef(owner.value, pinName));
        tempWire := true;
      }
    }

    /** `cancel_wiring`: back to idle. */
    method CancelWiring()
      modifies this
      ensures Wiring() == Idle
      ensures simulationRunning == old(simulationRunning)
    {
      wiringMode := false;
      wiringStartPin := None;
      tempWire := false;
    }

    /** `complete_wiring`: the connection `Completed` gives, if any, is
        appended to the circuit; the components do not change; the canvas
        is idle afterwards whatever happened. */
    method CompleteWiring(owner: Option<string>, pinName: string, connectionId: string)
      modifies this, circuit
      ensures circuit.connections == old(circuit.connections) + AsSeq(Completed(old(Wiring()), owner, pinName, connectionId))
      ensures circuit.components == old(circuit.components) && circuit.order == old(circuit.order)
      ensures circuit.name == old(circuit.name)
      ensures Wiring() == Idle && simulationRunning == old(simulationRunning)
    {
      var added := Completed(Wiring(), owner, pinName, connectionId);
      if added.Some? {
        circuit.AddConnection(added.value);
      }
      CancelWiring();
    }

    /** `start_simulation`: only a stopped canvas starts, and only then is
        the engine reset. */
    method StartSimulation()
      modifies this, engine
      ensures simulationRunning && Wiring() == old(Wiring())
      ensures old(simulationRunning) ==>
        engine.time == old(engine.time) && engine.nodeVoltages == old(engine.nodeVoltages)
        && engine.componentCurrents == old(engine.componentCurrents)
      ensures !old(simulationRunning) ==>
        engine.time == 0.0 && engine.nodeVoltages == map[] && engine.componentCurrents == map[]
      ensures engine.nodes == old(engine.nodes) && engine.pinToNode == old(engine.pinToNode)
    {
      if !simulationRunning {
        simulationRunning := true;
        engine.Reset();
      }
    }

    /** `stop_simulation`: the flag drops, nothing else changes. */
    method StopSimulation()
      modifies this
      ensures !simulationRunning && Wiring() == old(Wiring())
    {
      if simulationRunning {
        simulationRunning := false;
      }
    }
  }
}
