/** The circuit that examples/battery_led.py:28-68 builds: a stock battery,
    resistor and LED, added in that order, wired battery `positive` to
    resistor `pin1`, resistor `pin2` to LED `anode`, and LED `cathode` to
    battery `negative`. The lemmas compute what one simulation step gives
    for it. The engine never solves the node between the resistor and the
    LED, so that node stays at 0 V and the LED stays dark. */
module BatteryLed {
  import opened Basics
  import opened Components
  import opened NodeMaps
  import opened DcModel
  import opened Canvas

  /** The three component ids (uuids in the source). */
  const Bat := "b"
  const Res := "r"
  const Led := "l"

  const Order := [Bat, Res, Led]

  function Wires(): seq<Connection> {
    [ NewConnection(Bat, "positive", Res, "pin1", "w1"),
      NewConnection(Res, "pin2", Led, "anode", "w2"),
      NewConnection(Led, "cathode", Bat, "negative", "w3") ]
  }

  /** The part the factory makes for `kind`. */
  function Stock(kind: string): Part
    requires kind == "battery" || kind == "led" || kind == "resistor"
  {
    var d := Blueprint(kind).value;
    Part(d.kind, PinNames(d.pins), d.properties)
  }

  function Layout(): map<string, Part> {
    map[Bat := Stock("battery"), Res := Stock("resistor"), Led := Stock("led")]
  }

  const BP := PinRef(Bat, "positive")
  const BN := PinRef(Bat, "negative")
  const R1 := PinRef(Res, "pin1")
  const R2 := PinRef(Res, "pin2")
  const LA := PinRef(Led, "anode")
  const LC := PinRef(Led, "cathode")

  /** The six pins of the circuit are six different pins. */
  lemma RefsDistinct()
    ensures BP != BN && BP != R1 && BP != R2 && BP != LA && BP != LC
    ensures BN != R1 && BN != R2 && BN != LA && BN != LC
    ensures R1 != R2 && R1 != LA && R1 != LC
    ensures R2 != LA && R2 != LC && LA != LC
  {
    assert Bat[0] != Res[0] && Bat[0] != Led[0] && Res[0] != Led[0];
    assert "positive"[0] != "negative"[0] && "pin1"[3] != "pin2"[3] && |"anode"| != |"cathode"|;
  }

  /** The node map after the first wire: n0 holds its two ends. */
  function W1(): NodeMap {
    NodeMap(map[Gnd := [], Net(0) := [BP, R1]], map[BP := Net(0), R1 := Net(0)], 1)
  }

  function W2(): NodeMap {
    NodeMap(W1().nodes[Net(1) := [R2, LA]], W1().pinToNode[R2 := Net(1)][LA := Net(1)], 2)
  }

  function W3(): NodeMap {
    NodeMap(W2().nodes[Net(2) := [LC, BN]], W2().pinToNode[LC := Net(2)][BN := Net(2)], 3)
  }

  lemma Wire1()
    ensures Wire(Wires()[..1]) == W1()
  {
    var cs := Wires();
    assert cs[..1][..0] == [];
    assert AddWire(Start(), cs[0]) == W1();
  }

  /** The second wire meets no pin seen before: it opens n1. */
  lemma Add2()
    requires Coherent(W1())
    ensures AddWire(W1(), Wires()[1]) == W2()
  {
    assert R2 !in W1().pinToNode && LA !in W1().pinToNode;
  }

  /** The third wire meets no pin seen before: it opens n2. */
  lemma Add3()
    requires Coherent(W2())
    ensures AddWire(W2(), Wires()[2]) == W3()
  {
    assert LC !in W2().pinToNode && BN !in W2().pinToNode;
  }

  lemma Wire2()
    ensures Wire(Wires()[..2]) == W2()
  {
    Wire1();
    WireStep(Wires(), 1);
    Add2();
  }

  /** The connection loop: each wire opens a node of its own. */
  lemma Wired3()
    ensures Wire(Wires()) == W3()
  {
    var cs := Wires();
    Wire2();
    WireStep(cs, 2);
    Add3();
    assert cs[..3] == cs;
  }

  /** The node map `build_node_map` leaves: the third wire's node has
      become 'gnd'. */
  function Nodes(): map<NodeId, seq<PinRef>> {
    W3().nodes[Gnd := [LC, BN]] - {Net(2)}
  }

  function PinNodes(): map<PinRef, NodeId> {
    W3().pinToNode[LC := Gnd][BN := Gnd]
  }

  /** Relabelling the pins of `[a, b]`, one after the other. */
  lemma RelabelPair(ptn: map<PinRef, NodeId>, a: PinRef, b: PinRef, target: NodeId)
    ensures Relabel(ptn, [a, b], target) == ptn[a := target][b := target]
  {
    assert Relabel(ptn, [], target) == ptn;
    RelabelSnoc(ptn, [], a, target);
    RelabelSnoc(ptn, [a], b, target);
    assert [] + [a] == [a] && [a] + [b] == [a, b];
  }

  /** The grounding loop: only the battery, first in order, does anything. */
  lemma W3Coherent()
    ensures Coherent(W3())
  {
    Wired3();
  }

  lemma Fused()
    ensures Coherent(W3()) && Fuse(W3(), Order, Layout()) == GroundNode(W3(), Bat)
  {
    W3Coherent();
    Parts();
    var w := W3();
    FuseSnoc(w, Order, Layout(), 0);
    FuseSnoc(w, Order, Layout(), 1);
    FuseSnoc(w, Order, Layout(), 2);
    assert Order[..0] == [] && Order[..3] == Order;
  }

  lemma Grounded()
    requires Coherent(W3())
    ensures GroundNode(W3(), Bat) == NodeMap(Nodes(), PinNodes(), 3)
  {
    RefsDistinct();
    var w := W3();
    assert NegativeOf(Bat) == BN && BN in w.pinToNode && w.pinToNode[BN] == Net(2);
    assert w.nodes[Net(2)] == [LC, BN] && w.nodes[Gnd] == [];
    assert w.nodes[Gnd] + w.nodes[Net(2)] == [LC, BN];
    RelabelPair(w.pinToNode, LC, BN, Gnd);
    var g := GroundNode(w, Bat);
    assert g.nodes == Nodes();
    assert g.pinToNode == PinNodes();
  }

  /** `build_node_map` gives the map above. */
  lemma NodesBuilt()
    ensures BuildNodes(Wires(), Order, Layout()) == NodeMap(Nodes(), PinNodes(), 3)
  {
    Wired3();
    Fused();
    Grounded();
  }

  /** The battery's `negative` node has become 'gnd', so the nodes are
      'gnd', n0 and n1, each with the two pins of one wire. */
  lemma NodeTable()
    ensures Nodes().Keys == {Gnd, Net(0), Net(1)}
    ensures Nodes()[Gnd] == [LC, BN] && Nodes()[Net(0)] == [BP, R1] && Nodes()[Net(1)] == [R2, LA]
    ensures PinNodes().Keys == {BP, R1, R2, LA, LC, BN}
    ensures PinNodes()[BP] == Net(0) && PinNodes()[R1] == Net(0)
    ensures PinNodes()[R2] == Net(1) && PinNodes()[LA] == Net(1)
    ensures PinNodes()[LC] == Gnd && PinNodes()[BN] == Gnd
  {
    RefsDistinct();
  }

  function Voltages(): map<NodeId, real> {
    map[Gnd := 0.0, Net(0) := 5.0, Net(1) := 0.0]
  }

  /** The parts as the engine reads them. */
  lemma Parts()
    ensures Layout().Keys == {Bat, Res, Led}
    ensures Layout()[Bat] == Part("battery", ["positive", "negative"], map["voltage" := Number(5.0)])
    ensures Layout()[Res] == Part("resistor", ["pin1", "pin2"], map["resistance" := Number(220.0)])
    ensures Layout()[Led].kind == "led"
  {
    FactoryDefaults();
    assert Bat[0] != Res[0] && Bat[0] != Led[0] && Res[0] != Led[0];
  }

  /** The first loop of `solve_dc_circuit` sets the three nodes to 0 V. */
  lemma ZeroTable()
    ensures Zeroed(map[], Nodes()) == map[Gnd := 0.0, Net(0) := 0.0, Net(1) := 0.0]
  {
    NodeTable();
  }

  /** The second loop: the battery drives n0; the others are no batteries. */
  lemma Driven(z: map<NodeId, real>)
    ensures Drive(z, PinNodes(), Order, Layout()) == z[Net(0) := 5.0]
  {
    Parts();
    NodeTable();
    var ptn, layout := PinNodes(), Layout();
    assert Order[..2] == [Bat, Res] && [Bat, Res][..1] == [Bat] && [Bat][..0] == [];
    assert PositiveOf(Bat) == BP && BatteryVoltage(layout[Bat]) == 5.0;
    assert Drive(z, ptn, [Bat], layout) == z[Net(0) := 5.0];
    assert Drive(z, ptn, [Bat, Res], layout) == Drive(z, ptn, [Bat], layout);
  }

  /** `solve_dc_circuit` from an empty table: n0 holds the battery's 5 V,
      n1 and 'gnd' hold 0 V. */
  lemma VoltagesSolved()
    ensures Solved(map[], NodeMap(Nodes(), PinNodes(), 3), Order, Layout()) == Voltages()
  {
    ZeroTable();
    Driven(Zeroed(map[], Nodes()));
  }

  function Env0(): Env {
    Env(Voltages(), PinNodes(), Wires(), Order, Layout())
  }

  /** The resistor sees 5 V across it and carries 5/220 A. */
  lemma ResistorCurrent()
    ensures var d := Blueprint("resistor").value;
      var u := ResistorUpdate(d.pins, Res, d.properties, Env0());
      && u.pins[0].voltage == 5.0 && u.pins[1].voltage == 0.0
      && u.pins[0].current == 5.0 / 220.0 && u.pins[1].current == -(5.0 / 220.0)
  {
    var d := Blueprint("resistor").value;
    ResistorLaw(d.pins, Res, d.properties, Env0());
  }

  /** The LED sees no drop, so it carries no current and is not lit. */
  lemma LedDark()
    ensures var d := Blueprint("led").value;
      var u := LedUpdate(d.pins, Led, d.properties, Env0());
      && !u.raised && u.pins[0].current == 0.0 && u.pins[1].current == 0.0
      && !LedState(u.pins).lit
  {
    var d := Blueprint("led").value;
    var env := Env0();
    assert PinNodes()[LA] == Net(1) && PinNodes()[LC] == Gnd;
    assert NodeVoltage(env.nv, env.ptn, LA) == 0.0 && NodeVoltage(env.nv, env.ptn, LC) == 0.0;
    LedLaw(d.pins, Led, d.properties, env);
    var u := LedUpdate(d.pins, Led, d.properties, env);
    assert FirstPin(u.pins, "anode") == Some(0);
  }

  /** The battery delivers the resistor's 5/220 A from `positive` and takes
      it back at `negative`. */
  lemma BatteryCurrent()
    ensures var d := Blueprint("battery").value;
      var u := BatteryUpdate(d.pins, Bat, d.properties, Env0());
      && !u.raised && u.pins[0].voltage == 5.0 && u.pins[1].voltage == 0.0
      && u.pins[0].current == 5.0 / 220.0 && u.pins[1].current == -(5.0 / 220.0)
  {
    var d := Blueprint("battery").value;
    var env := Env0();
    assert FirstPin(d.pins, "positive") == Some(0) && FirstPin(d.pins, "negative") == Some(1);
    BatteryLaw(d.pins, Bat, d.properties, env);
    BatteryOutput();
  }

  /** `calculate_output_current` for the battery: 5 V over the one
      resistor on n0. */
  lemma BatteryOutput()
    ensures OutputCurrent(Bat, "positive", 5.0, Order, Layout(), PinNodes()) == Amps(5.0 / 220.0)
  {
    var env := Env0();
    OutputCurrentLaw(Bat, "positive", 5.0, env);
    LoadOnlyResistor();
    NodeTable();
  }

  /** What each component adds to the conductance of n0. */
  lemma Gains()
    ensures Gain(Layout(), PinNodes(), Net(0), Bat) == 0.0
    ensures Gain(Layout(), PinNodes(), Net(0), Res) == 1.0 / 220.0
    ensures Gain(Layout(), PinNodes(), Net(0), Led) == 0.0
    ensures ResistanceOr(Layout()[Res], 1000.0) == 220.0
  {
    Parts();
    NodeTable();
    assert OnNode(["pin1", "pin2"], Res, PinNodes(), Net(0)) by {
      assert ["pin1", "pin2"][0] == "pin1";
    }
  }

  /** Only the resistor loads n0, with a conductance of 1/220, and its
      resistance is not zero. */
  lemma LoadOnlyResistor()
    ensures !ZeroLoadIn(Order, Layout(), PinNodes(), Net(0))
    ensures Conductance(Order, Layout(), PinNodes(), Net(0)) == 1.0 / 220.0
  {
    Parts();
    Gains();
    var layout, ptn := Layout(), PinNodes();
    assert Order[..2] == [Bat, Res] && [Bat, Res][..1] == [Bat] && [Bat][..0] == [];
    var t := id => Gain(layout, ptn, Net(0), id);
    assert SumOver([Bat], t) == 0.0;
    assert SumOver([Bat, Res], t) == 1.0 / 220.0;
    forall i | 0 <= i < |Order|
      ensures !(LoadOn(Order, layout, ptn, Net(0), Order[i]) && ResistanceOr(layout[Order[i]], 1000.0) == 0.0)
    {
    }
  }
}
