# Arduino circuit simulator: circuit model and DC engine in Dafny

This project models the core of a desktop Arduino circuit simulator (Python and Qt) and proves properties of that model. The core covers five areas.

- **Circuit data model** (`component.dfy`, `circuit.dfy`, `project.dfy`):
  - pins, components and connections, with their defaults;
  - the circuit's component dictionary and connection list, and the operations that add, remove and query them;
  - `validate`, which reports floating components and battery short circuits;
  - the project record and its modified flag.
- **Simulation engine** (`engine.dfy`, proved against `node_map.dfy`, `dc_model.dfy` and `wiring.dfy`). It is the class `SimulationEngine`, one time step at a time.
  - Building the node map: pins joined by wires share a node, and every node holding a battery's `negative` pin is fused into `gnd`.
  - Setting the node voltages.
  - Writing each battery's, resistor's and LED's pin voltages and currents.
- **Canvas decision logic** (`canvas.dfy`):
  - the component factory;
  - the wiring state machine, which appends connections to the circuit;
  - the start/stop simulation switch;
  - the thresholds that pick a pin's colour, an LED's brightness and a wire's highlight.
- **Component panel** (`panel.dfy`): the classifier that turns a list entry's text into a component type, and the double-click filter in front of it. A blank, for `strip()`, is a character that Python's `str.isspace()` accepts: the control characters 9–13 and 28–31, the space, U+0085, U+00A0, U+1680, U+2000–U+200A, U+2028, U+2029, U+202F, U+205F and U+3000 (`Panel.IsSpace`).
- **A worked circuit** (`example.dfy`): the battery, 220 Ω resistor and LED loop built by the demo driver `examples/battery_led.py`. It computes what one simulation step produces for that circuit.

Mutable objects are classes whose methods are proved against value-level specification functions:
- `Component`, `Circuit`, `SimulationEngine`, `Project` and `CanvasView`.

The node-map construction, the solved voltages and the per-component updates are functions on values. The lemmas beside them state what the engine promises.

What the engine actually computes is simpler than its docstrings suggest. The model follows the code.

- There is no matrix solve. `update_node_voltage` has an empty body, so the relaxation loop stops after its first pass (`Simulation.SimulationEngine.Relax`).
  - Every node is at 0 V, except a node holding a battery's `positive` pin. That node holds the voltage of the last such battery in dictionary order (`DcModel.SolvedVoltage`).
  - The node between the resistor and the LED of the demo circuit therefore stays at 0 V. The LED carries no current and stays dark (`BatteryLed.LedDark`).
  - The demo driver prints an expectation of about 13.6 mA and a lit LED (`examples/battery_led.py:109-113`). The engine does not produce that.
- The `gnd` node can list a pin twice. When a battery's negative pin is already on `gnd`, the `gnd` list is extended with itself. The model keeps the duplicates, and `NodeMaps.SelfGroundCoherent` shows that the pin-to-node map is unaffected.
- The panel can emit `button` and `potentiometer`, but the canvas factory builds only batteries, LEDs and resistors (`Canvas.Blueprint`).
- A resistor of 0 Ω makes Python raise `ZeroDivisionError` in two places: the battery load sum and the LED series-resistor formula. The model returns the outcome `DivisionByZero` and stops the update pass there. The `update_resistor` guard `resistance > 0` is modelled as written.

Python dictionaries iterate in insertion order. `Circuit` keeps that order in `order`. It decides three things:
- which battery wins a shared positive node;
- the order of `validate`'s messages;
- which components are updated before a `ZeroDivisionError` stops `update_component_states` (`DcModel.RunFirstRaise`).

Re-adding an existing id keeps its place, as Python does.

## Model

| member | source | states |
|---|---|---|
| Components.NewPin | src/models/component.py:10-18 | a new pin has the given name, type and position, voltage 0, current 0 and no connection ids |
| Components.NewConnection | src/models/component.py:46-54 | a new connection joins the given source pin to the given target pin, keeps its id and has wire resistance 0.001 |
| Components.FirstPin | src/models/component.py:30-35 | the index of the first pin with that name, no earlier pin has it; None exactly when no pin has the name |
| Components.NumberOr | src/simulation/engine.py:168 | `properties.get(key, default)` read as a number: the stored number when the key is present, the default when it is absent |
| Components.Component.constructor | src/models/component.py:21-28 | a component holds the type, name, pins, properties and id it is given |
| Components.Component.GetPin | src/models/component.py:30-35 | the linear search returns the first pin with the name, or None when there is none |
| Components.Component.GetProperty | src/models/component.py:41-43 | the stored value when the key is present, otherwise the default |
| Components.Component.SetProperty | src/models/component.py:37-39 | afterwards the key reads as the new value whatever the default, every other key reads as before, and the pins are untouched |
| Basics.FilterIdempotent | src/models/circuit.py:41-44 | filtering a list twice with one condition is filtering it once |
| Basics.FilterDistinct | src/models/circuit.py:29 | deleting a key by filtering the iteration order keeps every remaining key listed once |
| Circuits.ConnectionsFor | src/models/circuit.py:46-51 | exactly the connections that have the component at either end |
| Circuits.ConnectionsForAppend | src/models/circuit.py:46-51 | list order is kept: a connection appended to the list is appended to the result exactly when it touches the component |
| Circuits.Detach | src/models/circuit.py:25-28 | exactly the connections that have the component at neither end |
| Circuits.WithoutConnection | src/models/circuit.py:41-44 | exactly the connections whose id differs |
| Circuits.WithoutConnectionIdempotent | src/models/circuit.py:39-44 | removing a connection id twice is removing it once |
| Circuits.WithoutConnectionAppend | src/models/circuit.py:39-44 | removal works entry by entry, so the survivors keep their order |
| Circuits.WithoutAbsentConnection | src/models/circuit.py:39-44 | removing an id no connection has changes nothing |
| Circuits.MessagesAppend | src/models/circuit.py:53-86 | the messages of two problem lists in a row are the two message lists in a row |
| Circuits.Circuit.constructor | src/models/circuit.py:13-15 | a new circuit has no components and no connections, and is named "Untitled Circuit" |
| Circuits.Circuit.AddComponent | src/models/circuit.py:17-19 | the component is stored under its own id and replaces any earlier one there; a new id goes last in the iteration order, an existing id keeps its place; connections and name unchanged; `GetComponent` then finds it |
| Circuits.Circuit.RemoveComponent | src/models/circuit.py:21-29 | a present id loses its component and every connection touching it, the other connections stay in order, and the other keys keep their insertion order (`order` is the old order without the id); an absent id changes nothing; afterwards the id is unknown |
| Circuits.Circuit.GetComponent | src/models/circuit.py:31-33 | None exactly for an unknown id, otherwise the stored component |
| Circuits.Circuit.AddConnection | src/models/circuit.py:35-37 | the connection is appended at the end, duplicates allowed, nothing else changes |
| Circuits.Circuit.RemoveConnection | src/models/circuit.py:39-44 | every connection with that id goes, the others keep their order, nothing else changes |
| Circuits.Circuit.GetConnectionsFor | src/models/circuit.py:46-51 | exactly the connections touching the component |
| Circuits.Circuit.FloatingProblems | src/models/circuit.py:57-61 | the first pass reports only floating components |
| Circuits.Circuit.FloatingMembership | src/models/circuit.py:57-61 | a component is reported floating exactly when it is listed, has no connection and is not a battery; the report carries its name |
| Circuits.Circuit.FloatingReported | src/models/circuit.py:57-61 | some floating report names a component exactly when it floats (the reference predicate `Floats`: listed, not a battery, touched by no connection), so never a battery |
| Circuits.Circuit.ReportFloating | src/models/circuit.py:57-61 | the loop over the components, in dictionary order, emits exactly the floating messages |
| Circuits.Circuit.ShortsFor | src/models/circuit.py:75-84 | the inner loop reports only this battery's short circuit |
| Circuits.Circuit.ShortsForIff | src/models/circuit.py:75-84 | a positive-pin connection yields a report exactly when its far component is a battery and it bridges some negative-pin connection |
| Circuits.Circuit.ShortsAcross | src/models/circuit.py:75-84 | the nested loops report only this battery's short circuit |
| Circuits.Circuit.ShortsAcrossIff | src/models/circuit.py:75-84 | the nested loops report something exactly when some positive-pin connection meets the condition of `ShortsForIff` |
| Circuits.Circuit.ShortsAgainst | src/models/circuit.py:76-84 | the loop over the negative-pin connections emits exactly the messages `ShortsFor` defines |
| Circuits.Circuit.CountShorts | src/models/circuit.py:65-84 | for one battery, the connection lists at its two terminals and the nested loops emit exactly that battery's short messages |
| Circuits.Circuit.ShortProblems | src/models/circuit.py:63-84 | the second pass reports only short circuits |
| Circuits.Circuit.ReportShorts | src/models/circuit.py:63-84 | the loop over the components emits exactly the short-circuit messages, in dictionary order |
| Circuits.Circuit.BatteryShortsIff | src/models/circuit.py:63-84 | a battery produces a short message exactly when a positive-pin connection bridges a negative-pin connection through a battery |
| Circuits.Circuit.ShortReported | src/models/circuit.py:63-84 | a short circuit is reported for a component exactly when it is `Shorted`: a listed battery with a positive-pin and a negative-pin connection that pass the bridge test, the positive one leading to a battery |
| Circuits.Circuit.Validate | src/models/circuit.py:53-86 | the floating messages, then the short-circuit messages |
| Circuits.Circuit.Problems | src/models/circuit.py:53-86 | no floating-component report comes after a short-circuit report |
| Circuits.Circuit.SelfShortReported | src/models/circuit.py:63-84 | a connection joining a battery's own positive and negative pins is always reported as a short circuit |
| Circuits.Circuit.ShortNeedsBatteryLoad | src/models/circuit.py:79-84 | a short is reported only for a battery with a positive-pin connection whose far component is itself a battery |
| Wiring.WiredRefl | src/simulation/engine.py:38-39 | every pin is joined to itself |
| Wiring.WiredByConnection | src/simulation/engine.py:38-39 | the two ends of a connection are joined |
| Wiring.WiredTrans | src/simulation/engine.py:38-39 | joined pins chain: being joined is transitive |
| Wiring.WiredExtend | src/simulation/engine.py:49-78 | adding a connection never separates joined pins |
| Wiring.WiredEnds | src/simulation/engine.py:49-78 | two distinct joined pins both appear in some connection |
| Wiring.WiredSameLabel | src/simulation/engine.py:49-78 | a labelling that gives both ends of every connection one label gives every chain of connections one label |
| NodeMaps.Start | src/simulation/engine.py:40-47 | the empty map with only `gnd` is consistent and grounds nothing |
| NodeMaps.Relabel | src/simulation/engine.py:61-62 | the listed pins point at the target node, every other pin keeps its node |
| NodeMaps.RelabelTwice | src/simulation/engine.py:87-89 | relabelling a pin list written twice is relabelling it once |
| NodeMaps.MergeEffect | src/simulation/engine.py:57-63 | a wire between two nodes moves every pin of the target node to the source node and keeps every other pin where it was; the map stays consistent |
| NodeMaps.ExtendEffect | src/simulation/engine.py:64-71 | a wire from a known pin to a new pin adds the new pin to the known node and keeps the map consistent |
| NodeMaps.FreshEffect | src/simulation/engine.py:72-78 | a wire between two new pins opens the node `n<counter>`, which no pin used before |
| NodeMaps.AddWireEffect | src/simulation/engine.py:49-78 | one iteration of the connection loop: afterwards both ends share a node; the pins with a node are the old ones plus the two ends; the map stays consistent |
| NodeMaps.AddWire | src/simulation/engine.py:50-78 | after one connection both of its ends have a node, and it is the same node |
| NodeMaps.Wire | src/simulation/engine.py:49-78 | the connection loop's result is consistent (`p` is listed in `nodes[n]` exactly when `pin_to_node[p] == n`) and puts no pin on `gnd` |
| NodeMaps.WireStep | src/simulation/engine.py:49-78 | the loop over a list prefix is that loop followed by one more connection |
| NodeMaps.AddWirePartitions | src/simulation/engine.py:49-78 | one connection preserves the loop invariant: the nodes are exactly the chains of the connections seen so far |
| NodeMaps.WirePartitions | src/simulation/engine.py:49-78 | after the loop a pin has a node exactly when it is in some connection, each connection's ends share a node, and pins sharing a node are joined by a chain |
| NodeMaps.SameNetIffWired | src/simulation/engine.py:38-78 | after the loop two connected pins share a node exactly when a chain of connections joins them, and an unconnected pin has no node |
| NodeMaps.SelfGroundCoherent | src/simulation/engine.py:86-89 | extending `gnd` with itself duplicates its list but changes no pin's node |
| NodeMaps.GroundNodeCoherent | src/simulation/engine.py:82-91 | grounding one battery moves every pin of its negative pin's node to `gnd`, keeps the other pins, and is a no-op when the negative pin is unconnected |
| NodeMaps.GroundNode | src/simulation/engine.py:82-91 | after grounding a battery whose negative pin has a node, that pin is on `gnd` |
| NodeMaps.Fuse | src/simulation/engine.py:81-91 | the grounding loop keeps the map consistent |
| NodeMaps.FuseSnoc | src/simulation/engine.py:81-91 | the grounding loop over a prefix is that loop followed by one more component, which grounds only if it is a battery |
| NodeMaps.FuseStep | src/simulation/engine.py:80-91 | grounding one more battery preserves the invariant: a pin is on `gnd` exactly when its wired node held the negative pin of a battery seen so far |
| NodeMaps.FuseKeys | src/simulation/engine.py:80-91 | grounding gives no pin a node and takes none away |
| NodeMaps.FuseGrounds | src/simulation/engine.py:80-91 | after grounding a pin is on `gnd` exactly when its wired node held some battery's negative pin, and otherwise keeps its wired node |
| NodeMaps.BuildNodes | src/simulation/engine.py:36-93 | the finished node map is consistent and `gnd` exists |
| NodeMaps.GroundedByIffOnGround | src/simulation/engine.py:80-91 | a pin's wired node holds a battery's negative pin exactly when a chain joins the pin to that negative pin |
| NodeMaps.NodeMapShape | src/simulation/engine.py:40-93 | `gnd` always exists; a pin has an entry exactly when it is in some connection; a pin is listed in node `n` exactly when it points at `n` |
| NodeMaps.GroundIffBatteryNegative | src/simulation/engine.py:80-91 | a pin is on `gnd` exactly when a chain joins it to a connected battery's negative pin; otherwise it keeps the node the connection loop gave it |
| NodeMaps.SameNodeIff | src/simulation/engine.py:36-93 | two pins share a node exactly when a chain of connections joins them or both are joined to battery negatives |
| DcModel.Zeroed | src/simulation/engine.py:100-101 | every node of the map is set to 0, every other entry is kept |
| DcModel.NodeVoltage | src/simulation/engine.py:195-196 | a pin reads its node's voltage; a pin without a node reads the voltage of `gnd`; a node without a voltage reads 0 |
| DcModel.Drive | src/simulation/engine.py:104-110 | setting source voltages removes no node's voltage |
| DcModel.LastSource | src/simulation/engine.py:104-110 | the last battery, in dictionary order, whose positive pin is on the node; None exactly when no battery's positive pin is there |
| DcModel.DriveValue | src/simulation/engine.py:104-110 | a node gets the voltage of the last battery whose positive pin is on it and otherwise keeps its value; no key is added |
| DcModel.SolvedVoltage | src/simulation/engine.py:100-110 | after zeroing and driving, every node is at 0 V except a node holding a battery's positive pin, which holds the last such battery's voltage |
| DcModel.Solved | src/simulation/engine.py:100-110 | afterwards every node of the map, and every node that had a voltage before, has a voltage |
| DcModel.LoadCurrentStep | src/simulation/engine.py:252-258 | one more component adds `V/R` exactly when it is a resistor with a pin on the node |
| DcModel.LoadCurrentStuck | src/simulation/engine.py:252-258 | once the sum has divided by zero the whole call fails |
| DcModel.LoadCurrentRaises | src/simulation/engine.py:252-258 | the load sum fails exactly when some resistor on the node has resistance 0 |
| DcModel.LoadCurrentValue | src/simulation/engine.py:252-258 | otherwise the load sum is the sum of `V/R` over the resistors on the node |
| DcModel.LoadCurrent | src/simulation/engine.py:252-258 | at 0 V the load sum, when it does not fail, is 0 A |
| DcModel.OutputCurrent | src/simulation/engine.py:245-247 | a battery pin without a node delivers 0 A |
| DcModel.OhmSumScales | src/simulation/engine.py:257-258 | that sum is the battery voltage times the total conductance of the resistors on the node |
| DcModel.SeriesResistor | src/simulation/engine.py:265-276 | the first connection touching the LED whose other end is a resistor; no earlier touching connection leads to a resistor |
| DcModel.LedDrive | src/simulation/engine.py:262-279 | 1 mA when no series resistor is found; never negative when it does not fail |
| DcModel.LedCurrent | src/simulation/engine.py:225-234 | 0 A unless the drop across the LED exceeds the forward voltage, and it can fail only then; otherwise it lies between 0 and `max_current` |
| DcModel.OhmCurrent | src/simulation/engine.py:202 | for a positive resistance the current times the resistance is the voltage difference; otherwise the current is 0 |
| DcModel.ResistorUpdate | src/simulation/engine.py:183-204 | a resistor update keeps the pin names and never fails |
| DcModel.ResistorLaw | src/simulation/engine.py:183-204 | pin1 and pin2 take their nodes' voltages (an unconnected pin reads `gnd`); pin1 carries Ohm's-law current, pin2 its negation; no other pin changes |
| DcModel.LedCurrentLaw | src/simulation/engine.py:225-279 | LED current is 0 unless the drop exceeds the forward voltage; otherwise it is at most `max_current`, equals `min(max(0,(drop-Vf)/R), max_current)` with the first series resistor, or `min(0.001, max_current)` without one; it fails exactly for a 0 Ω series resistor |
| DcModel.LedUpdate | src/simulation/engine.py:206-237 | an LED update keeps the pin names |
| DcModel.LedLaw | src/simulation/engine.py:206-237 | anode and cathode take their nodes' voltages; the update fails exactly when the conduction current does, leaving both currents as they were; otherwise the anode carries the conduction current and the cathode its negation; no other pin and no other pin field changes |
| DcModel.OutputCurrentLaw | src/simulation/engine.py:239-260 | a battery's output is 0 when its pin is unconnected; it fails exactly when a 0 Ω resistor sits on the node; otherwise it is the battery voltage times the conductance of the resistors on the node |
| DcModel.BatteryUpdate | src/simulation/engine.py:166-181 | a battery update keeps the pin names |
| DcModel.BatteryLaw | src/simulation/engine.py:166-181 | with a positive pin: it reads the battery voltage; the update fails exactly when the output current does, leaving that pin's current and the negative pin as they were; otherwise the positive pin carries the output current and the negative pin, if any, reads 0 V and the opposite current. Without a positive pin the negative pin reads 0 V and 0 A. No other pin and no other pin field changes |
| DcModel.ComponentUpdate | src/simulation/engine.py:157-164 | any update keeps pin names; components other than batteries and LEDs never fail |
| DcModel.UpdateRaises | src/simulation/engine.py:157-237 | an update fails exactly for a battery with a 0 Ω resistor on its positive node, or a forward-biased LED whose series resistor is 0 Ω |
| DcModel.Run | src/simulation/engine.py:152-155 | the pass over the components neither adds nor drops a component |
| DcModel.FirstRaise | src/simulation/engine.py:152-155 | the position of the first component whose update fails; none before it fails |
| DcModel.RunSnoc | src/simulation/engine.py:152-155 | the pass over a prefix is that pass plus one more update, skipped once a failure has happened |
| DcModel.RunStuck | src/simulation/engine.py:152-155 | after a failure no later component changes |
| DcModel.RunFirstRaise | src/simulation/engine.py:152-155 | the pass fails exactly when some update fails; every component up to and including the first failure is updated, the rest keep their pins |
| Simulation.SimulationEngine.constructor | src/simulation/engine.py:15-19 | a new engine is at time 0 with empty voltage and current tables |
| Simulation.SimulationEngine.Reset | src/simulation/engine.py:21-25 | time is 0 and both tables are empty; the node map is untouched |
| Simulation.SimulationEngine.RelabelAll | src/simulation/engine.py:61-62 | the loop points every listed pin at the target node |
| Simulation.SimulationEngine.AddWireStep | src/simulation/engine.py:50-78 | one iteration of the connection loop, including the counter, does what `AddWire` defines |
| Simulation.SimulationEngine.WireConnections | src/simulation/engine.py:49-78 | the connection loop leaves the node map that `Wire` defines |
| Simulation.SimulationEngine.GroundStep | src/simulation/engine.py:82-91 | grounding one battery does what `GroundNode` defines |
| Simulation.SimulationEngine.GroundBatteries | src/simulation/engine.py:81-91 | the grounding loop leaves the node map that `Fuse` defines |
| Simulation.SimulationEngine.BuildNodeMap | src/simulation/engine.py:36-93 | the fields hold the node map that `BuildNodes` defines; voltages and time are untouched |
| Simulation.SimulationEngine.ZeroNodes | src/simulation/engine.py:100-101 | every node's voltage is set to 0, other entries kept |
| Simulation.SimulationEngine.DriveSources | src/simulation/engine.py:104-110 | the battery loop sets the voltages that `Drive` defines |
| Simulation.SimulationEngine.IsSourceNode | src/simulation/engine.py:126-131 | true exactly when some pin of the node is a battery's positive pin |
| Simulation.SimulationEngine.UpdateNodeVoltage | src/simulation/engine.py:146-150 | changes nothing |
| Simulation.SimulationEngine.RelaxPass | src/simulation/engine.py:121-138 | one pass over the nodes changes nothing |
| Simulation.SimulationEngine.MaxChange | src/simulation/engine.py:141-142 | the largest change of any node since the pass began |
| Simulation.SimulationEngine.Relax | src/simulation/engine.py:114-150 | the relaxation loop always stops after exactly one pass |
| Simulation.SimulationEngine.SolveDcCircuit | src/simulation/engine.py:95-144 | the node voltages become those `Solved` defines (see `DcModel.SolvedVoltage`) |
| Simulation.SimulationEngine.IsComponentOnNode | src/simulation/engine.py:281-288 | true exactly when one of the component's pins points at the node |
| Simulation.SimulationEngine.CalculateOutputCurrent | src/simulation/engine.py:239-260 | the loop returns the load sum `OutputCurrent` defines (see `DcModel.OutputCurrentLaw`) |
| Simulation.SimulationEngine.CalculateLedCurrent | src/simulation/engine.py:262-279 | the loop returns the series-resistor current `LedDrive` defines |
| Simulation.SimulationEngine.LedConduction | src/simulation/engine.py:226-234 | the forward-bias test and clamp give `LedCurrent` |
| Simulation.SimulationEngine.DriveLed | src/simulation/engine.py:219-237 | the LED's pins get the node voltages and the conduction current |
| Simulation.SimulationEngine.UpdateBattery | src/simulation/engine.py:166-181 | the battery's pins become what `BatteryUpdate` defines (see `DcModel.BatteryLaw`); properties untouched |
| Simulation.SimulationEngine.UpdateResistor | src/simulation/engine.py:183-204 | the resistor's pins become what `ResistorUpdate` defines (see `DcModel.ResistorLaw`) |
| Simulation.SimulationEngine.UpdateLed | src/simulation/engine.py:206-237 | the LED's pins become what `LedUpdate` defines (see `DcModel.LedLaw`) |
| Simulation.SimulationEngine.UpdateComponent | src/simulation/engine.py:157-164 | dispatch on the type; other types are left alone |
| Simulation.SimulationEngine.UpdateComponentStates | src/simulation/engine.py:152-155 | all pins become what `Run` defines for the components in dictionary order (see `DcModel.RunFirstRaise`); the engine's inputs are unchanged |
| Simulation.SimulationEngine.Prepare | src/simulation/engine.py:32-33 | the node map is `BuildNodes` of the circuit and the voltages are `Solved` on it |
| Simulation.SimulationEngine.Step | src/simulation/engine.py:27-34 | time grows by exactly `dt`; the node map and voltages are rebuilt from the circuit; every component's pins are updated as `Run` defines; the circuit's layout is unchanged |
| Projects.Project.constructor | src/models/project.py:13-18 | a new project has an empty circuit, no sketch, no file name, is unmodified, targets "arduino:avr:uno" and has no port |
| Projects.Project.MarkModified | src/models/project.py:20-22 | the flag is set and nothing else changes |
| Projects.Project.MarkSaved | src/models/project.py:24-26 | the flag is cleared and nothing else changes |
| Projects.MarkingSequence | src/models/project.py:20-26 | marking modified twice and then saved twice leaves an unmodified project with the same settings |
| Canvas.Blueprint | src/ui/canvas_view.py:361-393 | a part exactly for "battery", "led" and "resistor", None for anything else; two fresh pins at 0 V and 0 A |
| Canvas.FactoryDefaults | src/ui/canvas_view.py:363-392 | battery pins positive/negative at 5 V; LED pins anode/cathode, forward voltage 2.0, max current 0.020, red; resistor pins pin1/pin2 at 220 Ω |
| Canvas.CreateComponent | src/ui/canvas_view.py:361-393 | a fresh component with the factory's fields exactly for the three known types, otherwise None |
| Canvas.PinShade | src/ui/canvas_view.py:42-49 | HIGH exactly above 4.5 V, intermediate exactly in (0.5, 4.5], LOW exactly at or below 0.5 V |
| Canvas.PinShadeMonotone | src/ui/canvas_view.py:44-49 | a higher voltage never gives a lower shade |
| Canvas.Brightness | src/ui/canvas_view.py:229-235 | above 1 mA the brightness is in (0, 1]; otherwise 0 |
| Canvas.LedState | src/ui/canvas_view.py:223-237 | lit exactly when the anode pin exists and carries more than 1 mA; lit brightness in (0, 1]; unlit brightness 0 |
| Canvas.BrightnessMonotone | src/ui/canvas_view.py:229-235 | more current is never dimmer, and the brightness is full exactly from 20 mA |
| Canvas.WireGreen | src/ui/canvas_view.py:74-81 | a highlighted wire (above 1 mA either way) has green intensity in 101..255; otherwise the default 150 |
| Canvas.WireGreenLaw | src/ui/canvas_view.py:76-81 | the intensity ignores the direction of the current, grows with its size and saturates at 255 from 0.155 A |
| Canvas.Started | src/ui/canvas_view.py:442-459 | wiring mode is on; on a component's pin the start pin is recorded and a temporary wire shown, otherwise the start is kept |
| Canvas.Completed | src/ui/canvas_view.py:461-489 | a connection is made exactly when a start pin is recorded, the end pin belongs to a component and differs from the start; it runs from the start pin to the end pin |
| Canvas.NoSelfWire | src/ui/canvas_view.py:463-480 | a completed wire never joins a pin to itself, and nothing is made without a start pin |
| Canvas.DragAddsWire | src/ui/canvas_view.py:442-489 | starting on one pin and completing on another makes exactly the connection between them |
| Canvas.CanvasView.constructor | src/ui/canvas_view.py:292-322 | an empty circuit, an engine on that circuit, wiring idle and the simulation stopped |
| Canvas.CanvasView.StartWiring | src/ui/canvas_view.py:442-459 | the wiring state becomes what `Started` defines |
| Canvas.CanvasView.CancelWiring | src/ui/canvas_view.py:503-509 | wiring mode off, no start pin, no temporary wire |
| Canvas.CanvasView.CompleteWiring | src/ui/canvas_view.py:461-509 | the circuit's connections gain exactly the connection `Completed` makes, if any, at the end; the components, their order and the circuit's name are untouched; wiring ends idle |
| Canvas.CanvasView.StartSimulation | src/ui/canvas_view.py:511-516 | the simulation runs afterwards; the engine is reset only when it was stopped, and a second start changes nothing |
| Canvas.CanvasView.StopSimulation | src/ui/canvas_view.py:518-522 | the simulation is stopped and the wiring state untouched |
| Panel.Lower | src/ui/component_panel.py:100 | the text with every letter lower-cased, length kept |
| Panel.LowerIdempotent | src/ui/component_panel.py:100 | lower-casing twice is lower-casing once |
| Panel.ParseComponentType | src/ui/component_panel.py:98-111 | always one of the six answers, each given exactly when the lower-cased text holds its keyword and no earlier keyword, in the order battery, led (not counted when the text also holds rgb), resistor, button, potentiometer; "" exactly when none of them is found |
| Panel.ParseIgnoresCase | src/ui/component_panel.py:100 | classifying the lower-cased text gives the same answer |
| Panel.BatteryEntry | src/ui/component_panel.py:101-102 | the "Battery (5V)" entry names a battery |
| Panel.LedEntry | src/ui/component_panel.py:103-104 | the "LED (Red)" entry names an LED |
| Panel.RgbLedEntry | src/ui/component_panel.py:103-111 | the "RGB LED" entry names nothing |
| Panel.ResistorEntry | src/ui/component_panel.py:105-106 | the "Resistor (1kΩ)" entry names a resistor |
| Panel.CapacitorEntry | src/ui/component_panel.py:47-111 | the "Capacitor" entry names nothing |
| Panel.ButtonEntry | src/ui/component_panel.py:107-108 | the "Push Button" entry names a button |
| Panel.PotentiometerEntry | src/ui/component_panel.py:109-110 | the "Potentiometer" entry names a potentiometer |
| Panel.TrimStart | src/ui/component_panel.py:84 | drops exactly the leading blanks: what it drops is blank and what remains starts with a non-blank |
| Panel.TrimEnd | src/ui/component_panel.py:84 | drops exactly the trailing blanks |
| Panel.Strip | src/ui/component_panel.py:84 | the result neither starts nor ends with a blank and is no longer than the text |
| Panel.StripSlice | src/ui/component_panel.py:84 | the result is a slice of the text with only blanks before and after it |
| Panel.DoubleClicked | src/ui/component_panel.py:82-90 | nothing is emitted exactly for blank text, text ending in ':' or text naming no type; otherwise the classifier's answer is emitted |
| Panel.StripNothing | src/ui/component_panel.py:84 | text without blanks at either end is its own strip |
| Panel.LeadingBlank | src/ui/component_panel.py:84-90 | a leading blank, like the panel's indentation, does not change what a double click emits |
| Panel.ColonEntry | src/ui/component_panel.py:85-86 | an entry ending in ':' emits nothing even if it names a type |
| BatteryLed.Wired3 | src/simulation/engine.py:49-78 | in the demo loop each of the three wires opens a node of its own (n0, n1, n2) |
| BatteryLed.NodesBuilt | src/simulation/engine.py:36-93 | the demo's node map: battery positive and resistor pin1 on n0, resistor pin2 and LED anode on n1, LED cathode and battery negative fused into `gnd` |
| BatteryLed.VoltagesSolved | src/simulation/engine.py:95-144 | the demo's voltages are `gnd` 0 V, n0 5 V and n1 0 V |
| BatteryLed.LoadOnlyResistor | src/simulation/engine.py:252-258 | on the battery's node the only load is the 220 Ω resistor |
| BatteryLed.ResistorCurrent | src/simulation/engine.py:183-204 | the demo resistor sees 5 V and 0 V and carries 5/220 A |
| BatteryLed.LedDark | src/simulation/engine.py:206-237 | the demo LED carries no current and is drawn dark |
| BatteryLed.BatteryCurrent | src/simulation/engine.py:166-181 | the demo battery drives 5/220 A out of its positive pin and takes it back at the negative pin |

## Left out

- Qt and display: drawing, hovering, hit-testing, the simulation timer, the signals and `update_simulation`. Colours are modelled as the choice the thresholds make (`Canvas.Shade`, the brightness value, the green intensity), not as `QColor` values.
- The rest of the application: the main window, toolbar, serial monitor, code editor, the Arduino CLI wrappers, the web backend and the application bootstrap. None of them is part of this model.
- Ids: uuid generation is not modelled. Component and connection ids are given as parameters, e.g. `Canvas.CreateComponent`'s `id` and `Canvas.CanvasView.CompleteWiring`'s `connectionId`.
- Numbers: voltages, currents and resistances are exact reals, not IEEE floats. `numpy` is imported by the engine but never used.
- Components.NumberOr: a property value that is not a number is read as the default. In Python such a value would flow into the arithmetic and raise or misbehave.
- Python's `ZeroDivisionError` from a 0 Ω resistor is modelled as the outcome `DivisionByZero`. The component loop stops at the first such component, and the pins already written keep their new values. The exception's unwinding past `step`, and what the caller does with it, are not modelled.
- Simulation.SimulationEngine.componentCurrents: the source declares and clears this table but never fills it, and the model does the same.
- Simulation.SimulationEngine.MaxChange: requires a non-empty voltage table, because Python's `max` of nothing raises. `solve_dc_circuit` always has the `gnd` entry, so the case does not arise.
- Simulation.SimulationEngine.RelaxPass: visits the nodes in no particular order, where the source uses dictionary order. Its calls change nothing, so the order is unobservable.
- Canvas.CanvasView.StartWiring: whether the clicked pin's parent item is a component item is modelled as an optional owner id. The temporary wire item is modelled as a flag.
- Canvas.CanvasView.CompleteWiring: the visual wire is not modelled. That includes the lookup in `component_items`, which raises `KeyError` for a start component without a graphics item.
- Canvas.WireGreen: `int()` truncation is modelled by `Floor`. The argument is never negative, so the two agree.
- Panel.Lower: only the ASCII letters A–Z are lower-cased. Python lower-cases every Unicode letter, so for example 'Ω' becomes 'ω'. The six keywords are plain ASCII, so the classification of the panel's entries is the same.
- The project's `circuit` is compared by reference in `Projects.Project.Settings`. Marking a project does not touch the circuit object, but its contents are not restated.
