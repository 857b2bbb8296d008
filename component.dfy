/** Pins, components and wire connections (src/models/component.py). */
module Components {
  import opened Basics

  /** A property value. The electrical properties are floats; an LED also
      carries its colour as a string. */
  datatype Value = Number(x: real) | Text(s: string)

  /** A terminal of a component. `role` is the source's free-form pin type
      ('input', 'output', 'passive', ...); `voltage` and `current` hold the
      last values the simulation engine wrote. */
  datatype Pin = Pin(
    name: string,
    role: string,
    position: (real, real),
    voltage: real,
    current: real,
    connectedTo: seq<string>)

  /** `Pin(name, type, position)` with the dataclass defaults. */
  function NewPin(name: string, role: string, position: (real, real)): (p: Pin)
    ensures p.name == name && p.role == role && p.position == position
    ensures p.voltage == 0.0 && p.current == 0.0 && p.connectedTo == []
  {
    Pin(name, role, position, 0.0, 0.0, [])
  }

  /** The `(component id, pin name)` key the engine uses for a pin. */
  datatype PinRef = PinRef(component: string, pin: string)

  /** A wire from one pin to another. The source never changes a connection
      once made, so it is a value. */
  datatype Connection = Connection(
    fromComponent: string,
    fromPin: string,
    toComponent: string,
    toPin: string,
    id: string,
    resistance: real)
  {
    function From(): PinRef { PinRef(fromComponent, fromPin) }
    function To(): PinRef { PinRef(toComponent, toPin) }

    /** The wire has an end on component `componentId`. */
    predicate Touches(componentId: string) {
      fromComponent == componentId || toComponent == componentId
    }
  }

  /** `Connection(from_component, from_pin, to_component, to_pin)`; the id,
      a fresh uuid in the source, is passed in. */
  function NewConnection(fromComponent: string, fromPin: string,
                         toComponent: string, toPin: string, id: string): (c: Connection)
    ensures c.From() == PinRef(fromComponent, fromPin) && c.To() == PinRef(toComponent, toPin)
    ensures c.id == id && c.resistance == 0.001
  {
    Connection(fromComponent, fromPin, toComponent, toPin, id, 0.001)
  }

  /** Index of the first pin called `name`, if there is one. */
  function FirstPin(pins: seq<Pin>, name: string): (r: Option<nat>)
    ensures r.Some? ==> r.value < |pins| && pins[r.value].name == name
    ensures r.Some? ==> forall j :: 0 <= j < r.value ==> pins[j].name != name
    ensures r.None? <==> forall j :: 0 <= j < |pins| ==> pins[j].name != name
  {
    if pins == [] then None
    else if pins[0].name == name then Some(0)
    else match FirstPin(pins[1..], name)
      case None => None
      case Some(i) => Some(i + 1)
  }

  function PinNames(pins: seq<Pin>): (r: seq<string>)
    ensures |r| == |pins| && forall i :: 0 <= i < |pins| ==> r[i] == pins[i].name
  {
    seq(|pins|, i requires 0 <= i < |pins| => pins[i].name)
  }

  /** Two pin lists with the same names in the same places. */
  predicate SameNames(a: seq<Pin>, b: seq<Pin>) {
    |a| == |b| && forall j :: 0 <= j < |a| ==> a[j].name == b[j].name
  }

  lemma SameNamesPinNames(a: seq<Pin>, b: seq<Pin>)
    requires SameNames(a, b)
    ensures PinNames(a) == PinNames(b)
  {
  }

  /** Overwriting the electrical state of a pin keeps every pin's name. */
  lemma SetStateKeepsNames(pins: seq<Pin>, i: nat, v: real, c: real)
    requires i < |pins|
    ensures PinNames(pins[i := pins[i].(voltage := v, current := c)]) == PinNames(pins)
  {
  }

  /** `properties.get(key, default)` for a numeric property. */
  function NumberOr(properties: map<string, Value>, key: string, default: real): (r: real)
    ensures key in properties && properties[key].Number? ==> r == properties[key].x
    ensures key !in properties ==> r == default
  {
    if key in properties && properties[key].Number? then properties[key].x else default
  }

  /** What the simulation engine reads of a component besides its constant
      type and id: its pin names and its properties. Writing pin voltages and
      currents leaves it unchanged. */
  datatype Part = Part(kind: string, pinNames: seq<string>, properties: map<string, Value>)

  class Component {
    const kind: string
    const name: string
    var pins: seq<Pin>
    var properties: map<string, Value>
    const id: string

    constructor (kind: string, name: string, pins: seq<Pin>, properties: map<string, Value>, id: string)
      ensures this.kind == kind && this.name == name && this.id == id
      ensures this.pins == pins && this.properties == properties
    {
      this.kind := kind;
      this.name := name;
      this.pins := pins;
      this.properties := properties;
      this.id := id;
    }

    function AsPart(): (p: Part)
      reads this
      ensures p.kind == kind && p.properties == properties && p.pinNames == PinNames(pins)
    {
      Part(kind, PinNames(pins), properties)
    }

    /** `get_pin`: a handle (the index) on the first pin with that name. */
    method GetPin(pinName: string) returns (r: Option<nat>)
      ensures r == FirstPin(pins, pinName)
    {
      var i := 0;
      while i < |pins|
        invariant 0 <= i <= |pins|
        invariant forall j :: 0 <= j < i ==> pins[j].name != pinName
      {
        if pins[i].name == pinName {
          return Some(i);
        }
        i := i + 1;
      }
      return None;
    }

    /** `get_property(key, default)`. */
    function GetProperty(key: string, default: Value): (r: Value)
      reads this
      ensures key in properties ==> r == properties[key]
      ensures key !in properties ==> r == default
    {
      if key in properties then properties[key] else default
    }

    /** `set_property(key, value)`: afterwards `key` reads back `value`, and
        every other key and the pins are as before. */
    method SetProperty(key: string, value: Value)
      modifies this
      ensures properties == old(properties)[key := value]
      ensures pins == old(pins)
      ensures forall d :: GetProperty(key, d) == value
      ensures forall k, d :: k != key ==> GetProperty(k, d) == old(GetProperty(k, d))
    {
      properties := properties[key := value];
    }
  }
}
