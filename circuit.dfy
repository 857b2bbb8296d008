/** The circuit: components keyed by id, in insertion order, and an ordered
    list of connections (src/models/circuit.py). */
module Circuits {
  import opened Basics
  import opened Components
  import Wiring

  /** `[conn for conn in cs if conn touches id]` */
  function ConnectionsFor(cs: seq<Connection>, id: string): (r: seq<Connection>)
    ensures forall c :: c in r <==> c in cs && c.Touches(id)
  {
    Filter(cs, (c: Connection) => c.Touches(id))
  }

  /** The connection list after `remove_component(id)`. */
  function Detach(cs: seq<Connection>, id: string): (r: seq<Connection>)
    ensures forall c :: c in r <==> c in cs && !c.Touches(id)
  {
    Filter(cs, (c: Connection) => !c.Touches(id))
  }

  /** The connection list after `remove_connection(cid)`. */
  function WithoutConnection(cs: seq<Connection>, cid: string): (r: seq<Connection>)
    ensures forall c :: c in r <==> c in cs && c.id != cid
  {
    Filter(cs, (c: Connection) => c.id != cid)
  }

  /** The connections of a component are listed in connection order: a
      connection appended to the circuit is appended to them when it touches
      the component and is absent from them otherwise. */
  lemma ConnectionsForAppend(cs: seq<Connection>, c: Connection, id: string)
    ensures ConnectionsFor(cs + [c], id) == ConnectionsFor(cs, id) + (if c.Touches(id) then [c] else [])
  {
    FilterAppend(cs, [c], (c: Connection) => c.Touches(id));
    assert [c][1..] == [];
  }

  /** Removing a connection id twice is removing it once. */
  lemma WithoutConnectionIdempotent(cs: seq<Connection>, cid: string)
    ensures WithoutConnection(WithoutConnection(cs, cid), cid) == WithoutConnection(cs, cid)
  {
    FilterIdempotent(cs, (c: Connection) => c.id != cid);
  }

  /** Removing a connection keeps the others in their order: removal
      distributes over concatenation. */
  lemma WithoutConnectionAppend(a: seq<Connection>, b: seq<Connection>, cid: string)
    ensures WithoutConnection(a + b, cid) == WithoutConnection(a, cid) + WithoutConnection(b, cid)
  {
    FilterAppend(a, b, (c: Connection) => c.id != cid);
  }

  /** Removing an id that no connection carries changes nothing. */
  lemma WithoutAbsentConnection(cs: seq<Connection>, cid: string)
    requires forall i :: 0 <= i < |cs| ==> cs[i].id != cid
    ensures WithoutConnection(cs, cid) == cs
  {
    FilterKeepsAll(cs, (c: Connection) => c.id != cid);
  }

  /** The connection has an end on pin `pin` of component `id`. */
  predicate AtPin(c: Connection, id: string, pin: string) {
    (c.fromComponent == id && c.fromPin == pin) || (c.toComponent == id && c.toPin == pin)
  }

  /** The list comprehensions `pos_connections` / `neg_connections`. */
  function PinConnections(cs: seq<Connection>, id: string, pin: string): (r: seq<Connection>)
    ensures forall c :: c in r <==> c in cs && AtPin(c, id, pin)
  {
    Filter(cs, (c: Connection) => AtPin(c, id, pin))
  }

  /** The test for a direct connection between a positive-side and a
      negative-side connection. */
  predicate Bridges(pos: Connection, neg: Connection) {
    pos.toComponent == neg.fromComponent || pos.fromComponent == neg.toComponent
  }

  /** The component looked up as the load: the far end of `pos`, unless that
      is the battery itself. */
  function LoadId(pos: Connection, battery: string): string {
    if pos.toComponent != battery then pos.toComponent else pos.fromComponent
  }

  /** What `validate` reports; `Floating` also records the component id. */
  datatype Problem = Floating(id: string, name: string) | ShortCircuit(battery: string)

  function FloatingMessage(name: string): string {
    "Component " + name + " has no connections"
  }

  const ShortMessage := "Short circuit detected: Battery terminals directly connected"

  function Message(p: Problem): string {
    match p
    case Floating(_, name) => FloatingMessage(name)
    case ShortCircuit(_) => ShortMessage
  }

  lemma MessagesSnoc(ps: seq<Problem>, p: Problem)
    ensures Messages(ps + [p]) == Messages(ps) + [Message(p)]
  {
    assert (ps + [p])[..|ps|] == ps;
  }

  function Messages(ps: seq<Problem>): (r: seq<string>)
    ensures |r| == |ps|
  {
    if ps == [] then [] else Messages(ps[..|ps| - 1]) + [Message(ps[|ps| - 1])]
  }

  lemma {:induction false} MessagesAppend(a: seq<Problem>, b: seq<Problem>)
    ensures Messages(a + b) == Messages(a) + Messages(b)
  {
    if b == [] {
      assert a + b == a;
    } else {
      assert (a + b)[..|a + b| - 1] == a + b[..|b| - 1];
      MessagesAppend(a, b[..|b| - 1]);
    }
  }

  class Circuit {
    var components: map<string, Component>
    /** The keys of `components` in insertion order (Python's dict order). */
    var order: seq<string>
    var connections: seq<Connection>
    var name: string

    /** Every component is stored under its own id, and `order` lists each
        key exactly once. */
    ghost predicate Valid()
      reads this
    {
      && Distinct(order)
      && (forall k :: k in components <==> k in order)
      && (forall k :: k in components ==> components[k].id == k)
    }

    constructor ()
      ensures Valid()
      ensures components == map[] && order == [] && connections == [] && name == "Untitled Circuit"
    {
      components := map[];
      order := [];
      connections := [];
      name := "Untitled Circuit";
    }

    /** `add_component`: stored under its own id, replacing an earlier
        component with that id (which keeps its place in the order). */
    method AddComponent(c: Component)
      requires Valid()
      modifies this
      ensures Valid()
      ensures components == old(components)[c.id := c]
      ensures order == if c.id in old(components) then old(order) else old(order) + [c.id]
      ensures connections == old(connections) && name == old(name)
      ensures GetComponent(c.id) == Some(c)
    {
      if c.id !in components {
        order := order + [c.id];
      }
      components := components[c.id := c];
    }

    /** `remove_component`: the component and every connection touching it
        go; the other connections keep their order; an absent id is a no-op. */
    method RemoveComponent(id: string)
      requires Valid()
      modifies this
      ensures Valid()
      ensures id in old(components) ==>
        components == old(components) - {id} && connections == Detach(old(connections), id)
      ensures id in old(components) ==> order == Filter(old(order), (k: string) => k != id)
      ensures id !in old(components) ==>
        components == old(components) && connections == old(connections) && order == old(order)
      ensures name == old(name)
      ensures GetComponent(id) == None
      ensures id in old(components) ==> forall c :: c in connections ==> !c.Touches(id)
    {
      if id in components {
        connections := Detach(connections, id);
        components := components - {id};
        FilterDistinct(order, (k: string) => k != id);
        order := Filter(order, (k: string) => k != id);
      }
    }

    /** `get_component`: the stored component, or None for an unknown id. */
    function GetComponent(id: string): (r: Option<Component>)
      reads this
      ensures r.None? <==> id !in components
      ensures r.Some? ==> r.value == components[id]
    {
      if id in components then Some(components[id]) else None
    }

    /** `add_connection`: appended at the end, duplicates allowed. */
    method AddConnection(c: Connection)
      modifies this
      ensures connections == old(connections) + [c]
      ensures components == old(components) && order == old(order) && name == old(name)
    {
      connections := connections + [c];
    }

    /** `remove_connection`: every connection with that id goes. */
    method RemoveConnection(cid: string)
      modifies this
      ensures connections == WithoutConnection(old(connections), cid)
      ensures components == old(components) && order == old(order) && name == old(name)
    {
      connections := WithoutConnection(connections, cid);
    }

    /** `get_connections_for_component`. */
    function GetConnectionsFor(id: string): (r: seq<Connection>)
      reads this
      ensures forall c :: c in r <==> c in connections && c.Touches(id)
    {
      ConnectionsFor(connections, id)
    }

    predicate IsBattery(k: string)
      reads this
    {
      k in components && components[k].kind == "battery"
    }

    // -------------------------------------------------------------------
    // validate

    /** Reference: a component that is not a battery and that no connection
        touches. */
    ghost predicate Floats(k: string)
      reads this
    {
      k in components && components[k].kind != "battery" && forall c :: c in connections ==> !c.Touches(k)
    }

    /** Reference: some connection at the battery's `positive` pin and some
        connection at its `negative` pin pass the bridge test, and the load
        looked up through the positive-side connection is a battery. */
    ghost predicate Shorted(b: string)
      reads this
    {
      IsBattery(b) &&
      exists pos, neg :: pos in connections && AtPin(pos, b, "positive") &&
        neg in connections && AtPin(neg, b, "negative") &&
        Bridges(pos, neg) && IsBattery(LoadId(pos, b))
    }

    /** The first loop of `validate`, over the components in order. */
    function FloatingProblems(ids: seq<string>): (r: seq<Problem>)
      reads this
      requires forall i :: 0 <= i < |ids| ==> ids[i] in components
      ensures forall p :: p in r ==> p.Floating?
    {
      if ids == [] then []
      else
        var id := ids[|ids| - 1];
        FloatingProblems(ids[..|ids| - 1]) +
        if ConnectionsFor(connections, id) == [] && components[id].kind != "battery"
        then [Floating(id, components[id].name)] else []
    }

    /** The innermost loop: one positive-side connection against the
        negative-side connections. */
    function ShortsFor(pos: Connection, negs: seq<Connection>, b: string): (r: seq<Problem>)
      reads this
      ensures forall p :: p in r ==> p == ShortCircuit(b)
    {
      if negs == [] then []
      else
        ShortsFor(pos, negs[..|negs| - 1], b) +
        if Bridges(pos, negs[|negs| - 1]) && IsBattery(LoadId(pos, b)) then [ShortCircuit(b)] else []
    }

    lemma {:induction false} ShortsForIff(pos: Connection, negs: seq<Connection>, b: string)
      ensures ShortsFor(pos, negs, b) != [] <==>
        IsBattery(LoadId(pos, b)) && exists j :: 0 <= j < |negs| && Bridges(pos, negs[j])
    {
      if negs != [] {
        var pre := negs[..|negs| - 1];
        ShortsForIff(pos, pre, b);
        if exists j :: 0 <= j < |pre| && Bridges(pos, pre[j]) {
          var j :| 0 <= j < |pre| && Bridges(pos, pre[j]);
          assert negs[j] == pre[j];
        }
        if exists j :: 0 <= j < |negs| && Bridges(pos, negs[j]) {
          var j :| 0 <= j < |negs| && Bridges(pos, negs[j]);
          if j < |pre| {
            assert pre[j] == negs[j];
          }
        }
      }
    }

    /** The two nested loops for one battery. */
    function ShortsAcross(poss: seq<Connection>, negs: seq<Connection>, b: string): (r: seq<Problem>)
      reads this
      ensures forall p :: p in r ==> p == ShortCircuit(b)
    {
      if poss == [] then []
      else ShortsAcross(poss[..|poss| - 1], negs, b) + ShortsFor(poss[|poss| - 1], negs, b)
    }

    /** Some positive-side connection `poss[i]` leads to a battery load and
        passes the bridge test against some negative-side connection. */
    ghost predicate SomeBridge(poss: seq<Connection>, negs: seq<Connection>, b: string)
      reads this
    {
      exists i, j :: 0 <= i < |poss| && 0 <= j < |negs| && Bridges(poss[i], negs[j]) && IsBattery(LoadId(poss[i], b))
    }

    lemma {:induction false} ShortsAcrossIff(poss: seq<Connection>, negs: seq<Connection>, b: string)
      ensures ShortsAcross(poss, negs, b) != [] <==> SomeBridge(poss, negs, b)
    {
      if poss != [] {
        var pre, pos := poss[..|poss| - 1], poss[|poss| - 1];
        ShortsAcrossIff(pre, negs, b);
        ShortsForIff(pos, negs, b);
        SomeBridgeSnoc(poss, negs, b);
      }
    }

    /** `SomeBridge` over one more positive-side connection. */
    lemma SomeBridgeSnoc(poss: seq<Connection>, negs: seq<Connection>, b: string)
      requires poss != []
      ensures var pre, pos := poss[..|poss| - 1], poss[|poss| - 1];
        SomeBridge(poss, negs, b) <==>
        SomeBridge(pre, negs, b) || (IsBattery(LoadId(pos, b)) && exists j :: 0 <= j < |negs| && Bridges(pos, negs[j]))
    {
      var pre, pos := poss[..|poss| - 1], poss[|poss| - 1];
      if SomeBridge(pre, negs, b) {
        var i, j :| 0 <= i < |pre| && 0 <= j < |negs| && Bridges(pre[i], negs[j]) && IsBattery(LoadId(pre[i], b));
        assert poss[i] == pre[i];
      }
      if IsBattery(LoadId(pos, b)) && exists j :: 0 <= j < |negs| && Bridges(pos, negs[j]) {
        var j :| 0 <= j < |negs| && Bridges(pos, negs[j]);
        assert Bridges(poss[|poss| - 1], negs[j]);
      }
      if SomeBridge(poss, negs, b) {
        var i, j :| 0 <= i < |poss| && 0 <= j < |negs| && Bridges(poss[i], negs[j]) && IsBattery(LoadId(poss[i], b));
        if i < |pre| {
          assert pre[i] == poss[i];
        }
      }
    }

    /** The per-battery short-circuit reports of one battery. */
    function BatteryShorts(b: string): seq<Problem>
      reads this
    {
      ShortsAcross(PinConnections(connections, b, "positive"), PinConnections(connections, b, "negative"), b)
    }

    /** The second loop of `validate`, over the components in order. */
    function ShortProblems(ids: seq<string>): (r: seq<Problem>)
      reads this
      requires forall i :: 0 <= i < |ids| ==> ids[i] in components
      ensures forall p :: p in r ==> p.ShortCircuit?
    {
      if ids == [] then []
      else
        var id := ids[|ids| - 1];
        ShortProblems(ids[..|ids| - 1]) + if components[id].kind == "battery" then BatteryShorts(id) else []
    }

    /** Everything `validate` reports, in order: no floating-component
        report comes after a short-circuit report. */
    function Problems(): (r: seq<Problem>)
      reads this
      requires Valid()
      ensures forall i, j :: 0 <= i < j < |r| && r[j].Floating? ==> r[i].Floating?
    {
      var floating, shorts := FloatingProblems(order), ShortProblems(order);
      assert forall j :: |floating| <= j < |floating| + |shorts| ==> (floating + shorts)[j] in shorts;
      floating + shorts
    }

    /** `validate`: the list of error messages. */
    method Validate() returns (errors: seq<string>)
      requires Valid()
      ensures errors == Messages(Problems())
    {
      var floating := ReportFloating();
      var shorts := ReportShorts();
      errors := floating + shorts;
      MessagesAppend(FloatingProblems(order), ShortProblems(order));
    }

    /** The first loop of `validate`. */
    method ReportFloating() returns (errors: seq<string>)
      requires Valid()
      ensures errors == Messages(FloatingProblems(order))
    {
      errors := [];
      var i := 0;
      while i < |order|
        invariant 0 <= i <= |order|
        invariant errors == Messages(FloatingProblems(order[..i]))
      {
        var id := order[i];
        FloatingStep(order, i);
        var conns := GetConnectionsFor(id);
        var message := if conns == [] && components[id].kind != "battery" then [FloatingMessage(components[id].name)] else [];
        errors := errors + message;
        i := i + 1;
      }
      assert order[..|order|] == order;
    }

    /** One more component in the first loop adds its message, if any. */
    lemma FloatingStep(ids: seq<string>, i: nat)
      requires Valid() && forall k :: k in ids ==> k in components
      requires i < |ids|
      ensures var id := ids[i];
        Messages(FloatingProblems(ids[..i + 1])) == Messages(FloatingProblems(ids[..i])) +
          if ConnectionsFor(connections, id) == [] && components[id].kind != "battery"
          then [FloatingMessage(components[id].name)] else []
    {
      assert ids[..i + 1][..i] == ids[..i];
      var id := ids[i];
      if ConnectionsFor(connections, id) == [] && components[id].kind != "battery" {
        MessagesSnoc(FloatingProblems(ids[..i]), Floating(id, components[id].name));
      } else {
        assert FloatingProblems(ids[..i + 1]) == FloatingProblems(ids[..i]);
      }
    }

    /** The second loop of `validate`. */
    method ReportShorts() returns (errors: seq<string>)
      requires Valid()
      ensures errors == Messages(ShortProblems(order))
    {
      errors := [];
      var i := 0;
      while i < |order|
        invariant 0 <= i <= |order|
        invariant errors == Messages(ShortProblems(order[..i]))
      {
        var id := order[i];
        ShortProblemsStep(order, i);
        var shorts := [];
        if components[id].kind == "battery" {
          shorts := CountShorts(id);
        }
        errors := errors + shorts;
        i := i + 1;
      }
      assert order[..|order|] == order;
    }

    /** One more component in the second loop adds its battery's messages. */
    lemma ShortProblemsStep(ids: seq<string>, i: nat)
      requires forall k :: k in ids ==> k in components
      requires i < |ids|
      ensures Messages(ShortProblems(ids[..i + 1])) == Messages(ShortProblems(ids[..i])) +
        if components[ids[i]].kind == "battery" then Messages(BatteryShorts(ids[i])) else []
    {
      assert ids[..i + 1][..i] == ids[..i];
      var id := ids[i];
      if components[id].kind == "battery" {
        MessagesAppend(ShortProblems(ids[..i]), BatteryShorts(id));
      } else {
        assert ShortProblems(ids[..i + 1]) == ShortProblems(ids[..i]);
      }
    }

    /** The nested loops of `validate` for one battery. */
    method CountShorts(b: string) returns (errors: seq<string>)
      ensures errors == Messages(BatteryShorts(b))
    {
      var poss := PinConnections(connections, b, "positive");
      var negs := PinConnections(connections, b, "negative");
      errors := [];
      var i := 0;
      while i < |poss|
        invariant 0 <= i <= |poss|
        invariant errors == Messages(ShortsAcross(poss[..i], negs, b))
      {
        AcrossStep(poss, negs, i, b);
        var found := ShortsAgainst(poss[i], negs, b);
        errors := errors + found;
        i := i + 1;
      }
      assert poss[..|poss|] == poss;
    }

    /** One more positive-side connection adds its messages. */
    lemma AcrossStep(poss: seq<Connection>, negs: seq<Connection>, i: nat, b: string)
      requires i < |poss|
      ensures Messages(ShortsAcross(poss[..i + 1], negs, b)) ==
        Messages(ShortsAcross(poss[..i], negs, b)) + Messages(ShortsFor(poss[i], negs, b))
    {
      assert poss[..i + 1][..i] == poss[..i];
      MessagesAppend(ShortsAcross(poss[..i], negs, b), ShortsFor(poss[i], negs, b));
    }

    /** The innermost loop of `validate`: one positive-side connection
        against the negative-side connections. */
    method ShortsAgainst(pos: Connection, negs: seq<Connection>, b: string) returns (found: seq<string>)
      ensures found == Messages(ShortsFor(pos, negs, b))
    {
      found := [];
      var j := 0;
      while j < |negs|
        invariant 0 <= j <= |negs|
        invariant found == Messages(ShortsFor(pos, negs[..j], b))
      {
        var neg := negs[j];
        ShortsForStep(pos, negs, j, b);
        var message := [];
        if Bridges(pos, neg) {
          var load := GetComponent(LoadId(pos, b));
          if load.Some? && load.value.kind == "battery" {
            message := [ShortMessage];
          }
        }
        found := found + message;
        j := j + 1;
      }
      assert negs[..|negs|] == negs;
    }

    /** One more negative-side connection adds a message when it is bridged
        and the load is a battery. */
    lemma ShortsForStep(pos: Connection, negs: seq<Connection>, j: nat, b: string)
      requires j < |negs|
      ensures Messages(ShortsFor(pos, negs[..j + 1], b)) == Messages(ShortsFor(pos, negs[..j], b)) +
        if Bridges(pos, negs[j]) && IsBattery(LoadId(pos, b)) then [ShortMessage] else []
    {
      assert negs[..j + 1][..j] == negs[..j];
      if Bridges(pos, negs[j]) && IsBattery(LoadId(pos, b)) {
        MessagesSnoc(ShortsFor(pos, negs[..j], b), ShortCircuit(b));
      } else {
        assert ShortsFor(pos, negs[..j + 1], b) == ShortsFor(pos, negs[..j], b);
      }
    }

    /** A component is reported as floating exactly when it is not a battery
        and no connection touches it; a battery never is. */
    lemma FloatingReported(ids: seq<string>, k: string)
      requires forall i :: 0 <= i < |ids| ==> ids[i] in components
      ensures (exists nm :: Floating(k, nm) in FloatingProblems(ids)) <==> k in ids && Floats(k)
    {
      FloatingMembership(ids, k);
      if k in ids && Floats(k) {
        assert Floating(k, components[k].name) in FloatingProblems(ids);
      }
    }

    lemma {:induction false} FloatingMembership(ids: seq<string>, k: string)
      requires forall i :: 0 <= i < |ids| ==> ids[i] in components
      ensures forall nm :: Floating(k, nm) in FloatingProblems(ids) <==>
        k in ids && Floats(k) && nm == components[k].name
    {
      if ids != [] {
        var pre, id := ids[..|ids| - 1], ids[|ids| - 1];
        FloatingMembership(pre, k);
        assert ids == pre + [id];
        if id == k {
          var conns := ConnectionsFor(connections, k);
          if conns != [] {
            assert conns[0] in conns;
          }
        }
      }
    }

    /** A battery is reported as short-circuited exactly when the reference
        condition holds for it. */
    lemma {:induction false} ShortReported(ids: seq<string>, b: string)
      requires forall i :: 0 <= i < |ids| ==> ids[i] in components
      ensures ShortCircuit(b) in ShortProblems(ids) <==> b in ids && Shorted(b)
    {
      if ids != [] {
        var pre, id := ids[..|ids| - 1], ids[|ids| - 1];
        ShortReported(pre, b);
        assert ids == pre + [id];
        var tail := if components[id].kind == "battery" then BatteryShorts(id) else [];
        assert ShortProblems(ids) == ShortProblems(pre) + tail;
        if id == b && IsBattery(b) {
          BatteryShortsIff(b);
          if tail != [] {
            assert tail[0] in tail;
          }
        } else {
          assert ShortCircuit(b) !in tail;
        }
      }
    }

    lemma BatteryShortsIff(b: string)
      requires IsBattery(b)
      ensures BatteryShorts(b) != [] <==> Shorted(b)
    {
      var poss := PinConnections(connections, b, "positive");
      var negs := PinConnections(connections, b, "negative");
      if Shorted(b) {
        var pos, neg :| pos in connections && AtPin(pos, b, "positive") &&
          neg in connections && AtPin(neg, b, "negative") &&
          Bridges(pos, neg) && IsBattery(LoadId(pos, b));
        assert pos in poss && neg in negs;
        var i :| 0 <= i < |poss| && poss[i] == pos;
        var j :| 0 <= j < |negs| && negs[j] == neg;
        assert SomeBridge(poss, negs, b);
      }
      ShortsAcrossIff(poss, negs, b);
      if BatteryShorts(b) != [] {
        var i, j :| 0 <= i < |poss| && 0 <= j < |negs| &&
          Bridges(poss[i], negs[j]) && IsBattery(LoadId(poss[i], b));
        assert poss[i] in poss && negs[j] in negs;
      }
    }

    /** A connection from a battery's `positive` pin to its own `negative`
        pin (either way round) is reported. */
    lemma SelfShortReported(b: string, c: Connection)
      requires Valid() && IsBattery(b) && c in connections
      requires Wiring.Joins(c, PinRef(b, "positive"), PinRef(b, "negative"))
      ensures ShortCircuit(b) in Problems()
    {
      assert AtPin(c, b, "positive") && AtPin(c, b, "negative");
      assert Bridges(c, c) && LoadId(c, b) == b;
      ShortReported(order, b);
    }

    /** The short-circuit message is only ever produced through a load that
        is itself a battery. */
    lemma ShortNeedsBatteryLoad(b: string)
      requires Valid() && ShortCircuit(b) in Problems()
      ensures IsBattery(b)
      ensures exists pos :: pos in connections && AtPin(pos, b, "positive") && IsBattery(LoadId(pos, b))
    {
      ShortReported(order, b);
    }
  }
}
