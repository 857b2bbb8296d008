/** The node map of `SimulationEngine.build_node_map`
    (src/simulation/engine.py:36-93) as functions over values, and the
    theorems that say what it computes: the nodes are the connected groups of
    the wire graph, except that every group holding a connected battery's
    `negative` pin is fused into the single node 'gnd'. */
module NodeMaps {
  import opened Basics
  import opened Components
  import opened Wiring

  /** 'gnd' and the generated ids f'n{k}'. */
  datatype NodeId = Gnd | Net(k: nat)

  /** `nodes` (node id -> pins), `pin_to_node`, and `node_counter`. */
  datatype NodeMap = NodeMap(nodes: map<NodeId, seq<PinRef>>, pinToNode: map<PinRef, NodeId>, counter: nat)

  /** The state before the first connection: only the empty 'gnd' node. */
  function Start(): (s: NodeMap)
    ensures Coherent(s) && Ungrounded(s)
  {
    NodeMap(map[Gnd := []], map[], 0)
  }

  function NegativeOf(id: string): PinRef { PinRef(id, "negative") }

  function PositiveOf(id: string): PinRef { PinRef(id, "positive") }

  /** `pin_to_node[p] == n` exactly when `p` occurs in `nodes[n]`; every pin's
      node exists; 'gnd' exists; generated ids are below the counter. */
  ghost predicate Coherent(s: NodeMap) {
    && Gnd in s.nodes
    && (forall p :: p in s.pinToNode ==> s.pinToNode[p] in s.nodes && p in s.nodes[s.pinToNode[p]])
    && (forall n, p :: n in s.nodes && p in s.nodes[n] ==> p in s.pinToNode && s.pinToNode[p] == n)
    && (forall n :: n in s.nodes && n.Net? ==> n.k < s.counter)
  }

  /** No pin has been moved to 'gnd' yet. */
  ghost predicate Ungrounded(s: NodeMap) {
    forall p :: p in s.pinToNode ==> s.pinToNode[p] != Gnd
  }

  /** `for pin in pins: pin_to_node[pin] = target` */
  function Relabel(pinToNode: map<PinRef, NodeId>, pins: seq<PinRef>, target: NodeId): (r: map<PinRef, NodeId>)
    ensures forall p :: p in r <==> p in pinToNode || p in pins
    ensures forall p :: p in r ==> r[p] == if p in pins then target else pinToNode[p]
  {
    pinToNode + map p | p in pins :: target
  }

  /** Relabelling one more pin after the others. */
  lemma RelabelSnoc(pinToNode: map<PinRef, NodeId>, pins: seq<PinRef>, p: PinRef, target: NodeId)
    ensures Relabel(pinToNode, pins + [p], target) == Relabel(pinToNode, pins, target)[p := target]
  {
    var l, r := Relabel(pinToNode, pins + [p], target), Relabel(pinToNode, pins, target)[p := target];
    assert forall q :: q in pins + [p] <==> q in pins || q == p;
    assert l.Keys == r.Keys;
  }

  /** Relabelling a list that holds its pins twice relabels them once. */
  lemma RelabelTwice(pinToNode: map<PinRef, NodeId>, pins: seq<PinRef>, target: NodeId)
    ensures Relabel(pinToNode, pins + pins, target) == Relabel(pinToNode, pins, target)
  {
    assert forall q :: q in pins + pins <==> q in pins;
    assert Relabel(pinToNode, pins + pins, target).Keys == Relabel(pinToNode, pins, target).Keys;
  }

  /** The body of the loop over connections (engine.py:50-78). */
  function AddWire(s: NodeMap, c: Connection): (r: NodeMap)
    requires Coherent(s)
    ensures c.From() in r.pinToNode && c.To() in r.pinToNode && r.pinToNode[c.From()] == r.pinToNode[c.To()]
  {
    var a, b := c.From(), c.To();
    if a in s.pinToNode && b in s.pinToNode then
      var fa, tb := s.pinToNode[a], s.pinToNode[b];
      if fa != tb then
        NodeMap(s.nodes[fa := s.nodes[fa] + s.nodes[tb]] - {tb}, Relabel(s.pinToNode, s.nodes[tb], fa), s.counter)
      else
        s
    else if a in s.pinToNode then
      var n := s.pinToNode[a];
      NodeMap(s.nodes[n := s.nodes[n] + [b]], s.pinToNode[b := n], s.counter)
    else if b in s.pinToNode then
      var n := s.pinToNode[b];
      NodeMap(s.nodes[n := s.nodes[n] + [a]], s.pinToNode[a := n], s.counter)
    else
      var n := Net(s.counter);
      NodeMap(s.nodes[n := [a, b]], s.pinToNode[a := n][b := n], s.counter + 1)
  }

  /** The connection is a merge of two existing, different nodes. */
  predicate Merges(s: NodeMap, c: Connection) {
    c.From() in s.pinToNode && c.To() in s.pinToNode && s.pinToNode[c.From()] != s.pinToNode[c.To()]
  }

  /** Two different nodes `fa` and `tb` merge: the pins of `tb` are appended
      to `fa` and move there, and `tb` is deleted. */
  lemma MergeCoherent(s: NodeMap, fa: NodeId, tb: NodeId)
    requires Coherent(s) && fa in s.nodes && tb in s.nodes && fa != tb && tb != Gnd
    ensures var r := NodeMap(s.nodes[fa := s.nodes[fa] + s.nodes[tb]] - {tb}, Relabel(s.pinToNode, s.nodes[tb], fa), s.counter);
      && r.pinToNode.Keys == s.pinToNode.Keys
      && (forall p :: p in s.pinToNode ==> r.pinToNode[p] == (if s.pinToNode[p] == tb then fa else s.pinToNode[p]))
      && Coherent(r)
  {
    MergeLabels(s, fa, tb);
    MergePinsPlaced(s, fa, tb);
    MergeNodesListed(s, fa, tb);
  }

  /** After the merge the pins of `tb`, and only they, point at `fa`. */
  lemma MergeLabels(s: NodeMap, fa: NodeId, tb: NodeId)
    requires Coherent(s) && fa in s.nodes && tb in s.nodes && fa != tb && tb != Gnd
    ensures var ptn := Relabel(s.pinToNode, s.nodes[tb], fa);
      && ptn.Keys == s.pinToNode.Keys
      && forall p :: p in s.pinToNode ==> ptn[p] == (if s.pinToNode[p] == tb then fa else s.pinToNode[p])
  {
    var ptn := Relabel(s.pinToNode, s.nodes[tb], fa);
    forall p | p in s.pinToNode
      ensures ptn[p] == (if s.pinToNode[p] == tb then fa else s.pinToNode[p])
    {
      assert p in s.nodes[tb] <==> s.pinToNode[p] == tb;
    }
  }

  /** After the merge every labelled pin is listed under its node. */
  lemma MergePinsPlaced(s: NodeMap, fa: NodeId, tb: NodeId)
    requires Coherent(s) && fa in s.nodes && tb in s.nodes && fa != tb && tb != Gnd
    ensures var nodes, ptn := s.nodes[fa := s.nodes[fa] + s.nodes[tb]] - {tb}, Relabel(s.pinToNode, s.nodes[tb], fa);
      forall p :: p in ptn ==> ptn[p] in nodes && p in nodes[ptn[p]]
  {
    var nodes, ptn := s.nodes[fa := s.nodes[fa] + s.nodes[tb]] - {tb}, Relabel(s.pinToNode, s.nodes[tb], fa);
    forall p | p in ptn
      ensures ptn[p] in nodes && p in nodes[ptn[p]]
    {
      if p !in s.nodes[tb] {
        assert p in s.nodes[s.pinToNode[p]];
      }
    }
  }

  /** After the merge every pin listed under a node is labelled with it. */
  lemma MergeNodesListed(s: NodeMap, fa: NodeId, tb: NodeId)
    requires Coherent(s) && fa in s.nodes && tb in s.nodes && fa != tb && tb != Gnd
    ensures var nodes, ptn := s.nodes[fa := s.nodes[fa] + s.nodes[tb]] - {tb}, Relabel(s.pinToNode, s.nodes[tb], fa);
      forall n, p :: n in nodes && p in nodes[n] ==> p in ptn && ptn[p] == n
  {
    var nodes, ptn := s.nodes[fa := s.nodes[fa] + s.nodes[tb]] - {tb}, Relabel(s.pinToNode, s.nodes[tb], fa);
    forall n, p | n in nodes && p in nodes[n]
      ensures p in ptn && ptn[p] == n
    {
      if n != fa {
        assert p in s.nodes[n];
      }
    }
  }

  lemma MergeEffect(s: NodeMap, c: Connection)
    requires Coherent(s) && Ungrounded(s) && Merges(s, c)
    ensures var r := AddWire(s, c);
      && Coherent(r) && Ungrounded(r)
      && r.pinToNode.Keys == s.pinToNode.Keys
      && (forall p :: p in s.pinToNode ==>
            r.pinToNode[p] == (if s.pinToNode[p] == s.pinToNode[c.To()] then s.pinToNode[c.From()] else s.pinToNode[p]))
  {
    var fa, tb := s.pinToNode[c.From()], s.pinToNode[c.To()];
    MergeCoherent(s, fa, tb);
  }

  /** Exactly one end `known` already has a node: the other end `added`
      is appended to it. */
  lemma ExtendEffect(s: NodeMap, known: PinRef, added: PinRef)
    requires Coherent(s) && Ungrounded(s) && known in s.pinToNode && added !in s.pinToNode
    ensures var n := s.pinToNode[known];
      var r := NodeMap(s.nodes[n := s.nodes[n] + [added]], s.pinToNode[added := n], s.counter);
      Coherent(r) && Ungrounded(r)
  {
    var n := s.pinToNode[known];
    var r := NodeMap(s.nodes[n := s.nodes[n] + [added]], s.pinToNode[added := n], s.counter);
    forall p | p in r.pinToNode
      ensures r.pinToNode[p] in r.nodes && p in r.nodes[r.pinToNode[p]]
    {
      if p != added {
        assert p in s.nodes[s.pinToNode[p]];
      }
    }
    forall m, p | m in r.nodes && p in r.nodes[m]
      ensures p in r.pinToNode && r.pinToNode[p] == m
    {
      if m == n {
        assert p in s.nodes[n] || p == added;
      } else {
        assert p in s.nodes[m];
      }
    }
  }

  /** Neither end has a node: a new node `n{counter}` holds both. */
  lemma FreshEffect(s: NodeMap, c: Connection)
    requires Coherent(s) && Ungrounded(s) && c.From() !in s.pinToNode && c.To() !in s.pinToNode
    ensures var r := AddWire(s, c);
      && Coherent(r) && Ungrounded(r)
      && r.pinToNode[c.From()] == Net(s.counter)
      && forall p :: p in s.pinToNode ==> s.pinToNode[p] != Net(s.counter)
  {
    var a, b := c.From(), c.To();
    var n := Net(s.counter);
    var r := AddWire(s, c);
    assert r == NodeMap(s.nodes[n := [a, b]], s.pinToNode[a := n][b := n], s.counter + 1);
    assert n !in s.nodes;
    forall p | p in r.pinToNode
      ensures r.pinToNode[p] in r.nodes && p in r.nodes[r.pinToNode[p]]
    {
      if p != a && p != b {
        assert p in s.nodes[s.pinToNode[p]];
      }
    }
    forall m, p | m in r.nodes && p in r.nodes[m]
      ensures p in r.pinToNode && r.pinToNode[p] == m
    {
      if m != n {
        assert p in s.nodes[m];
      }
    }
  }

  /** One connection: the coherence is kept, the pins already placed only
      move from the `to` node to the `from` node when two nodes merge, the two
      ends now share a node, and a pin new to the map joins the node of the
      other end or a fresh node. */
  lemma AddWireEffect(s: NodeMap, c: Connection)
    requires Coherent(s) && Ungrounded(s)
    ensures var r := AddWire(s, c);
      && Coherent(r) && Ungrounded(r)
      && (forall p :: p in r.pinToNode <==> p in s.pinToNode || p == c.From() || p == c.To())
      && (forall p :: p in s.pinToNode ==>
            r.pinToNode[p] == (if Merges(s, c) && s.pinToNode[p] == s.pinToNode[c.To()] then s.pinToNode[c.From()] else s.pinToNode[p]))
      && r.pinToNode[c.From()] == r.pinToNode[c.To()]
      && (c.From() !in s.pinToNode && c.To() !in s.pinToNode ==>
            r.pinToNode[c.From()] == Net(s.counter) && forall p :: p in s.pinToNode ==> s.pinToNode[p] != Net(s.counter))
  {
    var a, b := c.From(), c.To();
    if a in s.pinToNode && b in s.pinToNode {
      if Merges(s, c) {
        MergeEffect(s, c);
      }
    } else if a in s.pinToNode {
      ExtendEffect(s, a, b);
    } else if b in s.pinToNode {
      ExtendEffect(s, b, a);
    } else {
      FreshEffect(s, c);
    }
  }

  /** The loop over `circuit.connections` (engine.py:49-78). */
  function Wire(cs: seq<Connection>): (r: NodeMap)
    ensures Coherent(r) && Ungrounded(r)
  {
    if cs == [] then Start()
    else
      var s := Wire(cs[..|cs| - 1]);
      AddWireEffect(s, cs[|cs| - 1]);
      AddWire(s, cs[|cs| - 1])
  }

  /** One more connection in the connection loop. */
  lemma WireStep(cs: seq<Connection>, i: nat)
    requires i < |cs|
    ensures Wire(cs[..i + 1]) == AddWire(Wire(cs[..i]), cs[i])
  {
    assert cs[..i + 1][..i] == cs[..i];
  }

  /** What the connection loop establishes about `cs`. */
  ghost predicate Partitions(cs: seq<Connection>, s: NodeMap) {
    && Coherent(s) && Ungrounded(s)
    && (forall p :: p in s.pinToNode <==> IsEnd(cs, p))
    && (forall i :: 0 <= i < |cs| ==>
          cs[i].From() in s.pinToNode && cs[i].To() in s.pinToNode &&
          s.pinToNode[cs[i].From()] == s.pinToNode[cs[i].To()])
    && (forall p, q :: p in s.pinToNode && q in s.pinToNode && s.pinToNode[p] == s.pinToNode[q] ==> Wired(cs, p, q))
  }

  lemma IsEndAppend(cs: seq<Connection>, c: Connection, p: PinRef)
    ensures IsEnd(cs + [c], p) <==> IsEnd(cs, p) || p == c.From() || p == c.To()
  {
    var cs' := cs + [c];
    if IsEnd(cs, p) {
      var i :| 0 <= i < |cs| && (cs[i].From() == p || cs[i].To() == p);
      assert cs'[i] == cs[i];
    }
    if p == c.From() || p == c.To() {
      assert cs'[|cs|] == c;
    }
    if IsEnd(cs', p) {
      var i :| 0 <= i < |cs'| && (cs'[i].From() == p || cs'[i].To() == p);
      if i < |cs| {
        assert cs'[i] == cs[i];
      }
    }
  }

  /** Appending one connection to the processed prefix keeps `Partitions`. */
  lemma AddWirePartitions(cs: seq<Connection>, c: Connection, s: NodeMap)
    requires Partitions(cs, s)
    ensures Partitions(cs + [c], AddWire(s, c))
  {
    var r := AddWire(s, c);
    var cs' := cs + [c];
    var a, b := c.From(), c.To();
    AddWireEffect(s, c);
    forall p ensures p in r.pinToNode <==> IsEnd(cs', p) {
      IsEndAppend(cs, c, p);
    }
    forall i | 0 <= i < |cs'|
      ensures cs'[i].From() in r.pinToNode && cs'[i].To() in r.pinToNode
      ensures r.pinToNode[cs'[i].From()] == r.pinToNode[cs'[i].To()]
    {
      if i < |cs| {
        assert cs'[i] == cs[i];
      } else {
        assert cs'[i] == c;
      }
    }
    WiredByConnection(cs', |cs|, a, b);
    WiredByConnection(cs', |cs|, b, a);
    forall p, q | p in r.pinToNode && q in r.pinToNode && r.pinToNode[p] == r.pinToNode[q]
      ensures Wired(cs', p, q)
    {
      SameNodeAfterWire(cs, c, s, p, q);
    }
  }

  /** The case analysis behind `AddWirePartitions`: two pins that share a node
      after the connection are wired together. */
  lemma SameNodeAfterWire(cs: seq<Connection>, c: Connection, s: NodeMap, p: PinRef, q: PinRef)
    requires Partitions(cs, s)
    requires Wired(cs + [c], c.From(), c.To()) && Wired(cs + [c], c.To(), c.From())
    requires p in AddWire(s, c).pinToNode && q in AddWire(s, c).pinToNode
    requires AddWire(s, c).pinToNode[p] == AddWire(s, c).pinToNode[q]
    ensures Wired(cs + [c], p, q)
  {
    var r := AddWire(s, c);
    var cs' := cs + [c];
    var a, b := c.From(), c.To();
    var L := s.pinToNode;
    AddWireEffect(s, c);
    if p == q {
      WiredRefl(cs', p);
    } else if p in L && q in L {
      if L[p] == L[q] {
        WiredExtend(cs, c, p, q);
      } else if L[p] == L[a] {
        // p was on the `from` node, q on the `to` node
        WiredExtend(cs, c, p, a);
        WiredExtend(cs, c, b, q);
        WiredTrans(cs', p, a, b);
        WiredTrans(cs', p, b, q);
      } else {
        // p was on the `to` node, q on the `from` node
        WiredExtend(cs, c, p, b);
        WiredExtend(cs, c, a, q);
        WiredTrans(cs', p, b, a);
        WiredTrans(cs', p, a, q);
      }
    } else if p in L {
      // q is a new end of c; it joined the node of the other end
      var o := if q == a then b else a;
      WiredExtend(cs, c, p, o);
      WiredTrans(cs', p, o, q);
    } else if q in L {
      var o := if p == a then b else a;
      WiredExtend(cs, c, o, q);
      WiredTrans(cs', p, o, q);
    } else {
      // both are the two new ends of c
      if p == a {
        assert q == b;
      } else {
        assert p == b && q == a;
      }
    }
  }

  /** The last connection of `cs` is processed after the others. */
  lemma WireSnoc(cs: seq<Connection>)
    requires cs != []
    ensures cs[..|cs| - 1] + [cs[|cs| - 1]] == cs
    ensures Wire(cs) == AddWire(Wire(cs[..|cs| - 1]), cs[|cs| - 1])
  {
  }

  lemma {:induction false} WirePartitions(cs: seq<Connection>)
    ensures Partitions(cs, Wire(cs))
  {
    if cs == [] {
      forall p ensures p !in Wire(cs).pinToNode && !IsEnd(cs, p) { }
    } else {
      var pre, c := cs[..|cs| - 1], cs[|cs| - 1];
      WirePartitions(pre);
      AddWirePartitions(pre, c, Wire(pre));
      WireSnoc(cs);
    }
  }

  /** Before grounding: a pin has a node exactly when it is an end of some
      connection, and two such pins share a node exactly when a chain of
      connections joins them. */
  lemma SameNetIffWired(cs: seq<Connection>, p: PinRef, q: PinRef)
    ensures p in Wire(cs).pinToNode <==> IsEnd(cs, p)
    ensures p in Wire(cs).pinToNode && q in Wire(cs).pinToNode ==>
      (Wire(cs).pinToNode[p] == Wire(cs).pinToNode[q] <==> Wired(cs, p, q))
  {
    WirePartitions(cs);
    var L := Wire(cs).pinToNode;
    if p in L && q in L && Wired(cs, p, q) {
      WiredSameLabel(cs, L, p, q);
    }
  }

  // ---------------------------------------------------------------------
  // Grounding (engine.py:80-91)

  /** One battery: its `negative` pin's node is appended to 'gnd', its pins
      are moved to 'gnd' and the node is deleted (unless it is 'gnd' itself,
      in which case 'gnd' is extended with a copy of itself). */
  function GroundNode(s: NodeMap, id: string): (r: NodeMap)
    requires Coherent(s)
    ensures NegativeOf(id) in s.pinToNode ==> NegativeOf(id) in r.pinToNode && r.pinToNode[NegativeOf(id)] == Gnd
  {
    var neg := NegativeOf(id);
    if neg in s.pinToNode then
      var n := s.pinToNode[neg];
      var extended := s.nodes[Gnd := s.nodes[Gnd] + s.nodes[n]];
      NodeMap(if n != Gnd then extended - {n} else extended, Relabel(s.pinToNode, s.nodes[n], Gnd), s.counter)
    else
      s
  }

  /** A battery whose `negative` pin is already on 'gnd': 'gnd' is extended
      with a copy of itself and no pin moves. */
  lemma SelfGroundCoherent(s: NodeMap)
    requires Coherent(s)
    ensures var r := NodeMap(s.nodes[Gnd := s.nodes[Gnd] + s.nodes[Gnd]], Relabel(s.pinToNode, s.nodes[Gnd], Gnd), s.counter);
      && r.pinToNode == s.pinToNode
      && Coherent(r)
  {
    var ptn := Relabel(s.pinToNode, s.nodes[Gnd], Gnd);
    forall p | p in ptn
      ensures p in s.pinToNode && ptn[p] == s.pinToNode[p]
    {
      if p in s.nodes[Gnd] {
        assert s.pinToNode[p] == Gnd;
      }
    }
    assert ptn == s.pinToNode;
  }

  lemma GroundNodeCoherent(s: NodeMap, id: string)
    requires Coherent(s)
    ensures Coherent(GroundNode(s, id))
    ensures GroundNode(s, id).pinToNode.Keys == s.pinToNode.Keys
    ensures NegativeOf(id) in s.pinToNode ==> forall p :: p in s.pinToNode ==>
      GroundNode(s, id).pinToNode[p] == (if s.pinToNode[p] == s.pinToNode[NegativeOf(id)] then Gnd else s.pinToNode[p])
    ensures NegativeOf(id) !in s.pinToNode ==> GroundNode(s, id) == s
  {
    var neg := NegativeOf(id);
    if neg in s.pinToNode {
      var n := s.pinToNode[neg];
      if n != Gnd {
        MergeCoherent(s, Gnd, n);
      } else {
        SelfGroundCoherent(s);
      }
    }
  }

  /** The loop over the components, in circuit order, grounding batteries. */
  function Fuse(s: NodeMap, order: seq<string>, layout: map<string, Part>): (r: NodeMap)
    requires Coherent(s)
    requires forall i :: 0 <= i < |order| ==> order[i] in layout
    ensures Coherent(r)
  {
    if order == [] then s
    else
      var t := Fuse(s, order[..|order| - 1], layout);
      var id := order[|order| - 1];
      if layout[id].kind == "battery" then
        GroundNodeCoherent(t, id);
        GroundNode(t, id)
      else
        t
  }

  /** One more component in the grounding loop. */
  lemma FuseSnoc(s: NodeMap, order: seq<string>, layout: map<string, Part>, i: nat)
    requires Coherent(s)
    requires forall j :: 0 <= j < |order| ==> order[j] in layout
    requires i < |order|
    ensures var t := Fuse(s, order[..i], layout);
      Fuse(s, order[..i + 1], layout) == if layout[order[i]].kind == "battery" then GroundNode(t, order[i]) else t
  {
    assert order[..i + 1][..i] == order[..i];
  }

  /** `build_node_map`: the connection loop, then grounding. */
  function BuildNodes(cs: seq<Connection>, order: seq<string>, layout: map<string, Part>): (r: NodeMap)
    requires forall i :: 0 <= i < |order| ==> order[i] in layout
    ensures Coherent(r)
  {
    Fuse(Wire(cs), order, layout)
  }

  /** `id` is a battery whose `negative` pin is on the same (pre-grounding)
      node as `p`. */
  ghost predicate NegativeWith(L: map<PinRef, NodeId>, layout: map<string, Part>, id: string, p: PinRef)
    requires p in L
  {
    id in layout && layout[id].kind == "battery" && NegativeOf(id) in L && L[NegativeOf(id)] == L[p]
  }

  /** Some battery among `order` has its `negative` pin on the same
      (pre-grounding) node as `p`. */
  ghost predicate GroundedBy(L: map<PinRef, NodeId>, order: seq<string>, layout: map<string, Part>, p: PinRef)
    requires p in L
  {
    exists j :: 0 <= j < |order| && NegativeWith(L, layout, order[j], p)
  }

  /** What grounding the batteries of `order` does to the labelling `L`. */
  ghost predicate FusedFrom(L: map<PinRef, NodeId>, order: seq<string>, layout: map<string, Part>, r: NodeMap) {
    && Coherent(r)
    && r.pinToNode.Keys == L.Keys
    && forall p :: p in L ==> r.pinToNode[p] == if GroundedBy(L, order, layout, p) then Gnd else L[p]
  }

  lemma GroundedBySnoc(L: map<PinRef, NodeId>, order: seq<string>, layout: map<string, Part>, p: PinRef)
    requires p in L && order != []
    ensures GroundedBy(L, order, layout, p) <==>
      GroundedBy(L, order[..|order| - 1], layout, p) || NegativeWith(L, layout, order[|order| - 1], p)
  {
    var pre := order[..|order| - 1];
    if GroundedBy(L, order, layout, p) {
      var j :| 0 <= j < |order| && NegativeWith(L, layout, order[j], p);
      if j < |pre| {
        assert pre[j] == order[j];
      }
    }
    if GroundedBy(L, pre, layout, p) {
      var j :| 0 <= j < |pre| && NegativeWith(L, layout, pre[j], p);
      assert order[j] == pre[j];
    }
  }

  /** Grounding one more battery `id` after those of `pre`. */
  lemma FuseStep(L: map<PinRef, NodeId>, pre: seq<string>, id: string, layout: map<string, Part>, t: NodeMap)
    requires forall p :: p in L ==> L[p] != Gnd
    requires FusedFrom(L, pre, layout, t)
    requires id in layout && layout[id].kind == "battery"
    ensures FusedFrom(L, pre + [id], layout, GroundNode(t, id))
  {
    var order := pre + [id];
    assert order[..|order| - 1] == pre;
    var neg := NegativeOf(id);
    GroundNodeCoherent(t, id);
    var r := GroundNode(t, id);
    forall p | p in L
      ensures r.pinToNode[p] == if GroundedBy(L, order, layout, p) then Gnd else L[p]
    {
      GroundedBySnoc(L, order, layout, p);
      if neg in L && L[neg] == L[p] && GroundedBy(L, pre, layout, neg) {
        var j :| 0 <= j < |pre| && NegativeWith(L, layout, pre[j], neg);
        assert NegativeWith(L, layout, pre[j], p);
      }
    }
  }

  /** Grounding moves pins between nodes but never adds or drops one. */
  lemma {:induction false} FuseKeys(s: NodeMap, order: seq<string>, layout: map<string, Part>)
    requires Coherent(s)
    requires forall i :: 0 <= i < |order| ==> order[i] in layout
    ensures Fuse(s, order, layout).pinToNode.Keys == s.pinToNode.Keys
  {
    if order != [] {
      var pre, id := order[..|order| - 1], order[|order| - 1];
      FuseKeys(s, pre, layout);
      GroundNodeCoherent(Fuse(s, pre, layout), id);
    }
  }

  lemma {:induction false} FuseGrounds(s: NodeMap, order: seq<string>, layout: map<string, Part>)
    requires Coherent(s) && Ungrounded(s)
    requires forall i :: 0 <= i < |order| ==> order[i] in layout
    ensures FusedFrom(s.pinToNode, order, layout, Fuse(s, order, layout))
  {
    var L := s.pinToNode;
    if order == [] {
      forall p | p in L ensures !GroundedBy(L, order, layout, p) { }
    } else {
      var pre, id := order[..|order| - 1], order[|order| - 1];
      FuseGrounds(s, pre, layout);
      assert order == pre + [id];
      var t := Fuse(s, pre, layout);
      if layout[id].kind == "battery" {
        FuseStep(L, pre, id, layout, t);
      } else {
        forall p | p in L
          ensures GroundedBy(L, order, layout, p) == GroundedBy(L, pre, layout, p)
        {
          GroundedBySnoc(L, order, layout, p);
        }
      }
    }
  }

  // ---------------------------------------------------------------------
  // The theorems about `build_node_map`

  /** Some connected battery's `negative` pin is wired to `p`. */
  ghost predicate OnGround(cs: seq<Connection>, order: seq<string>, layout: map<string, Part>, p: PinRef) {
    exists j :: 0 <= j < |order| && order[j] in layout && layout[order[j]].kind == "battery" &&
      IsEnd(cs, NegativeOf(order[j])) && Wired(cs, NegativeOf(order[j]), p)
  }

  lemma GroundedByIffOnGround(cs: seq<Connection>, order: seq<string>, layout: map<string, Part>, p: PinRef)
    requires p in Wire(cs).pinToNode
    ensures GroundedBy(Wire(cs).pinToNode, order, layout, p) <==> OnGround(cs, order, layout, p)
  {
    var L := Wire(cs).pinToNode;
    if GroundedBy(L, order, layout, p) {
      var j :| 0 <= j < |order| && NegativeWith(L, layout, order[j], p);
      SameNetIffWired(cs, NegativeOf(order[j]), p);
    }
    if OnGround(cs, order, layout, p) {
      var j :| 0 <= j < |order| && order[j] in layout && layout[order[j]].kind == "battery" &&
        IsEnd(cs, NegativeOf(order[j])) && Wired(cs, NegativeOf(order[j]), p);
      SameNetIffWired(cs, NegativeOf(order[j]), p);
      assert NegativeWith(L, layout, order[j], p);
    }
  }

  /** A pin has a node exactly when it is an end of some connection; the
      node 'gnd' always exists; `pin_to_node[p] == n` exactly when `p` occurs
      in `nodes[n]`. */
  lemma NodeMapShape(cs: seq<Connection>, order: seq<string>, layout: map<string, Part>)
    requires forall i :: 0 <= i < |order| ==> order[i] in layout
    ensures var r := BuildNodes(cs, order, layout);
      && Gnd in r.nodes
      && (forall p :: p in r.pinToNode <==> IsEnd(cs, p))
      && (forall p :: p in r.pinToNode ==> r.pinToNode[p] in r.nodes)
      && (forall n, p :: n in r.nodes ==> (p in r.nodes[n] <==> p in r.pinToNode && r.pinToNode[p] == n))
  {
    var r := BuildNodes(cs, order, layout);
    FuseKeys(Wire(cs), order, layout);
    forall p ensures p in r.pinToNode <==> IsEnd(cs, p) {
      SameNetIffWired(cs, p, p);
    }
  }

  /** A pin is on 'gnd' exactly when a connected battery's `negative` pin is
      wired to it; any other pin keeps the node the connection loop gave it. */
  lemma GroundIffBatteryNegative(cs: seq<Connection>, order: seq<string>, layout: map<string, Part>, p: PinRef)
    requires forall i :: 0 <= i < |order| ==> order[i] in layout
    requires p in BuildNodes(cs, order, layout).pinToNode
    ensures p in Wire(cs).pinToNode
    ensures BuildNodes(cs, order, layout).pinToNode[p] == Gnd <==> OnGround(cs, order, layout, p)
    ensures !OnGround(cs, order, layout, p) ==> BuildNodes(cs, order, layout).pinToNode[p] == Wire(cs).pinToNode[p]
  {
    WirePartitions(cs);
    FuseGrounds(Wire(cs), order, layout);
    GroundedByIffOnGround(cs, order, layout, p);
  }

  /** Two connected pins share a node exactly when a chain of connections
      joins them, or both are wired to some battery's `negative` pin. */
  lemma SameNodeIff(cs: seq<Connection>, order: seq<string>, layout: map<string, Part>, p: PinRef, q: PinRef)
    requires forall i :: 0 <= i < |order| ==> order[i] in layout
    requires p in BuildNodes(cs, order, layout).pinToNode && q in BuildNodes(cs, order, layout).pinToNode
    ensures BuildNodes(cs, order, layout).pinToNode[p] == BuildNodes(cs, order, layout).pinToNode[q] <==>
      Wired(cs, p, q) || (OnGround(cs, order, layout, p) && OnGround(cs, order, layout, q))
  {
    var L := Wire(cs).pinToNode;
    WirePartitions(cs);
    FuseGrounds(Wire(cs), order, layout);
    GroundedByIffOnGround(cs, order, layout, p);
    GroundedByIffOnGround(cs, order, layout, q);
    SameNetIffWired(cs, p, q);
  }
}
