/** Electrical connectivity of a connection list: two pins are wired together
    when a chain of connections leads from one to the other. This is the
    independent reference against which the engine's node map is proved. */
module Wiring {
  import opened Components

  /** Connection `c` has `p` at one end and `q` at the other. */
  predicate Joins(c: Connection, p: PinRef, q: PinRef) {
    (c.From() == p && c.To() == q) || (c.From() == q && c.To() == p)
  }

  ghost predicate Adjacent(cs: seq<Connection>, p: PinRef, q: PinRef) {
    exists i :: 0 <= i < |cs| && Joins(cs[i], p, q)
  }

  /** `w` is a chain of pins, each joined to the next by some connection. */
  ghost predicate IsWalk(cs: seq<Connection>, w: seq<PinRef>) {
    forall j :: 0 <= j < |w| - 1 ==> Adjacent(cs, w[j], w[j + 1])
  }

  ghost predicate Wired(cs: seq<Connection>, p: PinRef, q: PinRef) {
    exists w :: |w| > 0 && w[0] == p && w[|w| - 1] == q && IsWalk(cs, w)
  }

  /** `p` is an end of some connection in `cs`. */
  ghost predicate IsEnd(cs: seq<Connection>, p: PinRef) {
    exists i :: 0 <= i < |cs| && (cs[i].From() == p || cs[i].To() == p)
  }

  lemma WiredRefl(cs: seq<Connection>, p: PinRef)
    ensures Wired(cs, p, p)
  {
    assert IsWalk(cs, [p]);
  }

  /** The two ends of a connection are wired together, either way round. */
  lemma WiredByConnection(cs: seq<Connection>, i: nat, p: PinRef, q: PinRef)
    requires i < |cs| && Joins(cs[i], p, q)
    ensures Wired(cs, p, q)
  {
    var w := [p, q];
    assert Adjacent(cs, w[0], w[1]);
    assert IsWalk(cs, w);
  }

  lemma WiredTrans(cs: seq<Connection>, p: PinRef, q: PinRef, r: PinRef)
    requires Wired(cs, p, q) && Wired(cs, q, r)
    ensures Wired(cs, p, r)
  {
    var w1 :| |w1| > 0 && w1[0] == p && w1[|w1| - 1] == q && IsWalk(cs, w1);
    var w2 :| |w2| > 0 && w2[0] == q && w2[|w2| - 1] == r && IsWalk(cs, w2);
    var w := w1 + w2[1..];
    forall j | 0 <= j < |w| - 1
      ensures Adjacent(cs, w[j], w[j + 1])
    {
      if j < |w1| - 1 {
        assert w[j] == w1[j] && w[j + 1] == w1[j + 1];
      } else {
        assert w[j] == w2[j - |w1| + 1] && w[j + 1] == w2[j - |w1| + 2];
      }
    }
    assert w[|w| - 1] == r;
  }

  /** Wiring only grows as connections are appended. */
  lemma WiredExtend(cs: seq<Connection>, c: Connection, p: PinRef, q: PinRef)
    requires Wired(cs, p, q)
    ensures Wired(cs + [c], p, q)
  {
    var w :| |w| > 0 && w[0] == p && w[|w| - 1] == q && IsWalk(cs, w);
    forall j | 0 <= j < |w| - 1
      ensures Adjacent(cs + [c], w[j], w[j + 1])
    {
      var i :| 0 <= i < |cs| && Joins(cs[i], w[j], w[j + 1]);
      assert (cs + [c])[i] == cs[i];
    }
  }

  /** A pin wired to a different pin is an end of some connection. */
  lemma WiredEnds(cs: seq<Connection>, p: PinRef, q: PinRef)
    requires Wired(cs, p, q) && p != q
    ensures IsEnd(cs, p) && IsEnd(cs, q)
  {
    var w :| |w| > 0 && w[0] == p && w[|w| - 1] == q && IsWalk(cs, w);
    assert |w| > 1;
    var i :| 0 <= i < |cs| && Joins(cs[i], w[0], w[1]);
    var k :| 0 <= k < |cs| && Joins(cs[k], w[|w| - 2], w[|w| - 1]);
  }

  /** Any tagging that gives both ends of every connection the same tag
      gives the same tag to pins that are wired together. */
  lemma {:induction false} WiredSameLabel<L>(cs: seq<Connection>, tag: map<PinRef, L>, p: PinRef, q: PinRef)
    requires forall i :: 0 <= i < |cs| ==>
      cs[i].From() in tag && cs[i].To() in tag && tag[cs[i].From()] == tag[cs[i].To()]
    requires Wired(cs, p, q) && p in tag
    ensures q in tag && tag[q] == tag[p]
  {
    var w :| |w| > 0 && w[0] == p && w[|w| - 1] == q && IsWalk(cs, w);
    var j := 0;
    while j < |w| - 1
      invariant 0 <= j <= |w| - 1
      invariant w[j] in tag && tag[w[j]] == tag[p]
    {
      var i :| 0 <= i < |cs| && Joins(cs[i], w[j], w[j + 1]);
      j := j + 1;
    }
  }
}
