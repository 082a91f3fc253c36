/**
 The in-process backplane: which connections a publish to a target reaches. Two indexes,
 target to connections and connection to targets, are kept as exact inverses, so together
 they are one set of pairs.
 */
module Backplane {

  type ConnId = string
  /** A sink, by its identity. */
  type Sink = nat
  datatype Target = Target(kind: string, id: string)

  function Own(c: ConnId): Target { Target("connection", c) }

  /** What the two indexes amount to. */
  datatype Registry = Registry(sinks: map<ConnId, Sink>, pairs: set<(ConnId, Target)>)

  function Associated(r: Registry, c: ConnId, t: Target): Registry { r.(pairs := r.pairs + {(c, t)}) }

  function Attached(r: Registry, c: ConnId, sink: Sink): Registry {
    Associated(r.(sinks := r.sinks[c := sink]), c, Own(c))
  }

  function Detached(r: Registry, c: ConnId): Registry {
    Registry(r.sinks - {c}, set p | p in r.pairs && p.0 != c)
  }

  /** The attached connections of a target. */
  function Reached(r: Registry, t: Target): set<ConnId> { set c | c in r.sinks && (c, t) in r.pairs }

  predicate In<K, V>(index: map<K, set<V>>, k: K, v: V) { k in index && v in index[k] }

  function Put<K(!new), V(!new)>(index: map<K, set<V>>, k: K, v: V): (r: map<K, set<V>>)
    ensures forall j, w :: In(r, j, w) <==> In(index, j, w) || (j == k && w == v)
  {
    index[k := (if k in index then index[k] else {}) + {v}]
  }

  class InMemoryBackplane {
    var sinks: map<ConnId, Sink>
    var targetConns: map<Target, set<ConnId>>
    var connTargets: map<ConnId, set<Target>>

    /** The indexes are inverses of each other and hold no empty entry. */
    ghost predicate Valid()
      reads this
    {
      && (forall t, c :: In(targetConns, t, c) <==> In(connTargets, c, t))
      && (forall t | t in targetConns :: targetConns[t] != {})
      && (forall c | c in connTargets :: connTargets[c] != {})
    }

    ghost function View(): Registry
      reads this
    {
      Registry(sinks, set t, c | t in targetConns && c in targetConns[t] && In(targetConns, t, c) :: (c, t))
    }

    constructor ()
      ensures Valid() && View() == Registry(map[], {})
    {
      sinks, targetConns, connTargets := map[], map[], map[];
    }

    method Link(c: ConnId, t: Target)
      requires Valid()
      modifies `targetConns, `connTargets
      ensures Valid() && View() == Associated(old(View()), c, t)
    {
      ghost var before := View();
      targetConns := Put(targetConns, t, c);
      connTargets := Put(connTargets, c, t);
      assert forall p :: p in View().pairs <==> p in before.pairs || p == (c, t);
    }

    method Attach(c: ConnId, sink: Sink)
      requires Valid()
      modifies this
      ensures Valid() && View() == Attached(old(View()), c, sink)
    {
      sinks := sinks[c := sink];
      Link(c, Own(c));
    }

    method Associate(c: ConnId, t: Target)
      requires Valid()
      modifies this
      ensures Valid() && View() == Associated(old(View()), c, t)
    {
      Link(c, t);
    }

    /** The sinks called are those of the attached connections of the target, each once. */
    method Publish(t: Target) returns (delivered: nat, reached: seq<ConnId>, called: seq<Sink>)
      requires Valid()
      ensures delivered == |Reached(View(), t)| == |reached| == |called|
      ensures forall c :: c in reached <==> c in Reached(View(), t)
      ensures forall i, j | 0 <= i < j < |reached| :: reached[i] != reached[j]
      ensures forall i | 0 <= i < |reached| :: reached[i] in sinks && called[i] == sinks[reached[i]]
    {
      reached, called := [], [];
      var rest := if t in targetConns then targetConns[t] else {};
      ghost var all := rest;
      ghost var done: set<ConnId> := {};
      while rest != {}
        invariant rest <= all && done == set c | c in all - rest && c in sinks
        invariant |reached| == |called| == |done|
        invariant forall c :: c in reached <==> c in done
        invariant forall i, j | 0 <= i < j < |reached| :: reached[i] != reached[j]
        invariant forall i | 0 <= i < |reached| :: reached[i] in sinks && called[i] == sinks[reached[i]]
        decreases rest
      {
        var c :| c in rest;
        rest := rest - {c};
        if c in sinks {
          reached, called, done := reached + [c], called + [sinks[c]], done + {c};
        }
      }
      assert done == Reached(View(), t);
      delivered := |called|;
    }

    /** Forgets one entry of the first index, and the whole target when it was the last one. */
    method Unlink(c: ConnId, t: Target)
      requires t in targetConns && forall u | u in targetConns :: targetConns[u] != {}
      modifies `targetConns
      ensures forall u | u in targetConns :: targetConns[u] != {}
      ensures forall u, d :: In(targetConns, u, d) <==> In(old(targetConns), u, d) && !(u == t && d == c)
    {
      var conns := targetConns[t] - {c};
      if conns == {} {
        assert forall d | d in targetConns[t] :: d == c by {
          forall d | d in targetConns[t] ensures d == c { assert d in conns || d == c; }
        }
        targetConns := targetConns - {t};
      } else {
        targetConns := targetConns[t := conns];
      }
    }

    method Detach(c: ConnId)
      requires Valid()
      modifies this
      ensures Valid() && View() == Detached(old(View()), c)
    {
      sinks := sinks - {c};
      var mine := if c in connTargets then connTargets[c] else {};
      var rest := mine;
      assert forall u | In(targetConns, u, c) :: u in mine;
      while rest != {}
        invariant rest <= mine && sinks == old(sinks) - {c} && connTargets == old(connTargets)
        invariant forall u, d :: In(targetConns, u, d) <==> In(old(targetConns), u, d) && (d != c || u in rest)
        invariant forall u | u in targetConns :: targetConns[u] != {}
        decreases rest
      {
        var t :| t in rest;
        assert In(targetConns, t, c);
        rest := rest - {t};
        Unlink(c, t);
      }
      connTargets := connTargets - {c};
      assert forall u, d :: In(targetConns, u, d) <==> In(old(targetConns), u, d) && d != c;
      assert View().pairs == Detached(old(View()), c).pairs;
    }

    method IsAttached(c: ConnId) returns (ok: bool)
      ensures ok == (c in View().sinks)
    {
      ok := c in sinks;
    }
  }

  // ---------------------------------------------------------------- histories

  datatype Op = AttachOp(c: ConnId, sink: Sink) | AssociateOp(c: ConnId, t: Target) | DetachOp(c: ConnId)

  function Apply(r: Registry, op: Op): Registry {
    match op
    case AttachOp(c, sink) => Attached(r, c, sink)
    case AssociateOp(c, t) => Associated(r, c, t)
    case DetachOp(c) => Detached(r, c)
  }

  function Run(ops: seq<Op>): Registry {
    if |ops| == 0 then Registry(map[], {}) else Apply(Run(ops[..|ops| - 1]), ops[|ops| - 1])
  }

  predicate Links(op: Op, c: ConnId, t: Target) { (op == AssociateOp(c, t)) || (op.AttachOp? && op.c == c && t == Own(c)) }

  /** Step i has not been undone by a later detach of c. */
  predicate Stands(ops: seq<Op>, i: nat, c: ConnId) { forall j | i < j < |ops| :: ops[j] != DetachOp(c) }

  ghost predicate LinkedSinceDetach(ops: seq<Op>, c: ConnId, t: Target) {
    exists i :: 0 <= i < |ops| && Links(ops[i], c, t) && Stands(ops, i, c)
  }

  ghost predicate AttachedSinceDetach(ops: seq<Op>, c: ConnId) {
    exists i :: 0 <= i < |ops| && ops[i].AttachOp? && ops[i].c == c && Stands(ops, i, c)
  }

  lemma StandsExtends(ops: seq<Op>, i: nat, c: ConnId)
    requires i < |ops| - 1
    ensures Stands(ops, i, c) <==> Stands(ops[..|ops| - 1], i, c) && ops[|ops| - 1] != DetachOp(c)
  {
    var init := ops[..|ops| - 1];
    assert forall j | i < j < |init| :: init[j] == ops[j];
    if Stands(init, i, c) && ops[|ops| - 1] != DetachOp(c) {
      forall j | i < j < |ops| ensures ops[j] != DetachOp(c) { if j < |init| { assert init[j] == ops[j]; } }
    }
  }

  /** A pair is there exactly when it was made and its connection not detached since. */
  lemma {:induction false} PairsAreHistory(ops: seq<Op>, c: ConnId, t: Target)
    ensures (c, t) in Run(ops).pairs <==> LinkedSinceDetach(ops, c, t)
  {
    if |ops| > 0 {
      var init, op := ops[..|ops| - 1], ops[|ops| - 1];
      PairsAreHistory(init, c, t);
      if Links(op, c, t) {
        assert Stands(ops, |ops| - 1, c);
      } else if LinkedSinceDetach(ops, c, t) {
        var i :| 0 <= i < |ops| && Links(ops[i], c, t) && Stands(ops, i, c);
        StandsExtends(ops, i, c);
        assert init[i] == ops[i];
      } else if LinkedSinceDetach(init, c, t) {
        var i :| 0 <= i < |init| && Links(init[i], c, t) && Stands(init, i, c);
        StandsExtends(ops, i, c);
        assert ops[i] == init[i];
      }
    }
  }

  /** A sink is there exactly when its connection was attached and not detached since. */
  lemma {:induction false} SinksAreHistory(ops: seq<Op>, c: ConnId)
    ensures c in Run(ops).sinks <==> AttachedSinceDetach(ops, c)
  {
    if |ops| > 0 {
      var init, op := ops[..|ops| - 1], ops[|ops| - 1];
      SinksAreHistory(init, c);
      if op.AttachOp? && op.c == c {
        assert Stands(ops, |ops| - 1, c);
      } else if AttachedSinceDetach(ops, c) {
        var i :| 0 <= i < |ops| && ops[i].AttachOp? && ops[i].c == c && Stands(ops, i, c);
        StandsExtends(ops, i, c);
        assert init[i] == ops[i];
      } else if AttachedSinceDetach(init, c) {
        var i :| 0 <= i < |init| && init[i].AttachOp? && init[i].c == c && Stands(init, i, c);
        StandsExtends(ops, i, c);
        assert ops[i] == init[i];
      }
    }
  }

  /**
   Whom a publish reaches, in terms of what happened: the connections attached and associated
   with the target since they last detached, however often they were associated.
   */
  lemma ReachedIsHistory(ops: seq<Op>, t: Target, c: ConnId)
    ensures c in Reached(Run(ops), t) <==> AttachedSinceDetach(ops, c) && LinkedSinceDetach(ops, c, t)
  {
    PairsAreHistory(ops, c, t);
    SinksAreHistory(ops, c);
  }

  /** An attached connection is reachable under its own id. */
  lemma AttachedIsReachable(ops: seq<Op>, c: ConnId)
    requires AttachedSinceDetach(ops, c)
    ensures c in Reached(Run(ops), Own(c))
  {
    var i :| 0 <= i < |ops| && ops[i].AttachOp? && ops[i].c == c && Stands(ops, i, c);
    assert Links(ops[i], c, Own(c));
    ReachedIsHistory(ops, Own(c), c);
  }

  /** After a detach no trace of the connection is left: the registry is the one of a history without it. */
  lemma {:induction false} DetachErases(ops: seq<Op>, c: ConnId)
    ensures Detached(Run(ops), c) == Run(Without(ops, c))
  {
    if |ops| > 0 {
      var init, op := ops[..|ops| - 1], ops[|ops| - 1];
      DetachErases(init, c);
      if op.c != c {
        assert Without(ops, c) == Without(init, c) + [op];
        assert Without(ops, c)[..|Without(ops, c)| - 1] == Without(init, c);
        DetachCommutes(Run(init), op, c);
      } else {
        assert Without(ops, c) == Without(init, c);
        DetachAbsorbs(Run(init), op);
      }
    }
  }

  /** The operations of every other connection. */
  function Without(ops: seq<Op>, c: ConnId): seq<Op> {
    if |ops| == 0 then []
    else Without(ops[..|ops| - 1], c) + (if ops[|ops| - 1].c != c then [ops[|ops| - 1]] else [])
  }

  lemma DetachCommutes(r: Registry, op: Op, c: ConnId)
    requires op.c != c
    ensures Detached(Apply(r, op), c) == Apply(Detached(r, c), op)
  {
    assert Detached(Apply(r, op), c).sinks == Apply(Detached(r, c), op).sinks;
    assert Detached(Apply(r, op), c).pairs == Apply(Detached(r, c), op).pairs;
  }

  lemma DetachAbsorbs(r: Registry, op: Op)
    ensures Detached(Apply(r, op), op.c) == Detached(r, op.c)
  {
    assert Detached(Apply(r, op), op.c).sinks == Detached(r, op.c).sinks;
    assert Detached(Apply(r, op), op.c).pairs == Detached(r, op.c).pairs;
  }
}
