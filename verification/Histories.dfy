/** Concurrent lists against sequential ones: what each move did to the list the callers see, and
    a sequential queue or stack run through it. */
module Histories {
  /** What one move does: nothing, put a value in, take one out. */
  datatype Effect = Silent | Put(value: nat) | Got(value: nat)

  datatype Discipline = Fifo | Lifo

  datatype Option<T> = None | Some(value: T)

  // A sequential queue puts at the back, a sequential stack at the front; both take at the front.
  function Added(d: Discipline, q: seq<nat>, v: nat): seq<nat> {
    if d == Fifo then q + [v] else [v] + q
  }

  ghost predicate Acts(d: Discipline, q: seq<nat>, e: Effect, q': seq<nat>) {
    match e
    case Silent => q' == q
    case Put(v) => q' == Added(d, q, v)
    case Got(v) => q == [v] + q'
  }

  /** The sequential list run through the effects; None if one of them is impossible there. */
  function Play(d: Discipline, es: seq<Effect>): Option<seq<nat>> {
    if es == [] then Some([])
    else match (Play(d, es[..|es| - 1]), es[|es| - 1])
      case (Some(q), Silent) => Some(q)
      case (Some(q), Put(v)) => Some(Added(d, q, v))
      case (Some(q), Got(v)) => if q != [] && q[0] == v then Some(q[1..]) else None
      case (None, _) => None
  }

  lemma PlayOne(d: Discipline, es: seq<Effect>, e: Effect, q: seq<nat>, q': seq<nat>)
    requires Play(d, es) == Some(q) && Acts(d, q, e, q')
    ensures Play(d, es + [e]) == Some(q')
  {
    assert (es + [e])[..|es|] == es;
  }

  // ---- whose effect is it? ----

  function Heard(e: Effect): seq<Effect> {
    if e.Silent? then [] else [e]
  }

  /** The effects of thread i in moves a to b, where move k is of thread who[k]. */
  function By(trace: seq<Effect>, who: seq<nat>, i: nat, a: nat, b: nat): seq<Effect>
    requires a <= b <= |trace| == |who|
    decreases b
  {
    if a == b then []
    else By(trace, who, i, a, b - 1) + (if who[b - 1] == i then Heard(trace[b - 1]) else [])
  }

  lemma {:induction false} ByHasMove(trace: seq<Effect>, who: seq<nat>, i: nat, a: nat, b: nat, e: Effect)
    requires a <= b <= |trace| == |who| && By(trace, who, i, a, b) == [e]
    ensures exists k: nat :: a <= k < b && who[k] == i && trace[k] == e
  {
    if who[b - 1] == i && !trace[b - 1].Silent? {
      var before := By(trace, who, i, a, b - 1);
      assert |before| == 0;
      assert trace[b - 1] == (before + [trace[b - 1]])[0] == e;
    } else {
      assert By(trace, who, i, a, b - 1) + [] == By(trace, who, i, a, b - 1);
      ByHasMove(trace, who, i, a, b - 1, e);
    }
  }

  // ---- the values in a list of nodes ----

  function Values(data: map<nat, nat>, nodes: seq<nat>): (r: seq<nat>)
    ensures |r| == |nodes|
  {
    seq(|nodes|, k requires 0 <= k < |nodes| => if nodes[k] in data then data[nodes[k]] else 0)
  }

  lemma ValuesGrow(data: map<nat, nat>, data': map<nat, nat>, nodes: seq<nat>)
    requires forall n :: n in nodes ==> n in data && n in data' && data'[n] == data[n]
    ensures Values(data, nodes) == Values(data', nodes)
  {
  }
}
