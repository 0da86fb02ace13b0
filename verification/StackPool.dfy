/** LockFreeStack on top of its NodePool, which is the same tagged machine: Push takes a node from
    the pool's free list, Pop gives it back there. Within the window of both, the pool never hands
    out a node that is in use, which is what the stack machine takes for granted. */
module StackPool {
  import opened Histories
  import opened LockFreeStack
  import opened StackHistory
  import opened StackInvariant
  import opened StackTheorems

  /** The stack, the free list, and which node of the one is which node of the other: `inner` of a
      stack node is its pool node, `outer` the way back. The pool makes nodes before any Push has
      seen them. */
  datatype Layers = Layers(top: State, pool: State, inner: map<nat, nat>, outer: map<nat, nat>)

  datatype Act =
    | OnStack(who: nat, what: Choice)    // a step of Push or Pop itself, or a Pop starts
    | OnPool(who: nat, what: Choice)     // a step of Alloc or Free, or Alloc starts to pop or to make a node
    | Handed(who: nat, value: nat)       // Alloc returns a node and Push goes on with it
    | Freed(who: nat)                    // Pop has read its value and calls Free

  predicate AtFree(t: Thread) {
    t.Pop? && t.pop.PopFree?
  }

  /** A thread is in one of the two at a time. */
  predicate Enabled(s: Layers, a: Act) {
    a.who < |s.top.threads| == |s.pool.threads| &&
    var t, p := s.top.threads[a.who], s.pool.threads[a.who];
    match a
    case OnStack(_, c) => p.Idle? && !AtFree(t) && (t.Idle? ==> !c.StartPush?)
    case OnPool(_, c) => t.Idle? && !AtFree(p) && (p.Idle? && c.StartPush? ==> c.node == s.pool.sh.limit)
    case Handed(_, _) => t.Idle? && AtFree(p)
    case Freed(_) => p.Idle? && AtFree(t)
  }

  // Push goes on with stack node n, whether the stack may have it or not.
  function Takes(s: State, i: nat, n: nat, value: nat): State
    requires i < |s.threads|
  {
    var h := if n < s.sh.limit then s.sh.(outside := s.sh.outside - {n}) else s.sh.(limit := s.sh.limit + 1);
    State(h, s.threads[i := Push(PushTag(n, value))])
  }

  // PushtoFreeNode on pool node p, whether it was handed out or not.
  function Returns(s: State, i: nat, p: nat): State
    requires i < |s.threads|
  {
    State(s.sh.(outside := s.sh.outside - {p}), s.threads[i := Push(PushTag(p, 0))])
  }

  // The stack node that pool node p is, a new one if no Push has had it yet.
  function Outer(s: Layers, p: nat): nat {
    if p in s.outer then s.outer[p] else s.top.sh.limit
  }

  function Inner(s: Layers, n: nat): nat {
    if n in s.inner then s.inner[n] else 0
  }

  function After(s: Layers, a: Act): Layers
    requires Enabled(s, a)
  {
    match a
    case OnStack(i, c) => s.(top := Step(s.top, i, c))
    case OnPool(i, c) => s.(pool := Step(s.pool, i, c))
    case Handed(i, value) =>
      var p := s.pool.threads[i].pop.node;
      var n := Outer(s, p);
      Layers(Takes(s.top, i, n, value), Step(s.pool, i, Go), s.inner[n := p], s.outer[p := n])
    case Freed(i) =>
      s.(top := Step(s.top, i, Go), pool := Returns(s.pool, i, Inner(s, s.top.threads[i].pop.node)))
  }

  ghost predicate Begins(s: Layers) {
    Start(s.top) && Start(s.pool) && |s.top.threads| == |s.pool.threads| && s.inner == map[] && s.outer == map[]
  }

  /** Any interleaving, in which each exchange that pops, of the stack or of the pool, stays within
      its window. */
  ghost predicate LayeredRun(run: seq<Layers>, acts: seq<Act>) {
    && |run| == |acts| + 1
    && Begins(run[0])
    && forall k: nat :: k < |acts| ==>
         Enabled(run[k], acts[k]) && run[k + 1] == After(run[k], acts[k]) && Windows(run[k], acts[k].who)
  }

  ghost predicate Windows(s: Layers, i: nat)
    requires i < |s.top.threads| == |s.pool.threads|
  {
    InWindow(s.top.sh, s.top.threads[i]) && InWindow(s.pool.sh, s.pool.threads[i])
  }

  // ---- a node is in use in exactly one of the two ----

  /** The two name the same nodes; a node the pool has handed out is not in the stack's NodePool, and
      one that Push has had and that is not handed out is. */
  ghost predicate Agree(s: Layers) {
    && |s.top.threads| == |s.pool.threads|
    && (forall p :: p in s.outer ==> s.outer[p] < s.top.sh.limit && s.outer[p] in s.inner && s.inner[s.outer[p]] == p)
    && (forall n: nat :: n < s.top.sh.limit ==> n in s.inner && s.inner[n] in s.outer && s.outer[s.inner[n]] == n)
    && (forall p :: p in s.pool.sh.outside ==> p in s.outer)
    && (forall p :: p in s.outer ==> (s.outer[p] in s.top.sh.outside <==> p !in s.pool.sh.outside))
  }

  // What each of the two does in a step of both, as a move of its own; Go of an idle thread is none.
  function StackMove(s: Layers, a: Act): Turn
    requires Enabled(s, a)
  {
    match a
    case OnStack(i, c) => Turn(i, c)
    case OnPool(i, _) => Turn(i, Go)
    case Handed(i, value) => Turn(i, StartPush(value, Outer(s, s.pool.threads[i].pop.node)))
    case Freed(i) => Turn(i, Go)
  }

  function PoolMove(s: Layers, a: Act): Turn
    requires Enabled(s, a)
  {
    match a
    case OnStack(i, _) => Turn(i, Go)
    case OnPool(i, c) => Turn(i, c)
    case Handed(i, _) => Turn(i, Go)
    case Freed(i) => Turn(i, StartPush(0, Inner(s, s.top.threads[i].pop.node)))
  }

  lemma Idles(s: State, i: nat)
    requires i < |s.threads| && s.threads[i].Idle?
    ensures Step(s, i, Go) == s
  {
  }

  /** The node that Alloc hands to Push is in the stack's NodePool or new, and the node that Pop gives
      to Free has been handed out: each machine takes a step of its own. */
  lemma NeverTwice(s: Layers, a: Act)
    requires Inv(s.top) && Inv(s.pool) && Agree(s) && Enabled(s, a)
    ensures After(s, a).top == Step(s.top, StackMove(s, a).who, StackMove(s, a).what)
    ensures After(s, a).pool == Step(s.pool, PoolMove(s, a).who, PoolMove(s, a).what)
  {
    var i := a.who;
    var t, p := s.top.threads[i], s.pool.threads[i];
    assert ThreadOk(s.top.sh, t) && ThreadOk(s.pool.sh, p);
    match a
    case OnStack(_, _) => Idles(s.pool, i);
    case OnPool(_, _) => Idles(s.top, i);
    case Handed(_, _) => assert p.pop.node in Private(p);
    case Freed(_) => assert t.pop.node in Private(t);
  }

  lemma InsideMove(h: Shared, t: Thread, c: Choice)
    requires !AtFree(t) && (t.Idle? ==> !c.StartPush? || c.node !in h.outside)
    ensures MoveOf(h, t, c).sh.outside == h.outside
    ensures !t.Idle? || !c.StartPush? ==> MoveOf(h, t, c).sh.limit == h.limit
  {
  }

  lemma AgreeHanded(s: Layers, a: Act)
    requires Agree(s) && Enabled(s, a) && a.Handed?
    requires ThreadOk(s.pool.sh, s.pool.threads[a.who]) && s.top.sh.limit !in s.top.sh.outside
    ensures Agree(After(s, a))
  {
    assert s.pool.threads[a.who].pop.node in Private(s.pool.threads[a.who]);
  }

  lemma AgreeFreed(s: Layers, a: Act)
    requires Agree(s) && Enabled(s, a) && a.Freed?
    requires ThreadOk(s.top.sh, s.top.threads[a.who])
    ensures Agree(After(s, a))
  {
    assert s.top.threads[a.who].pop.node in Private(s.top.threads[a.who]);
  }

  lemma AgreeKept(s: Layers, a: Act)
    requires Inv(s.top) && Inv(s.pool) && Agree(s) && Enabled(s, a)
    ensures Agree(After(s, a))
  {
    hide Shape, Tickets, Total, ThreadOk, Apart, MoveOf;
    var i := a.who;
    match a
    case OnStack(_, c) => InsideMove(s.top.sh, s.top.threads[i], c);
    case OnPool(_, c) =>
      LimitIsNew(s.pool);
      InsideMove(s.pool.sh, s.pool.threads[i], c);
    case Handed(_, _) =>
      LimitIsNew(s.top);
      AgreeHanded(s, a);
    case Freed(_) => AgreeFreed(s, a);
  }

  lemma LimitIsNew(s: State)
    requires Inv(s)
    ensures s.sh.limit !in s.sh.outside
  {
  }

  // ---- so both are runs of the machine ----

  lemma RunOn(run: seq<State>, moves: seq<Turn>, m: Turn) returns (run': seq<State>, moves': seq<Turn>)
    requires Run(run, moves) && Windowed(run, moves)
    requires m.who < |run[|moves|].threads| && InWindow(run[|moves|].sh, run[|moves|].threads[m.who])
    ensures Run(run', moves') && Windowed(run', moves') && |moves'| == |moves| + 1
    ensures run'[|moves'|] == Step(run[|moves|], m.who, m.what)
  {
    hide Step, Start, InWindow;
    run', moves' := run + [Step(run[|moves|], m.who, m.what)], moves + [m];
    assert forall k: nat :: k <= |moves| ==> run'[k] == run[k];
  }

  // A run of the one machine, within its window, that ends in s.
  ghost predicate EndsIn(run: seq<State>, moves: seq<Turn>, s: State) {
    Run(run, moves) && Windowed(run, moves) && run[|moves|] == s
  }

  lemma EndInv(run: seq<State>, moves: seq<Turn>, s: State)
    requires EndsIn(run, moves, s)
    ensures Inv(s)
  {
    WindowedInv(run, moves, |moves|);
  }

  /** Any layered run within the windows is, for the stack and for the pool, a run of the stack
      machine within its window, and the two agree on which nodes are in use. */
  lemma {:induction false} BothRun(run: seq<Layers>, acts: seq<Act>, k: nat)
    returns (top: seq<State>, onTop: seq<Turn>, pool: seq<State>, onPool: seq<Turn>)
    requires LayeredRun(run, acts) && k < |run|
    ensures EndsIn(top, onTop, run[k].top) && EndsIn(pool, onPool, run[k].pool)
    ensures Agree(run[k])
  {
    hide Inv, Enabled, After, InWindow, Step, StackMove, PoolMove;
    if k == 0 {
      top, onTop, pool, onPool := [run[0].top], [], [run[0].pool], [];
    } else {
      var s, a := run[k - 1], acts[k - 1];
      top, onTop, pool, onPool := BothRun(run, acts, k - 1);
      EndInv(top, onTop, s.top);
      EndInv(pool, onPool, s.pool);
      NeverTwice(s, a);
      AgreeKept(s, a);
      SameThread(s, a);
      top, onTop := RunOn(top, onTop, StackMove(s, a));
      pool, onPool := RunOn(pool, onPool, PoolMove(s, a));
      assert run[k - 1 + 1] == run[k];
    }
  }

  lemma SameThread(s: Layers, a: Act)
    requires Enabled(s, a)
    ensures StackMove(s, a).who == PoolMove(s, a).who == a.who < |s.top.threads| == |s.pool.threads|
  {
  }

  /** Stack and pool together: within the windows of both, the effects on the stack, in order, are a
      run of the sequential stack, with no assumption about the pool. */
  lemma LayeredLifo(run: seq<Layers>, acts: seq<Act>, k: nat)
    returns (top: seq<State>, onTop: seq<Turn>)
    requires LayeredRun(run, acts) && k < |run|
    ensures EndsIn(top, onTop, run[k].top)
    ensures Play(Lifo, Trace(top, onTop)) == Some(Contents(run[k].top.sh))
  {
    var pool, onPool;
    top, onTop, pool, onPool := BothRun(run, acts, k);
    WindowedLifo(top, onTop, |onTop|);
    assert Trace(top, onTop)[..|onTop|] == Trace(top, onTop);
  }

  /** At every moment of such a run the node that Alloc is about to return is in no Push, no Pop and not
      in the stack. */
  lemma HandedIsFree(run: seq<Layers>, acts: seq<Act>, k: nat, i: nat)
    requires LayeredRun(run, acts) && k < |run| && i < |run[k].pool.threads| && AtFree(run[k].pool.threads[i])
    ensures var n := Outer(run[k], run[k].pool.threads[i].pop.node);
      && n !in run[k].top.sh.stack
      && forall j: nat :: j < |run[k].top.threads| ==> n !in Private(run[k].top.threads[j])
  {
    var top, onTop, pool, onPool := BothRun(run, acts, k);
    EndInv(top, onTop, run[k].top);
    EndInv(pool, onPool, run[k].pool);
    var p := run[k].pool.threads[i];
    assert ThreadOk(run[k].pool.sh, p) && p.pop.node in Private(p);
  }
}
