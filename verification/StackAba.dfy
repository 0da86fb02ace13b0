/** A run past the window: while one Pop waits before its exchange, 65536 tags are drawn, its
    node comes back on top under the same tag, and the exchange installs a node that is free. */
module StackAba {
  import opened LockFreeStack

  ghost predicate Reachable(s: State) {
    exists run: seq<State>, moves: seq<Turn> :: Run(run, moves) && s == run[|run| - 1]
  }

  lemma ReachableStep(s: State, i: nat, c: Choice)
    requires Reachable(s) && i < |s.threads|
    ensures Reachable(Step(s, i, c))
  {
    var run, moves :| Run(run, moves) && s == run[|run| - 1];
    var run', moves' := run + [Step(s, i, c)], moves + [Turn(i, c)];
    assert Run(run', moves') && run'[|run'| - 1] == Step(s, i, c);
  }

  // The waiting thread, and one that runs alone.
  function Two(h: Shared, t: Thread, u: Thread): State {
    State(h, [t, u])
  }

  lemma Solo(h: Shared, t: Thread, u: Thread, c: Choice)
    requires Reachable(Two(h, t, u))
    ensures Reachable(Two(MoveOf(h, u, c).sh, t, MoveOf(h, u, c).t))
  {
    ReachableStep(Two(h, t, u), 1, c);
    assert Step(Two(h, t, u), 1, c) == Two(MoveOf(h, u, c).sh, t, MoveOf(h, u, c).t);
  }

  function AfterPush(h: Shared, value: nat, node: nat): Shared {
    h.(top := Ptr(To(node), h.drawn + 1), size := h.size + 1, drawn := h.drawn + 1,
       next := h.next[node := h.top.node], data := h.data[node := value],
       outside := h.outside - {node}, limit := if node in h.outside then h.limit else h.limit + 1,
       stack := [node] + h.stack, spent := h.spent + {h.drawn + 1})
  }

  function AfterLink(h: Shared, node: nat, draw: nat): Shared {
    h.(top := Ptr(To(node), draw), size := h.size + 1, next := h.next[node := h.top.node],
       stack := [node] + h.stack, spent := h.spent + {draw})
  }

  lemma SoloLink(h: Shared, t: Thread, node: nat, draw: nat)
    requires Reachable(Two(h, t, Push(PushRead(node, draw))))
    ensures Reachable(Two(AfterLink(h, node, draw), t, Idle))
  {
    Solo(h, t, Push(PushRead(node, draw)), Go);
    Solo(h, t, Push(PushNext(node, draw, h.top)), Go);
    Solo(h.(next := h.next[node := h.top.node]), t, Push(PushCas(node, draw, h.top)), Go);
    Solo(AfterLink(h, node, draw).(size := h.size), t, Push(PushSize), Go);
  }

  lemma SoloPush(h: Shared, t: Thread, value: nat, node: nat)
    requires Reachable(Two(h, t, Idle)) && (node in h.outside || node == h.limit)
    ensures Reachable(Two(AfterPush(h, value, node), t, Idle))
  {
    var d := h.drawn + 1;
    var h1 := h.(outside := h.outside - {node}, limit := if node in h.outside then h.limit else h.limit + 1);
    Solo(h, t, Idle, StartPush(value, node));
    Solo(h1, t, Push(PushTag(node, value)), Go);
    var h2 := h1.(drawn := d);
    Solo(h2, t, Push(PushData(node, d, value)), Go);
    SoloLink(h2.(data := h.data[node := value]), t, node, d);
    assert AfterLink(h2.(data := h.data[node := value]), node, d) == AfterPush(h, value, node);
  }

  function AfterPop(h: Shared): Shared
    requires h.top.node.To? && h.stack != []
  {
    h.(top := Ptr(NextOf(h, h.top.node.node), h.drawn + 1), size := h.size - 1, drawn := h.drawn + 1,
       outside := h.outside + {h.top.node.node}, stack := h.stack[1..], spent := h.spent + {h.drawn + 1})
  }

  lemma SoloPop(h: Shared, t: Thread)
    requires Reachable(Two(h, t, Idle)) && h.size > 0 && h.top.node.To? && h.stack != [] && h.top.node.node in h.data
    ensures Reachable(Two(AfterPop(h), t, Idle))
  {
    var d, n := h.drawn + 1, h.top.node.node;
    Solo(h, t, Idle, StartPop);
    Solo(h.(drawn := d), t, Pop(PopTicket(d)), Go);
    var h1 := h.(drawn := d, size := h.size - 1);
    Solo(h1, t, Pop(PopRead(d)), Go);
    Solo(h1, t, Pop(PopNext(d, h.top)), Go);
    Solo(h1, t, Pop(PopCas(d, h.top, NextOf(h, n))), Go);
    var h2 := AfterPop(h).(outside := h.outside);
    Solo(h2, t, Pop(PopData(n, h.data[n])), Go);
    Solo(h2, t, Pop(PopFree(n, h.data[n], h.data[n])), Go);
  }

  // Pops that are refused still draw a tag each.
  lemma {:induction false} RefusedPops(h: Shared, t: Thread, n: nat)
    requires Reachable(Two(h, t, Idle)) && h.size <= 0
    ensures Reachable(Two(h.(drawn := h.drawn + n), t, Idle))
  {
    if n > 0 {
      RefusedPops(h, t, n - 1);
      var h1 := h.(drawn := h.drawn + n - 1);
      Solo(h1, t, Idle, StartPop);
      Solo(h.(drawn := h.drawn + n), t, Pop(PopTicket(h.drawn + n)), Go);
      Solo(h.(drawn := h.drawn + n, size := h.size - 1), t, Pop(PopRestore), Go);
    }
  }

  const EMPTY := Shared(Ptr(Null, 0), 0, 0, map[], map[], {}, 0, [], {0})
  const THREE_NODES := AfterPush(AfterPush(AfterPush(EMPTY, 7, 0), 8, 1), 9, 2)
  const WAITING := Pop(PopCas(4, Ptr(To(2), 3), To(1)))

  // Nodes 2, 1, 0 are on the stack; thread 0 has read Top and Next and stops before its exchange.
  lemma PopWaits()
    ensures Reachable(Two(THREE_NODES.(drawn := 4, size := 2), WAITING, Idle))
  {
    var s0 := Two(EMPTY, Idle, Idle);
    assert Start(s0);
    assert Run([s0], []) && [s0][0] == s0;
    SoloPush(EMPTY, Idle, 7, 0);
    SoloPush(AfterPush(EMPTY, 7, 0), Idle, 8, 1);
    SoloPush(AfterPush(AfterPush(EMPTY, 7, 0), 8, 1), Idle, 9, 2);
    ReachableStep(Two(THREE_NODES, Idle, Idle), 0, StartPop);
    assert Step(Two(THREE_NODES, Idle, Idle), 0, StartPop) == Two(THREE_NODES.(drawn := 4), Pop(PopTicket(4)), Idle);
    var h := THREE_NODES.(drawn := 4, size := 2);
    ReachableStep(Two(THREE_NODES.(drawn := 4), Pop(PopTicket(4)), Idle), 0, Go);
    assert Step(Two(THREE_NODES.(drawn := 4), Pop(PopTicket(4)), Idle), 0, Go) == Two(h, Pop(PopRead(4)), Idle);
    ReachableStep(Two(h, Pop(PopRead(4)), Idle), 0, Go);
    assert Step(Two(h, Pop(PopRead(4)), Idle), 0, Go) == Two(h, Pop(PopNext(4, Ptr(To(2), 3))), Idle);
    ReachableStep(Two(h, Pop(PopNext(4, Ptr(To(2), 3))), Idle), 0, Go);
    assert Step(Two(h, Pop(PopNext(4, Ptr(To(2), 3))), Idle), 0, Go) == Two(h, WAITING, Idle);
  }

  // Meanwhile nodes 2 and 1 are popped, 65532 pops are refused, and node 2 is pushed again.
  lemma NodeReturns() returns (h: Shared)
    ensures Reachable(Two(h, WAITING, Idle))
    ensures h.top == Ptr(To(2), 65539) && NextOf(h, 2) == To(0) && 1 in h.outside
  {
    PopWaits();
    var h1 := THREE_NODES.(drawn := 4, size := 2);
    SoloPop(h1, WAITING);
    SoloPop(AfterPop(h1), WAITING);
    var h2 := AfterPop(AfterPop(h1));
    assert h2.top == Ptr(To(0), 6) && h2.size == 0 && h2.outside == {1, 2} && h2.drawn == 6;
    RefusedPops(h2, WAITING, 65532);
    var h3 := h2.(drawn := 65538);
    SoloPush(h3, WAITING, 5, 2);
    h := AfterPush(h3, 5, 2);
  }

  /** Past the window a Pop can be fooled: Top then points into NodePool. */
  lemma AbaHappens()
    ensures exists s: State :: Reachable(s) && |s.threads| == 2 && WrongPop(s.sh, s.threads[0]) &&
              var s' := Step(s, 0, Go); s'.sh.top.node.To? && s'.sh.top.node.node in s'.sh.outside
  {
    var h := NodeReturns();
    var s := Two(h, WAITING, Idle);
    assert 65539 % TAGS == 3;
    assert WrongPop(s.sh, s.threads[0]);
    assert Step(s, 0, Go).sh.top.node == To(1);
  }
}
