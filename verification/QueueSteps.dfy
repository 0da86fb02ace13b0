/** Each step of the queue machine keeps the invariant. What threads know about the list only
    grows truer (Later), so the threads that do not move are dealt with once for all steps. */
module QueueSteps {
  import opened Counting
  import opened Histories
  import opened LockFreeQueue
  import opened QueueInvariant
  import opened TicketSums

  /** The list has only grown: positions, links and data stand, and Head and Tail, if they
      moved, stand on a node they never stood on before. */
  ghost predicate Later(h: Shared, h': Shared) {
    && h.order <= h'.order && h.first <= h'.first && h.last <= h'.last && h.limit <= h'.limit
    && (forall n :: n in h.next ==> n in h'.next && h'.next[n] == h.next[n])
    && (forall n :: n in h.data ==> n in h'.data && h'.data[n] == h.data[n])
    && (h'.tail == h.tail || forall k: nat :: k <= h.last && k < |h.order| ==> h.order[k] != h'.tail.node)
    && (h'.head == h.head || forall k: nat :: k <= h.first && k < |h.order| ==> h.order[k] != h'.head.node)
  }

  lemma AtLater(h: Shared, h': Shared)
    requires Later(h, h')
    ensures forall n: nat, k: nat :: At(h, n, k) ==> At(h', n, k)
  {
  }

  lemma SeenTailLater(h: Shared, h': Shared, p: Ptr)
    requires Later(h, h') && SeenTail(h, p)
    ensures SeenTail(h', p)
  {
    AtLater(h, h');
  }

  lemma SeenHeadLater(h: Shared, h': Shared, p: Ptr)
    requires Later(h, h') && SeenHead(h, p)
    ensures SeenHead(h', p)
    ensures h'.head != h.head ==> h'.head.node != p.node
  {
    AtLater(h, h');
  }

  lemma EnqLater(h: Shared, h': Shared, p: EnqPc)
    requires Later(h, h') && EnqOk(h, p)
    ensures EnqOk(h', p)
  {
    if !p.ReadTail? && !p.RaiseSize? {
      SeenTailLater(h, h', p.seen);
    }
  }

  lemma DeqLater(h: Shared, h': Shared, p: DeqPc)
    requires Later(h, h') && DeqOk(h, p)
    ensures DeqOk(h', p)
  {
    AtLater(h, h');
    if !p.Restore? && !p.ReadHead? && !p.PushTail? {
      SeenHeadLater(h, h', p.head);
    }
    if p.ReadHeadNext? || p.CheckHead? || p.PushTail? {
      SeenTailLater(h, h', p.tail);
    }
  }

  // ---- the four ways the list changes ----

  function Allocated(h: Shared, value: nat): Shared {
    h.(limit := h.limit + 1, data := h.data[h.limit := value])
  }

  function LinkedAfter(h: Shared, at: nat, node: nat): Shared {
    h.(next := h.next[at := node], order := h.order + [node])
  }

  function TailMoved(h: Shared, p: Ptr): Shared {
    h.(tail := p, last := h.last + 1)
  }

  function HeadMoved(h: Shared, p: Ptr, value: nat): Shared {
    h.(head := p, first := h.first + 1, returned := h.returned + [value])
  }

  lemma AllocShape(h: Shared, value: nat)
    requires Shape(h)
    ensures Shape(Allocated(h, value)) && Later(h, Allocated(h, value))
  {
    var h' := Allocated(h, value);
    assert h.limit !in h.data;
    ValuesGrow(h.data, h'.data, h.order[1..h.first + 1]);
    assert forall n :: NextOf(h', n) == NextOf(h, n);
  }

  lemma LinkAtEnd(h: Shared, at: nat)
    requires Shape(h) && at !in h.next
    requires exists k: nat :: k <= h.last && At(h, at, k)
    ensures at == h.tail.node && |h.order| == h.last + 1
  {
    var k: nat :| k <= h.last && At(h, at, k);
    assert NextOf(h, h.order[k]) == Null;
  }

  lemma LinkLinks(h: Shared, node: nat)
    requires Ends(h) && Links(h) && NoDup(h.order) && node !in h.order && node !in h.next && |h.order| == h.last + 1
    ensures Links(LinkedAfter(h, h.tail.node, node)) && NoDup(LinkedAfter(h, h.tail.node, node).order)
  {
    var h' := LinkedAfter(h, h.tail.node, node);
    forall k: nat | k < |h'.order|
      ensures NextOf(h', h'.order[k]) == if k + 1 < |h'.order| then To(h'.order[k + 1]) else Null
    {
      if k < h.last {
        assert NextOf(h, h.order[k]) == To(h.order[k + 1]);
      }
    }
  }

  lemma LinkShape(h: Shared, at: nat, node: nat)
    requires Shape(h) && at !in h.next && node !in h.order && node in h.data
    requires at == h.tail.node && |h.order| == h.last + 1
    ensures Shape(LinkedAfter(h, at, node)) && Later(h, LinkedAfter(h, at, node))
  {
    var h' := LinkedAfter(h, at, node);
    LinkLinks(h, node);
    assert h'.order[1..h'.first + 1] == h.order[1..h.first + 1];
    assert h'.order[h.last] == at;
    assert Nodes(h');
  }

  lemma SizeShape(h: Shared, size: int)
    requires Shape(h)
    ensures Shape(h.(size := size)) && Later(h, h.(size := size))
  {
    assert forall n :: NextOf(h.(size := size), n) == NextOf(h, n);
  }

  lemma TailShape(h: Shared, p: Ptr)
    requires Shape(h) && NextOf(h, h.tail.node) == To(p.node)
    ensures Shape(TailMoved(h, p)) && Later(h, TailMoved(h, p))
  {
    assert NextOf(h, h.order[h.last]) == To(p.node);
    assert p.node == h.order[h.last + 1];
    assert forall n :: NextOf(TailMoved(h, p), n) == NextOf(h, n);
  }

  lemma HeadShape(h: Shared, p: Ptr, value: nat)
    requires Shape(h) && NextOf(h, h.head.node) == To(p.node) && h.first < h.last
    requires p.node in h.data && value == h.data[p.node]
    ensures Shape(HeadMoved(h, p, value)) && Later(h, HeadMoved(h, p, value))
  {
    assert NextOf(h, h.order[h.first]) == To(p.node);
    assert h.order[1..h.first + 2] == h.order[1..h.first + 1] + [p.node];
    assert forall n :: NextOf(HeadMoved(h, p, value), n) == NextOf(h, n);
  }

  // ---- the moving thread ----

  lemma BeginStep(h: Shared, c: Choice, o: Totals)
    requires Shape(h) && Tickets(h, Plus(Holds(Idle), o))
    ensures var m := BeginMove(h, c);
      Later(h, m.sh) && Shape(m.sh) && Tickets(m.sh, Plus(Holds(m.t), o)) && ThreadOk(m.sh, m.t)
    ensures var m := BeginMove(h, c); m.sh.order == h.order && forall n :: n in Mine(m.t) ==> n >= h.limit
  {
    if c.Enqueue? {
      AllocShape(h, c.value);
    }
    SizeShape(h, h.size - 1);
  }

  lemma EnqPrivate(h: Shared, p: EnqPc)
    ensures var m := EnqMove(h, p);
      Mine(m.t) <= Mine(Enq(p)) && forall n :: n in m.sh.order ==> n in h.order || n in Private(Enq(p))
  {
  }

  lemma EnqShape(h: Shared, p: EnqPc)
    requires Shape(h) && ThreadOk(h, Enq(p))
    ensures var m := EnqMove(h, p); Later(h, m.sh) && Shape(m.sh)
  {
    hide Values, Links;
    match p
    case CasNext(mine, seen) =>
      if seen.node !in h.next {
        LinkAtEnd(h, seen.node);
        LinkShape(h, seen.node, mine.node);
      }
    case CasTail(mine, seen) =>
      if h.tail == seen {
        TailShape(h, mine);
      }
    case HelpTail(mine, seen, next) =>
      if h.tail == seen {
        TailShape(h, Ptr(next, 0));
      }
    case RaiseSize(_) =>
      SizeShape(h, h.size + 1);
    case _ =>
  }

  lemma EnqTickets(h: Shared, p: EnqPc, o: Totals)
    requires Tickets(h, Plus(Holds(Enq(p)), o)) && ThreadOk(h, Enq(p))
    ensures var m := EnqMove(h, p); Tickets(m.sh, Plus(Holds(m.t), o))
  {
    hide SeenTail;
  }

  lemma EnqKnows(h: Shared, p: EnqPc)
    requires Shape(h) && ThreadOk(h, Enq(p))
    ensures var m := EnqMove(h, p); ThreadOk(m.sh, m.t)
  {
    hide NoDup, Links, Nodes, Values;
    EnqShape(h, p);
    var m := EnqMove(h, p);
    if p.ReadTail? {
      assert At(h, h.tail.node, h.last);
    }
    if p.RereadTail? || p.ReadNext? || p.CheckTail? || p.CasNext? {
      SeenTailLater(h, m.sh, p.seen);
    }
  }

  lemma DeqShape(h: Shared, p: DeqPc)
    requires Shape(h) && ThreadOk(h, Deq(p))
    ensures var m := DeqMove(h, p); Later(h, m.sh) && Shape(m.sh)
    ensures var m := DeqMove(h, p); Mine(m.t) == {} && m.sh.order == h.order
  {
    hide Values, Links, Nodes;
    match p
    case PushTail(tag, tail, next) =>
      if h.tail == tail {
        TailShape(h, Ptr(next, tag));
      }
    case CasHead(tag, head, next, value) =>
      if h.head == head {
        HeadShape(h, Ptr(next, tag), value);
      }
    case Restore =>
      SizeShape(h, h.size + 1);
    case _ =>
  }

  lemma DeqTickets(h: Shared, p: DeqPc, o: Totals)
    requires Tickets(h, Plus(Holds(Deq(p)), o)) && ThreadOk(h, Deq(p))
    ensures var m := DeqMove(h, p); !m.t.Crashed? ==> Tickets(m.sh, Plus(Holds(m.t), o))
  {
    hide DeqOk, ThreadOk;
  }

  lemma BehindTail(h: Shared, head: Ptr, tail: Ptr)
    requires Shape(h) && SeenTail(h, tail) && NotAfter(h, head.node, tail.node) && head.node != tail.node
    ensures Behind(h, head.node)
  {
    hide Links, Nodes, Values;
    var j: nat, k: nat :| j <= k && At(h, head.node, j) && At(h, tail.node, k);
    var seen: nat :| seen <= h.last && At(h, tail.node, seen);
    assert k == seen;
  }

  lemma NullNextIsOld(h: Shared, n: nat, granted: nat)
    requires Links(h) && Ends(h) && h.first + granted < |h.order| && granted > 0
    requires NextOf(h, n).Null?
    ensures n != h.head.node
  {
    assert !NextOf(h, h.order[h.first]).Null?;
  }

  lemma NextHasData(h: Shared, n: nat, next: nat)
    requires Links(h) && Ends(h) && Nodes(h) && Behind(h, n) && NextOf(h, n) == To(next)
    ensures next in h.data
  {
    var k: nat :| k < h.last && At(h, n, k);
    assert NextOf(h, h.order[k]) == To(h.order[k + 1]);
  }

  lemma DeqKnows(h: Shared, p: DeqPc, o: Totals)
    requires Shape(h) && Tickets(h, Plus(Holds(Deq(p)), o)) && ThreadOk(h, Deq(p))
    ensures var m := DeqMove(h, p); ThreadOk(m.sh, m.t)
  {
    hide Values, NoDup, Links;
    match p
    case ReadHead(_) =>
      assert At(h, h.head.node, h.first);
    case ReadTailToo(_, head) =>
      assert At(h, h.tail.node, h.last);
    case ReadHeadNext(_, head, _) =>
      if NextOf(h, head.node).Null? {
        NullNextIsOld(h, head.node, 1 + o.granted);
      }
    case CheckHead(_, head, tail, next) =>
      if head.node != tail.node {
        BehindTail(h, head, tail);
      }
    case ReadData(_, head, next) =>
      NextHasData(h, head.node, next);
    case _ =>
  }

  // ---- one step of any thread ----

  // A move touches only nodes of its own: links its private node, or allocates one.
  ghost predicate OwnNodes(h: Shared, t: Thread, m: Move) {
    && (forall n :: n in Mine(m.t) ==> n in Mine(t) || n >= h.limit)
    && (forall n :: n in m.sh.order ==> n in h.order || n in Private(t))
  }

  lemma MoverKept(h: Shared, t: Thread, c: Choice, o: Totals)
    requires Shape(h) && Tickets(h, Plus(Holds(t), o)) && ThreadOk(h, t)
    ensures var m := MoveOf(h, t, c);
      Later(h, m.sh) && Shape(m.sh) && Tickets(m.sh, Plus(Holds(m.t), o)) && ThreadOk(m.sh, m.t) && OwnNodes(h, t, m)
  {
    match t
    case Idle =>
      BeginStep(h, c, o);
    case Enq(p) =>
      EnqPrivate(h, p);
      EnqShape(h, p);
      EnqTickets(h, p, o);
      EnqKnows(h, p);
    case Deq(p) =>
      DeqShape(h, p);
      DeqTickets(h, p, o);
      DeqKnows(h, p, o);
  }

  lemma OtherKept(h: Shared, t: Thread, m: Move, u: Thread)
    requires Later(h, m.sh) && OwnNodes(h, t, m)
    requires ThreadOk(h, u) && Apart(t, u)
    ensures ThreadOk(m.sh, u) && Apart(m.t, u)
  {
    match u
    case Enq(p) => EnqLater(h, m.sh, p);
    case Deq(p) => DeqLater(h, m.sh, p);
    case _ =>
  }
}
