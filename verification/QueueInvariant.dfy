/** What every step of the queue machine keeps. */
module QueueInvariant {
  import opened Counting
  import opened Histories
  import opened LockFreeQueue
  import opened TicketSums

  // ---- tickets ----

  ghost function Holds(t: Thread): Totals {
    match t
    case Enq(p) => Totals(if p.CasTail? || p.RaiseSize? then 1 else 0, 0, 0)
    case Deq(p) => if p.Restore? then Totals(0, 0, 1) else Totals(0, 1, 0)
    case _ => Totals(0, 0, 0)
  }

  ghost function Held(ts: seq<Thread>): (r: seq<Totals>)
    ensures |r| == |ts| && forall j: nat :: j < |ts| ==> r[j] == Holds(ts[j])
  {
    seq(|ts|, j requires 0 <= j < |ts| => Holds(ts[j]))
  }

  ghost function Total(ts: seq<Thread>): Totals {
    Sum(Held(ts))
  }

  // What all but thread i hold.
  ghost function Others(ts: seq<Thread>, i: nat): Totals
    requires i < |ts|
  {
    Rest(Held(ts), i)
  }

  lemma TotalMoved(ts: seq<Thread>, i: nat, t: Thread)
    requires i < |ts|
    ensures Total(ts) == Plus(Holds(ts[i]), Others(ts, i)) && Total(ts[i := t]) == Plus(Holds(t), Others(ts, i))
  {
    hide Holds, Plus, Sum, Rest;
    SplitOff(Held(ts), i);
    Replaced(Held(ts), i, Holds(t));
    assert Held(ts[i := t]) == Held(ts)[i := Holds(t)];
  }

  // ---- the list ----

  // Node n is the k-th node linked.
  ghost predicate At(h: Shared, n: nat, k: nat) {
    k < |h.order| && h.order[k] == n
  }

  // Head and Tail stand in the list, Tail on its last node or the one before.
  ghost predicate Ends(h: Shared) {
    && h.first <= h.last < |h.order| <= h.last + 2
    && h.order[h.first] == h.head.node && h.order[h.last] == h.tail.node
  }

  ghost predicate Links(h: Shared) {
    forall k: nat {:trigger NextOf(h, h.order[k])} :: k < |h.order| ==>
      NextOf(h, h.order[k]) == if k + 1 < |h.order| then To(h.order[k + 1]) else Null
  }

  ghost predicate Nodes(h: Shared) {
    && (forall k: nat :: k < |h.order| ==> h.order[k] in h.data)
    && (forall n :: n in h.next ==> n in h.order)
    && (forall n :: n in h.data ==> n < h.limit)
  }

  /** The list from the first dummy on: Head, then Tail; what Dequeue returned is a prefix of
      what was linked. */
  ghost predicate Shape(h: Shared) {
    && Ends(h) && NoDup(h.order) && Links(h) && Nodes(h)
    && h.returned == Values(h.data, h.order[1..h.first + 1])
  }

  /** The ticket count: elements, less unfinished enqueues, granted tickets and refusals. */
  ghost predicate Tickets(h: Shared, a: Totals) {
    && h.size == |h.order| - 1 - h.first - a.linking - a.granted - a.refused
    && h.first + a.granted < |h.order|
  }

  // ---- what one thread knows ----

  // A value read from Tail: a linked node at or before Tail, and Tail itself if it is its node.
  ghost predicate SeenTail(h: Shared, p: Ptr) {
    (exists k: nat :: k <= h.last && At(h, p.node, k)) && (p.node == h.tail.node ==> p == h.tail)
  }

  ghost predicate SeenHead(h: Shared, p: Ptr) {
    (exists k: nat :: k <= h.first && At(h, p.node, k)) && (p.node == h.head.node ==> p == h.head)
  }

  // The node of a thread's Enqueue; `Private` while it is not linked, `Unfinished` from then on.
  ghost function Mine(t: Thread): set<nat> {
    match t
    case Enq(p) => {p.mine.node}
    case _ => {}
  }

  ghost function Private(t: Thread): set<nat> {
    if t.Enq? && !t.enq.CasTail? && !t.enq.RaiseSize? then Mine(t) else {}
  }

  ghost function Unfinished(t: Thread): set<nat> {
    if t.Enq? && (t.enq.CasTail? || t.enq.RaiseSize?) then Mine(t) else {}
  }

  ghost predicate ThreadOk(h: Shared, t: Thread) {
    && !t.Crashed?
    && (forall n :: n in Mine(t) ==> n < h.limit && n in h.data)
    && (forall n :: n in Private(t) ==> n !in h.order)
    && (forall n :: n in Unfinished(t) ==> n in h.order)
    && match t
       case Enq(p) => EnqOk(h, p)
       case Deq(p) => DeqOk(h, p)
       case _ => true
  }

  ghost predicate EnqOk(h: Shared, p: EnqPc) {
    match p
    case RereadTail(_, seen) => SeenTail(h, seen)
    case ReadNext(_, seen, at) => SeenTail(h, seen) && (h.tail.node == seen.node ==> at == seen.node)
    case CheckTail(_, seen, next) =>
      SeenTail(h, seen) && (h.tail.node == seen.node && !next.Null? ==> NextOf(h, seen.node) == next)
    case CasNext(_, seen) => SeenTail(h, seen)
    case CasTail(mine, seen) => SeenTail(h, seen) && NextOf(h, seen.node) == To(mine.node)
    case HelpTail(_, seen, next) => SeenTail(h, seen) && NextOf(h, seen.node) == To(next)
    case _ => true
  }

  ghost predicate DeqOk(h: Shared, p: DeqPc) {
    match p
    case ReadTailToo(_, head) => SeenHead(h, head)
    case ReadHeadNext(_, head, tail) => SeenHead(h, head) && SeenTail(h, tail) && NotAfter(h, head.node, tail.node)
    case CheckHead(_, head, tail, next) =>
      && SeenHead(h, head) && SeenTail(h, tail) && NotAfter(h, head.node, tail.node)
      && (!next.Null? ==> NextOf(h, head.node) == next)
      && (next.Null? ==> head.node != h.head.node)
    case PushTail(_, tail, next) => SeenTail(h, tail) && NextOf(h, tail.node) == To(next)
    case ReadData(_, head, next) => SeenHead(h, head) && NextOf(h, head.node) == To(next) && Behind(h, head.node)
    case CasHead(_, head, next, value) =>
      && SeenHead(h, head) && NextOf(h, head.node) == To(next) && Behind(h, head.node)
      && next in h.data && value == h.data[next]
    case _ => true
  }

  // Node n stands strictly before Tail.
  ghost predicate Behind(h: Shared, n: nat) {
    exists k: nat :: k < h.last && At(h, n, k)
  }

  ghost predicate NotAfter(h: Shared, n: nat, m: nat) {
    exists j: nat, k: nat :: j <= k && At(h, n, j) && At(h, m, k)
  }

  ghost predicate Apart(t: Thread, u: Thread) {
    Mine(t) !! Mine(u)
  }

  ghost predicate Inv(s: State) {
    && Shape(s.sh)
    && Tickets(s.sh, Total(s.threads))
    && (forall j: nat :: j < |s.threads| ==> ThreadOk(s.sh, s.threads[j]))
    && forall j: nat, k: nat :: j < k < |s.threads| ==> Apart(s.threads[j], s.threads[k])
  }
}
