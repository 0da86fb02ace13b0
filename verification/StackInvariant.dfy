/** What every step of the stack machine keeps, as long as no pop exchange is fooled. */
module StackInvariant {
  import opened Counting
  import opened Histories
  import opened LockFreeStack
  import opened TicketSums

  // ---- tickets ----

  ghost function Holds(t: Thread): Totals {
    match t
    case Push(p) => Totals(if p.PushSize? then 1 else 0, 0, 0)
    case Pop(p) => Totals(0, if p.PopRead? || p.PopNext? || p.PopCas? then 1 else 0, if p.PopRestore? then 1 else 0)
    case _ => Totals(0, 0, 0)
  }

  ghost function Held(ts: seq<Thread>): (r: seq<Totals>)
    ensures |r| == |ts| && forall j: nat :: j < |ts| ==> r[j] == Holds(ts[j])
  {
    seq(|ts|, j requires 0 <= j < |ts| => Holds(ts[j]))
  }

  ghost function Total(ts: seq<Thread>): Totals {
    Sum(Held(ts))
  }

  // What all but thread i hold.
  ghost function Others(ts: seq<Thread>, i: nat): Totals
    requires i < |ts|
  {
    Rest(Held(ts), i)
  }

  lemma TotalMoved(ts: seq<Thread>, i: nat, t: Thread)
    requires i < |ts|
    ensures Total(ts) == Plus(Holds(ts[i]), Others(ts, i)) && Total(ts[i := t]) == Plus(Holds(t), Others(ts, i))
  {
    hide Holds, Plus, Sum, Rest;
    SplitOff(Held(ts), i);
    Replaced(Held(ts), i, Holds(t));
    assert Held(ts[i := t]) == Held(ts)[i := Holds(t)];
  }

  // ---- the list ----

  ghost predicate Links(h: Shared) {
    forall k: nat {:trigger NextOf(h, h.stack[k])} :: k < |h.stack| ==>
      NextOf(h, h.stack[k]) == if k + 1 < |h.stack| then To(h.stack[k + 1]) else Null
  }

  ghost predicate Nodes(h: Shared) {
    && (forall n :: n in h.stack ==> n in h.data && n !in h.outside && n < h.limit)
    && (forall n :: n in h.outside ==> n < h.limit)
  }

  ghost predicate Shape(h: Shared) {
    && h.top.node == (if h.stack == [] then Null else To(h.stack[0]))
    && h.top.draw in h.spent && (forall d :: d in h.spent ==> d <= h.drawn)
    && NoDup(h.stack) && Links(h) && Nodes(h)
  }

  /** The ticket count: elements, less unfinished pushes, granted tickets and refusals. */
  ghost predicate Tickets(h: Shared, a: Totals) {
    && h.size == |h.stack| - a.linking - a.granted - a.refused
    && a.granted <= |h.stack|
  }

  // ---- what one thread owns and knows ----

  // The node a thread holds that is neither in the stack nor in NodePool.
  ghost function Private(t: Thread): set<nat> {
    match t
    case Push(p) => if p.PushSize? then {} else {p.node}
    case Pop(p) => if p.PopData? || p.PopFree? then {p.node} else {}
    case _ => {}
  }

  // The tag it has drawn and may yet install.
  ghost function Pending(t: Thread): set<nat> {
    match t
    case Push(p) => if p.PushTag? || p.PushSize? then {} else {p.draw}
    case Pop(p) => if p.PopTicket? || p.PopRead? || p.PopNext? || p.PopCas? then {p.draw} else {}
    case _ => {}
  }

  // What was read from Top: if Top still carries the same draw, it is still the same.
  ghost predicate Seen(h: Shared, p: Ptr) {
    p.draw in h.spent && (p.draw == h.top.draw ==> p == h.top)
  }

  ghost predicate ThreadOk(h: Shared, t: Thread) {
    && !t.Crashed?
    && (forall n :: n in Private(t) ==> n < h.limit && n !in h.outside && n !in h.stack)
    && (forall d :: d in Pending(t) ==> d <= h.drawn && d !in h.spent)
    && match t
       case Push(p) => PushOk(h, p)
       case Pop(p) => PopOk(h, p)
       case _ => true
  }

  ghost predicate PushOk(h: Shared, p: PushPc) {
    match p
    case PushRead(node, _) => node in h.data
    case PushNext(node, _, seen) => node in h.data && Seen(h, seen)
    case PushCas(node, _, seen) => node in h.data && Seen(h, seen) && NextOf(h, node) == seen.node
    case _ => true
  }

  ghost predicate PopOk(h: Shared, p: PopPc) {
    match p
    case PopNext(_, seen) => Seen(h, seen) && seen.node.To?
    case PopCas(_, seen, link) =>
      Seen(h, seen) && seen.node.To? && (seen.draw == h.top.draw ==> NextOf(h, seen.node.node) == link)
    case PopData(node, popped) => node in h.data && h.data[node] == popped
    case PopFree(_, popped, value) => value == popped
    case _ => true
  }

  ghost predicate Apart(t: Thread, u: Thread) {
    Private(t) !! Private(u) && Pending(t) !! Pending(u)
  }

  ghost predicate Inv(s: State) {
    && Shape(s.sh)
    && Tickets(s.sh, Total(s.threads))
    && (forall j: nat :: j < |s.threads| ==> ThreadOk(s.sh, s.threads[j]))
    && forall j: nat, k: nat :: j < k < |s.threads| ==> Apart(s.threads[j], s.threads[k])
  }
}
