/** Each step of the stack machine keeps the invariant, unless it is a fooled pop exchange. */
module StackSteps {
  import opened Counting
  import opened Histories
  import opened LockFreeStack
  import opened StackInvariant
  import opened TicketSums

  // ---- the ways memory changes ----

  function PushedOn(h: Shared, node: nat, draw: nat): Shared {
    h.(top := Ptr(To(node), draw), stack := [node] + h.stack, spent := h.spent + {draw})
  }

  function PoppedOff(h: Shared, link: Link, draw: nat): Shared {
    h.(top := Ptr(link, draw), stack := if h.stack == [] then [] else h.stack[1..], spent := h.spent + {draw})
  }

  lemma PushShape(h: Shared, node: nat, draw: nat)
    requires Shape(h) && node !in h.stack && node !in h.outside && node < h.limit && node in h.data
    requires draw <= h.drawn && NextOf(h, node) == h.top.node
    ensures Shape(PushedOn(h, node, draw))
  {
    var h' := PushedOn(h, node, draw);
    forall k: nat | k < |h'.stack|
      ensures NextOf(h', h'.stack[k]) == if k + 1 < |h'.stack| then To(h'.stack[k + 1]) else Null
    {
      if k > 0 {
        assert NextOf(h, h.stack[k - 1]) == if k < |h.stack| then To(h.stack[k]) else Null;
      }
    }
    assert Links(h');
    assert NoDup(h'.stack);
    assert Nodes(h');
  }

  lemma PopShape(h: Shared, link: Link, draw: nat)
    requires Shape(h) && h.stack != [] && draw <= h.drawn
    ensures Shape(PoppedOff(h, link, draw)) <==> link == NextOf(h, h.stack[0])
    ensures h.stack[0] !in PoppedOff(h, link, draw).stack
  {
    var h' := PoppedOff(h, link, draw);
    assert forall k: nat :: k < |h'.stack| ==> h'.stack[k] == h.stack[k + 1];
    forall k: nat | k < |h'.stack|
      ensures NextOf(h', h'.stack[k]) == if k + 1 < |h'.stack| then To(h'.stack[k + 1]) else Null
    {
      assert NextOf(h, h.stack[k + 1]) == if k + 2 < |h.stack| then To(h.stack[k + 2]) else Null;
    }
    assert Links(h');
    assert NoDup(h'.stack);
    assert Nodes(h');
    assert NextOf(h, h.stack[0]) == if 1 < |h.stack| then To(h.stack[1]) else Null;
  }

  // Writes to a node that is not in the stack.
  lemma WriteNextShape(h: Shared, node: nat, link: Link)
    requires Shape(h) && node !in h.stack
    ensures Shape(h.(next := h.next[node := link]))
  {
    var h' := h.(next := h.next[node := link]);
    assert forall k: nat :: k < |h.stack| ==> NextOf(h', h.stack[k]) == NextOf(h, h.stack[k]);
  }

  lemma WriteDataShape(h: Shared, node: nat, value: nat)
    requires Shape(h) && node !in h.stack
    ensures Shape(h.(data := h.data[node := value]))
  {
    var h' := h.(data := h.data[node := value]);
    assert forall n :: NextOf(h', n) == NextOf(h, n);
  }

  // ---- the moving thread ----

  lemma BeginStep(h: Shared, c: Choice, o: Totals)
    requires Shape(h) && Tickets(h, Plus(Holds(Idle), o))
    ensures var m := BeginMove(h, c); Shape(m.sh) && Tickets(m.sh, Plus(Holds(m.t), o)) && ThreadOk(m.sh, m.t)
  {
    var m := BeginMove(h, c);
    assert forall n :: NextOf(m.sh, n) == NextOf(h, n);
  }

  lemma PushStep(h: Shared, p: PushPc, o: Totals)
    requires Shape(h) && Tickets(h, Plus(Holds(Push(p)), o)) && ThreadOk(h, Push(p))
    ensures var m := PushMove(h, p); Shape(m.sh) && Tickets(m.sh, Plus(Holds(m.t), o)) && ThreadOk(m.sh, m.t)
  {
    var m := PushMove(h, p);
    match p
    case PushData(node, _, value) => WriteDataShape(h, node, value);
    case PushNext(node, _, seen) => WriteNextShape(h, node, seen.node);
    case PushCas(node, draw, seen) =>
      if SameWord(h.top, seen) {
        PushShape(h, node, draw);
      }
    case _ => assert forall n :: NextOf(m.sh, n) == NextOf(h, n);
  }

  lemma PopStep(h: Shared, p: PopPc, o: Totals)
    requires Shape(h) && Tickets(h, Plus(Holds(Pop(p)), o)) && ThreadOk(h, Pop(p)) && !WrongPop(h, Pop(p))
    ensures var m := PopMove(h, p); Shape(m.sh) && Tickets(m.sh, Plus(Holds(m.t), o)) && ThreadOk(m.sh, m.t)
  {
    var m := PopMove(h, p);
    match p
    case PopCas(draw, seen, link) =>
      if SameWord(h.top, seen) {
        PopShape(h, link, draw);
      }
    case _ => assert forall n :: NextOf(m.sh, n) == NextOf(h, n);
  }

  // ---- the other threads ----

  /** What one move of thread t leaves alone: nodes and draws that are not t's. */
  ghost predicate Minds(h: Shared, t: Thread, m: Move) {
    && h.limit <= m.sh.limit && h.drawn <= m.sh.drawn
    && (forall n :: n in m.sh.outside ==> n in h.outside || n in Private(t))
    && (forall n :: n in m.sh.stack ==> n in h.stack || n in Private(t))
    && (forall d :: d in m.sh.spent ==> d in h.spent || d in Pending(t)) && h.spent <= m.sh.spent
    && (forall n :: n in h.data && n !in Private(t) ==> n in m.sh.data && m.sh.data[n] == h.data[n])
    && (forall n :: n !in Private(t) ==> NextOf(m.sh, n) == NextOf(h, n))
    && (m.sh.top == h.top || m.sh.top.draw !in h.spent)
    && (forall n :: n in Private(m.t) ==> n in Private(t) || n in h.outside || n >= h.limit || n in h.stack)
    && (forall d :: d in Pending(m.t) ==> d in Pending(t) || d > h.drawn)
  }

  lemma BeginMinds(h: Shared, c: Choice)
    ensures Minds(h, Idle, BeginMove(h, c))
  {
  }

  lemma PushMinds(h: Shared, p: PushPc)
    requires ThreadOk(h, Push(p))
    ensures Minds(h, Push(p), PushMove(h, p))
  {
  }

  lemma PopMinds(h: Shared, p: PopPc)
    requires Shape(h) && ThreadOk(h, Pop(p))
    ensures Minds(h, Pop(p), PopMove(h, p))
  {
    hide Links, NoDup;
  }

  lemma OtherKept(h: Shared, t: Thread, m: Move, u: Thread)
    requires Shape(h) && Minds(h, t, m) && ThreadOk(h, t) && ThreadOk(h, u) && Apart(t, u)
    ensures ThreadOk(m.sh, u) && Apart(m.t, u)
  {
  }

  lemma MoverKept(h: Shared, t: Thread, c: Choice, o: Totals)
    requires Shape(h) && Tickets(h, Plus(Holds(t), o)) && ThreadOk(h, t) && !WrongPop(h, t)
    ensures var m := MoveOf(h, t, c);
      Shape(m.sh) && Tickets(m.sh, Plus(Holds(m.t), o)) && ThreadOk(m.sh, m.t) && Minds(h, t, m)
  {
    match t
    case Idle =>
      BeginStep(h, c, o);
      BeginMinds(h, c);
    case Push(p) =>
      PushStep(h, p, o);
      PushMinds(h, p);
    case Pop(p) =>
      PopStep(h, p, o);
      PopMinds(h, p);
  }
}
