/** No thread of LockFreeQueue ever waits for another: run alone, each returns from its call, helping
    Tail along if it has to. */
module QueueProgress {
  import opened LockFreeQueue
  import opened QueueInvariant
  import opened QueueTheorems

  // Ten steps for a round from the first read on, and ten more if Tail lags.
  function Round(h: Shared): nat {
    10 + if |h.order| > h.last + 1 then 10 * (|h.order| - 1 - h.last) else 0
  }

  /** How far a call is from its return: less than a round if what it has read still stands, more if it
      will have to read again. */
  function Rank(h: Shared, t: Thread): nat {
    match t
    case Enq(p) => EnqRank(h, p)
    case Deq(p) => DeqRank(h, p)
    case _ => 0
  }

  function EnqRank(h: Shared, p: EnqPc): nat {
    var r := Round(h);
    match p
    case ReadTail(_) => r
    case RereadTail(_, seen) => if seen == h.tail then r - 1 else r + 4
    case ReadNext(_, seen, at) => if seen == h.tail && at == h.tail.node then r - 2 else r + 3
    case CheckTail(_, seen, next) => if seen == h.tail && next == NextOf(h, h.tail.node) then r - 3 else r + 2
    case HelpTail(_, seen, _) => if seen == h.tail then r - 4 else r + 1
    case CasNext(_, seen) => if seen.node !in h.next then r - 4 else r + 1
    case CasTail(_, _) => 3
    case RaiseSize(_) => 2
  }

  function DeqRank(h: Shared, p: DeqPc): nat {
    var r := Round(h);
    match p
    case Restore => 1
    case ReadHead(_) => r
    case ReadTailToo(_, head) => if head == h.head then r - 1 else r + 5
    case ReadHeadNext(_, head, tail) => if head == h.head && tail == h.tail then r - 2 else r + 4
    case CheckHead(_, head, tail, next) =>
      if head == h.head && tail == h.tail && next == NextOf(h, h.head.node) then r - 3 else r + 3
    case PushTail(_, tail, _) => if tail == h.tail then r - 4 else r + 1
    case ReadData(_, head, _) => if head == h.head then r - 4 else r + 2
    case CasHead(_, head, _, _) => if head == h.head then r - 5 else r + 1
  }

  lemma TailLags(h: Shared, next: nat)
    requires Shape(h) && NextOf(h, h.tail.node) == To(next)
    ensures |h.order| == h.last + 2
  {
    assert NextOf(h, h.order[h.last]) == To(next);
  }

  lemma EnqForward(h: Shared, p: EnqPc)
    requires Shape(h) && EnqOk(h, p)
    ensures var m := EnqMove(h, p); Rank(m.sh, m.t) < EnqRank(h, p)
  {
    hide Links, Nodes, SeenTail;
    if p.HelpTail? && p.seen == h.tail {
      TailLags(h, p.next);
    }
  }

  lemma DeqForward(h: Shared, p: DeqPc)
    requires Shape(h) && DeqOk(h, p)
    ensures var m := DeqMove(h, p); Rank(m.sh, m.t) < DeqRank(h, p)
  {
    hide Links, Nodes, SeenTail, SeenHead, Behind, NotAfter;
    if p.PushTail? && p.tail == h.tail {
      TailLags(h, p.next);
    }
  }

  lemma RunOn(run: seq<State>, moves: seq<Turn>, i: nat) returns (run': seq<State>, moves': seq<Turn>)
    requires Run(run, moves) && i < |run[|moves|].threads|
    ensures Run(run', moves') && run <= run' && moves' == moves + [Turn(i, Go)]
    ensures run'[|moves'|] == Step(run[|moves|], i, Go)
  {
    hide Start, Step;
    run', moves' := run + [Step(run[|moves|], i, Go)], moves + [Turn(i, Go)];
    assert forall k: nat :: k <= |moves| ==> run'[k] == run[k];
  }

  lemma Forward(s: State, i: nat)
    requires Inv(s) && i < |s.threads| && !s.threads[i].Idle?
    ensures var s' := Step(s, i, Go); i < |s'.threads| && Rank(s'.sh, s'.threads[i]) < Rank(s.sh, s.threads[i])
  {
    hide Shape, EnqMove, DeqMove, EnqOk, DeqOk, EnqRank, DeqRank;
    assert ThreadOk(s.sh, s.threads[i]);
    match s.threads[i]
    case Enq(p) => EnqForward(s.sh, p);
    case Deq(p) => DeqForward(s.sh, p);
  }

  // The moves from n on are all of thread i, inside its call.
  ghost predicate AloneFrom(moves: seq<Turn>, n: nat, i: nat) {
    forall k: nat :: n <= k < |moves| ==> moves[k] == Turn(i, Go)
  }

  /** From any moment of any run, wherever the other threads have stopped, a thread that runs alone
      returns from its Enqueue or Dequeue. */
  lemma {:induction false} ReturnsAlone(run: seq<State>, moves: seq<Turn>, i: nat)
    returns (run': seq<State>, moves': seq<Turn>)
    requires Run(run, moves) && i < |run[|moves|].threads|
    ensures Run(run', moves') && run <= run' && moves <= moves' && AloneFrom(moves', |moves|, i)
    ensures i < |run'[|moves'|].threads| && run'[|moves'|].threads[i].Idle?
    decreases Rank(run[|moves|].sh, run[|moves|].threads[i])
  {
    hide Start, Step, Inv, Rank;
    var s := run[|moves|];
    if s.threads[i].Idle? {
      run', moves' := run, moves;
    } else {
      RunInv(run, moves, |moves|);
      Forward(s, i);
      run', moves' := RunOn(run, moves, i);
      run', moves' := ReturnsAlone(run', moves', i);
    }
  }
}
