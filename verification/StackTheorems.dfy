/** What the stack machine guarantees over every run, and where its 16-bit tags give out. */
module StackTheorems {
  import opened Histories
  import opened LockFreeStack
  import opened StackInvariant
  import opened StackSteps
  import opened TicketSums

  lemma StartInv(s: State)
    requires Start(s)
    ensures Inv(s)
  {
    hide ThreadOk, Apart, Sum;
    SumNothing(Held(s.threads));
    assert Shape(s.sh);
    IdleOk(s.sh, s.threads);
  }

  lemma IdleOk(h: Shared, ts: seq<Thread>)
    requires forall j: nat :: j < |ts| ==> ts[j].Idle?
    ensures forall j: nat :: j < |ts| ==> ThreadOk(h, ts[j])
    ensures forall j: nat, k: nat :: j < k < |ts| ==> Apart(ts[j], ts[k])
  {
  }

  lemma MoverStep(s: State, i: nat, c: Choice)
    requires Inv(s) && i < |s.threads| && !WrongPop(s.sh, s.threads[i])
    ensures var m := MoveOf(s.sh, s.threads[i], c);
      && Shape(m.sh) && Tickets(m.sh, Total(s.threads[i := m.t]))
      && ThreadOk(m.sh, m.t) && Minds(s.sh, s.threads[i], m)
  {
    TotalMoved(s.threads, i, MoveOf(s.sh, s.threads[i], c).t);
    MoverKept(s.sh, s.threads[i], c, Others(s.threads, i));
  }

  ghost predicate OthersOk(h: Shared, ts: seq<Thread>, i: nat, t: Thread) {
    forall j: nat :: j < |ts| && j != i ==> ThreadOk(h, ts[j]) && Apart(t, ts[j])
  }

  lemma OthersStep(s: State, i: nat, m: Move)
    requires Inv(s) && i < |s.threads| && Minds(s.sh, s.threads[i], m)
    ensures OthersOk(m.sh, s.threads, i, m.t)
  {
    forall j: nat | j < |s.threads| && j != i
      ensures ThreadOk(m.sh, s.threads[j]) && Apart(m.t, s.threads[j])
    {
      assert ThreadOk(s.sh, s.threads[i]) && Apart(s.threads[i], s.threads[j]);
      OtherKept(s.sh, s.threads[i], m, s.threads[j]);
    }
  }

  lemma AllOk(ts: seq<Thread>, i: nat, m: Move, ts': seq<Thread>)
    requires i < |ts| && ts' == ts[i := m.t] && OthersOk(m.sh, ts, i, m.t) && ThreadOk(m.sh, m.t)
    requires forall j: nat, k: nat :: j < k < |ts| ==> Apart(ts[j], ts[k])
    ensures forall j: nat :: j < |ts'| ==> ThreadOk(m.sh, ts'[j])
    ensures forall j: nat, k: nat :: j < k < |ts'| ==> Apart(ts'[j], ts'[k])
  {
  }

  /** Every step but a fooled pop exchange keeps the invariant. */
  lemma StepKeeps(s: State, i: nat, c: Choice)
    requires Inv(s) && i < |s.threads| && !WrongPop(s.sh, s.threads[i])
    ensures Inv(Step(s, i, c))
  {
    var m := MoveOf(s.sh, s.threads[i], c);
    MoverStep(s, i, c);
    OthersStep(s, i, m);
    AllOk(s.threads, i, m, s.threads[i := m.t]);
  }

  /** A fooled pop exchange breaks the list: so the condition is exact. */
  lemma WrongPopBreaks(s: State, i: nat, c: Choice)
    requires Inv(s) && i < |s.threads|
    ensures WrongPop(s.sh, s.threads[i]) <==> !Inv(Step(s, i, c))
  {
    if WrongPop(s.sh, s.threads[i]) {
      var p := s.threads[i].pop;
      assert ThreadOk(s.sh, s.threads[i]);
      PopShape(s.sh, p.link, p.draw);
    } else {
      StepKeeps(s, i, c);
    }
  }

  /** Within one window of 65536 draws no exchange is fooled: if the words are equal, Top has
      not changed since it was read. */
  lemma WindowSuffices(s: State, i: nat)
    requires Inv(s) && i < |s.threads| && InWindow(s.sh, s.threads[i])
    ensures !WrongPop(s.sh, s.threads[i])
    ensures s.threads[i].Pop? && s.threads[i].pop.PopCas? && SameWord(s.sh.top, s.threads[i].pop.seen) ==>
            s.threads[i].pop.seen == s.sh.top
  {
    assert ThreadOk(s.sh, s.threads[i]);
    if s.threads[i].Pop? && s.threads[i].pop.PopCas? && SameWord(s.sh.top, s.threads[i].pop.seen) {
      Congruent(s.sh.top.draw, s.threads[i].pop.seen.draw);
    }
  }

  lemma Congruent(a: nat, b: nat)
    requires a % TAGS == b % TAGS && -TAGS < a - b < TAGS
    ensures a == b
  {
  }

  // ---- runs ----

  /** No pop exchange of the run was fooled. */
  ghost predicate Undeceived(run: seq<State>, moves: seq<Turn>)
    requires Run(run, moves)
  {
    forall k: nat :: k < |moves| ==> !WrongPop(run[k].sh, run[k].threads[moves[k].who])
  }

  /** Every pop exchange of the run stays within the window. */
  ghost predicate Windowed(run: seq<State>, moves: seq<Turn>)
    requires Run(run, moves)
  {
    forall k: nat :: k < |moves| ==> InWindow(run[k].sh, run[k].threads[moves[k].who])
  }

  lemma {:induction false} RunInv(run: seq<State>, moves: seq<Turn>, k: nat)
    requires Run(run, moves) && Undeceived(run, moves) && k < |run|
    ensures Inv(run[k])
  {
    if k == 0 {
      StartInv(run[0]);
    } else {
      RunInv(run, moves, k - 1);
      StepKeeps(run[k - 1], moves[k - 1].who, moves[k - 1].what);
      assert run[k - 1 + 1] == run[k];
    }
  }

  lemma {:induction false} WindowedInv(run: seq<State>, moves: seq<Turn>, k: nat)
    requires Run(run, moves) && Windowed(run, moves) && k < |run|
    ensures Inv(run[k])
    ensures forall n: nat :: n < k ==> !WrongPop(run[n].sh, run[n].threads[moves[n].who])
  {
    hide Inv, Step, WrongPop, InWindow;
    if k == 0 {
      StartInv(run[0]);
    } else {
      WindowedInv(run, moves, k - 1);
      WindowSuffices(run[k - 1], moves[k - 1].who);
      StepKeeps(run[k - 1], moves[k - 1].who, moves[k - 1].what);
      assert run[k - 1 + 1] == run[k];
    }
  }

  /** A run within the window is never fooled. */
  lemma WindowedUndeceived(run: seq<State>, moves: seq<Turn>)
    requires Run(run, moves) && Windowed(run, moves)
    ensures Undeceived(run, moves)
  {
    WindowedInv(run, moves, |moves|);
  }

  // ---- the stack it implements ----

  lemma PushContents(h: Shared, node: nat, draw: nat)
    requires node in h.data
    ensures Contents(PushedOn(h, node, draw)) == [h.data[node]] + Contents(h)
  {
  }

  lemma PopContents(h: Shared, link: Link, draw: nat)
    requires Shape(h) && h.stack != []
    ensures Contents(h) == [h.data[h.stack[0]]] + Contents(PoppedOff(h, link, draw))
  {
    assert h.stack[0] in h.data;
  }

  lemma SilentContents(h: Shared, t: Thread, c: Choice)
    requires Shape(h) && ThreadOk(h, t) && EffectOf(h, t).Silent? && Minds(h, t, MoveOf(h, t, c))
    ensures Contents(MoveOf(h, t, c).sh) == Contents(h)
  {
    var m := MoveOf(h, t, c);
    assert m.sh.stack == h.stack;
  }

  /** Every step acts on the stack as its effect says, and every other step changes nothing. A
      successful push exchange is a push whatever the tags say: only pops can be fooled. */
  lemma StepActs(s: State, i: nat, c: Choice)
    requires Inv(s) && i < |s.threads| && !WrongPop(s.sh, s.threads[i])
    ensures Acts(Lifo, Contents(s.sh), EffectOf(s.sh, s.threads[i]), Contents(Step(s, i, c).sh))
  {
    MoverStep(s, i, c);
    var h, t := s.sh, s.threads[i];
    assert ThreadOk(h, t);
    match EffectOf(h, t)
    case Silent => SilentContents(h, t, c);
    case Put(_) => PushContents(h, t.push.node, t.push.draw);
    case Got(_) => PopContents(h, t.pop.link, t.pop.draw);
  }

  // ---- tickets, and what Pop returns ----

  /** A thread that drew a ticket finds a node in Top on every retry, and none ever follows a
      null pointer. */
  lemma TicketFindsTop(s: State, i: nat)
    requires Inv(s) && i < |s.threads|
    ensures !s.threads[i].Crashed?
    ensures Holds(s.threads[i]).granted == 1 ==> s.sh.top.node.To? && s.sh.stack != []
  {
    TotalMoved(s.threads, i, s.threads[i]);
    assert ThreadOk(s.sh, s.threads[i]);
  }

  /** Pop returns the value that was on top when it took effect: nobody writes to the node
      between the exchange and the read, and it goes back to NodePool only after. */
  lemma PopReturnsTop(s: State, i: nat)
    requires Inv(s) && i < |s.threads| && s.threads[i].Pop?
    ensures s.threads[i].pop.PopFree? ==> s.threads[i].pop.value == s.threads[i].pop.popped
    ensures s.threads[i].pop.PopData? || s.threads[i].pop.PopFree? ==>
            s.threads[i].pop.node !in s.sh.stack && s.threads[i].pop.node !in s.sh.outside
  {
    assert ThreadOk(s.sh, s.threads[i]);
    assert s.threads[i].pop.PopData? || s.threads[i].pop.PopFree? ==> s.threads[i].pop.node in Private(s.threads[i]);
  }

  /** Exactly when Pop returns false. */
  lemma RefusedExactly(s: State, i: nat)
    requires Inv(s) && i < |s.threads| && s.threads[i].Pop? && s.threads[i].pop.PopTicket?
    ensures Step(s, i, Go).threads[i] == Pop(PopRestore) <==>
            |s.sh.stack| <= Total(s.threads).linking + Total(s.threads).granted + Total(s.threads).refused
  {
  }
}
