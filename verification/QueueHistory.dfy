/** The queue against the sequential one, over whole runs: which calls took effect, in what
    order, what Dequeue refuses. */
module QueueHistory {
  import opened Histories
  import opened LockFreeQueue
  import opened QueueInvariant
  import opened QueueSteps
  import opened QueueTheorems

  // ---- the order of effects is a run of the sequential queue ----

  ghost function EffectAt(run: seq<State>, moves: seq<Turn>, k: nat): Effect
    requires Run(run, moves) && k < |moves|
  {
    EffectOf(run[k].sh, run[k].threads[moves[k].who])
  }

  ghost function Trace(run: seq<State>, moves: seq<Turn>): (trace: seq<Effect>)
    requires Run(run, moves)
    ensures |trace| == |moves| && forall k: nat :: k < |moves| ==> trace[k] == EffectAt(run, moves, k)
  {
    seq(|moves|, k requires 0 <= k < |moves| => EffectAt(run, moves, k))
  }

  function Who(moves: seq<Turn>): (who: seq<nat>)
    ensures |who| == |moves| && forall k: nat :: k < |moves| ==> who[k] == moves[k].who
  {
    seq(|moves|, k requires 0 <= k < |moves| => moves[k].who)
  }

  /** The effects of every run, in order, are a run of the sequential FIFO queue that ends with the
      contents of the list. A refused Dequeue has no effect, also where the list is not empty. */
  lemma {:induction false} FifoRun(run: seq<State>, moves: seq<Turn>, n: nat)
    requires Run(run, moves) && n <= |moves|
    ensures Shape(run[n].sh) && Play(Fifo, Trace(run, moves)[..n]) == Some(Contents(run[n].sh))
  {
    hide EffectOf, Step;
    if n == 0 {
      StartInv(run[0]);
      assert run[0].sh.order[1..] == [];
    } else {
      FifoRun(run, moves, n - 1);
      RunInv(run, moves, n - 1);
      StepActs(run[n - 1], moves[n - 1].who, moves[n - 1].what);
      assert run[n - 1 + 1] == run[n];
      var trace := Trace(run, moves);
      PlayOne(Fifo, trace[..n - 1], trace[n - 1], Contents(run[n - 1].sh), Contents(run[n].sh));
      assert trace[..n] == trace[..n - 1] + [trace[n - 1]];
    }
  }

  // ---- each call takes effect once, between its start and its end ----

  // The effects of thread i in moves a to b.
  ghost function Done(run: seq<State>, moves: seq<Turn>, i: nat, a: nat, b: nat): seq<Effect>
    requires Run(run, moves) && a <= b <= |moves|
  {
    By(Trace(run, moves), Who(moves), i, a, b)
  }

  // Thread i starts its call with move a; the call ends with move b - 1.
  ghost predicate Call(run: seq<State>, moves: seq<Turn>, i: nat, a: nat, b: nat, c: Choice) {
    && Run(run, moves) && a < b <= |moves| && moves[a] == Turn(i, c)
    && i < |run[a].threads| && run[a].threads[i].Idle?
    && i < |run[b].threads| && run[b].threads[i].Idle?
    && forall k: nat :: a < k < b ==> i < |run[k].threads| && !run[k].threads[i].Idle?
  }

  ghost predicate Enqueuing(h: Shared, t: Thread, v: nat, es: seq<Effect>) {
    t.Enq? && if t.enq.CasTail? || t.enq.RaiseSize? then es == [Put(v)]
              else es == [] && t.enq.mine.node in h.data && h.data[t.enq.mine.node] == v
  }

  ghost predicate Dequeuing(t: Thread, granted: bool, es: seq<Effect>) {
    t.Deq? && es == [] && (t.deq.Restore? <==> !granted)
  }

  lemma EnqueuingMove(h: Shared, p: EnqPc, v: nat, es: seq<Effect>)
    requires Enqueuing(h, Enq(p), v, es) && Later(h, EnqMove(h, p).sh)
    ensures var m, es' := EnqMove(h, p), es + Heard(EffectOf(h, Enq(p)));
      Enqueuing(m.sh, m.t, v, es') || (m.t.Idle? && es' == [Put(v)])
  {
  }

  lemma DequeuingMove(h: Shared, p: DeqPc, granted: bool)
    requires DeqOk(h, p) && (p.Restore? <==> !granted)
    ensures var m, es := DeqMove(h, p), Heard(EffectOf(h, Deq(p)));
      Dequeuing(m.t, granted, es) || m.t.Crashed? ||
      (m.t.Idle? && if granted then |es| == 1 && es[0].Got? else es == [])
  {
  }

  // What move `turn` adds to the effects of thread i.
  function Adds(s: State, turn: Turn, i: nat): seq<Effect>
    requires i < |s.threads|
  {
    if turn.who == i then Heard(EffectOf(s.sh, s.threads[i])) else []
  }

  lemma EnqueueBegins(s: State, i: nat, v: nat, tag: nat)
    requires i < |s.threads| && s.threads[i].Idle?
    ensures var s' := Step(s, i, Enqueue(v, tag));
            Enqueuing(s'.sh, s'.threads[i], v, Adds(s, Turn(i, Enqueue(v, tag)), i))
  {
  }

  lemma DequeueBegins(s: State, i: nat, tag: nat)
    requires i < |s.threads| && s.threads[i].Idle?
    ensures Dequeuing(Step(s, i, Dequeue(tag)).threads[i], s.sh.size > 0, Adds(s, Turn(i, Dequeue(tag)), i))
  {
  }

  lemma EnqueuingStep(s: State, turn: Turn, i: nat, v: nat, es: seq<Effect>)
    requires Inv(s) && turn.who < |s.threads| && i < |s.threads| && Enqueuing(s.sh, s.threads[i], v, es)
    ensures var s', es' := Step(s, turn.who, turn.what), es + Adds(s, turn, i);
      Enqueuing(s'.sh, s'.threads[i], v, es') || (s'.threads[i].Idle? && es' == [Put(v)])
  {
    MoverStep(s, turn.who, turn.what);
    if turn.who == i {
      EnqueuingMove(s.sh, s.threads[i].enq, v, es);
    }
  }

  lemma DequeuingStep(s: State, turn: Turn, i: nat, granted: bool)
    requires Inv(s) && turn.who < |s.threads| && i < |s.threads| && Dequeuing(s.threads[i], granted, [])
    ensures var t, es := Step(s, turn.who, turn.what).threads[i], Adds(s, turn, i);
      Dequeuing(t, granted, es) || (t.Idle? && if granted then |es| == 1 && es[0].Got? else es == [])
  {
    MoverStep(s, turn.who, turn.what);
    if turn.who == i {
      assert ThreadOk(s.sh, s.threads[i]);
      DequeuingMove(s.sh, s.threads[i].deq, granted);
    }
  }

  lemma OneMove(run: seq<State>, moves: seq<Turn>, i: nat, a: nat, k: nat)
    requires Run(run, moves) && a < k <= |moves| && i < |run[k - 1].threads|
    ensures Inv(run[k - 1]) && moves[k - 1].who < |run[k - 1].threads|
    ensures run[k] == Step(run[k - 1], moves[k - 1].who, moves[k - 1].what)
    ensures Done(run, moves, i, a, k) == Done(run, moves, i, a, k - 1) + Adds(run[k - 1], moves[k - 1], i)
  {
    hide Inv, Step, EffectOf;
    RunInv(run, moves, k - 1);
    assert run[k - 1 + 1] == run[k];
  }

  // Thread i is in its Enqueue after move k - 1, or has just returned with its one effect.
  ghost predicate EnqueueAt(run: seq<State>, moves: seq<Turn>, i: nat, a: nat, k: nat, v: nat)
    requires Run(run, moves) && a <= k <= |moves|
  {
    i < |run[k].threads| &&
    var t, es := run[k].threads[i], Done(run, moves, i, a, k);
    Enqueuing(run[k].sh, t, v, es) || (t.Idle? && es == [Put(v)])
  }

  ghost predicate DequeueAt(run: seq<State>, moves: seq<Turn>, i: nat, a: nat, k: nat, granted: bool)
    requires Run(run, moves) && a <= k <= |moves|
  {
    i < |run[k].threads| &&
    var t, es := run[k].threads[i], Done(run, moves, i, a, k);
    Dequeuing(t, granted, es) || (t.Idle? && if granted then |es| == 1 && es[0].Got? else es == [])
  }

  lemma EnqueueMove(run: seq<State>, moves: seq<Turn>, i: nat, a: nat, k: nat, v: nat)
    requires Run(run, moves) && a < k < |moves| && EnqueueAt(run, moves, i, a, k, v) && !run[k].threads[i].Idle?
    ensures EnqueueAt(run, moves, i, a, k + 1, v)
  {
    OneMove(run, moves, i, a, k + 1);
    EnqueuingStep(run[k], moves[k], i, v, Done(run, moves, i, a, k));
  }

  lemma DequeueMove(run: seq<State>, moves: seq<Turn>, i: nat, a: nat, k: nat, granted: bool)
    requires Run(run, moves) && a < k < |moves| && DequeueAt(run, moves, i, a, k, granted) && !run[k].threads[i].Idle?
    ensures DequeueAt(run, moves, i, a, k + 1, granted)
  {
    OneMove(run, moves, i, a, k + 1);
    DequeuingStep(run[k], moves[k], i, granted);
  }

  lemma EnqueueFirst(run: seq<State>, moves: seq<Turn>, i: nat, a: nat, b: nat, v: nat, tag: nat)
    requires Call(run, moves, i, a, b, Enqueue(v, tag))
    ensures EnqueueAt(run, moves, i, a, a + 1, v)
  {
    OneMove(run, moves, i, a, a + 1);
    EnqueueBegins(run[a], i, v, tag);
    assert Done(run, moves, i, a, a) == [];
  }

  lemma DequeueFirst(run: seq<State>, moves: seq<Turn>, i: nat, a: nat, b: nat, tag: nat)
    requires Call(run, moves, i, a, b, Dequeue(tag))
    ensures DequeueAt(run, moves, i, a, a + 1, run[a].sh.size > 0)
  {
    OneMove(run, moves, i, a, a + 1);
    DequeueBegins(run[a], i, tag);
    assert Done(run, moves, i, a, a) == [];
  }

  lemma {:induction false} EnqueueInProgress(run: seq<State>, moves: seq<Turn>, i: nat, a: nat, b: nat,
                                             v: nat, tag: nat, k: nat)
    requires Call(run, moves, i, a, b, Enqueue(v, tag)) && a < k <= b
    ensures EnqueueAt(run, moves, i, a, k, v)
  {
    hide Run, Done, Enqueuing;
    if k > a + 1 {
      EnqueueInProgress(run, moves, i, a, b, v, tag, k - 1);
      EnqueueMove(run, moves, i, a, k - 1, v);
    } else {
      EnqueueFirst(run, moves, i, a, b, v, tag);
    }
  }

  lemma {:induction false} DequeueInProgress(run: seq<State>, moves: seq<Turn>, i: nat, a: nat, b: nat,
                                             tag: nat, k: nat)
    requires Call(run, moves, i, a, b, Dequeue(tag)) && a < k <= b
    ensures DequeueAt(run, moves, i, a, k, run[a].sh.size > 0)
  {
    hide Done, Dequeuing, Step;
    if k > a + 1 {
      DequeueInProgress(run, moves, i, a, b, tag, k - 1);
      DequeueMove(run, moves, i, a, k - 1, run[a].sh.size > 0);
    } else {
      DequeueFirst(run, moves, i, a, b, tag);
    }
  }

  /** A call of Enqueue(v) that has returned took effect exactly once in between, as an enqueue
      of v. */
  lemma EnqueueTakesEffectOnce(run: seq<State>, moves: seq<Turn>, i: nat, a: nat, b: nat, v: nat, tag: nat)
    requires Call(run, moves, i, a, b, Enqueue(v, tag))
    ensures Done(run, moves, i, a, b) == [Put(v)]
  {
    EnqueueInProgress(run, moves, i, a, b, v, tag, b);
  }

  /** A call of Dequeue that has returned took effect exactly once if Size was positive when it
      drew its ticket, and not at all if it was not. */
  lemma DequeueTakesEffectOnce(run: seq<State>, moves: seq<Turn>, i: nat, a: nat, b: nat, tag: nat)
    requires Call(run, moves, i, a, b, Dequeue(tag))
    ensures var es := Done(run, moves, i, a, b);
      if run[a].sh.size > 0 then |es| == 1 && es[0].Got? else es == []
  {
    DequeueInProgress(run, moves, i, a, b, tag, b);
  }

  // ---- calls that do not overlap ----

  lemma LinkedNext(run: seq<State>, moves: seq<Turn>, k: nat)
    requires Run(run, moves) && k < |moves|
    ensures Shape(run[k].sh) && Shape(run[k + 1].sh)
    ensures Linked(run[k + 1].sh) == Linked(run[k].sh) + Puts(EffectAt(run, moves, k))
  {
    hide EffectOf, Step;
    RunInv(run, moves, k);
    StepLinks(run[k], moves[k].who, moves[k].what);
  }

  lemma {:induction false} LinkedGrows(run: seq<State>, moves: seq<Turn>, a: nat, b: nat)
    requires Run(run, moves) && a <= b < |run|
    ensures Shape(run[a].sh) && Shape(run[b].sh) && Linked(run[a].sh) <= Linked(run[b].sh)
    decreases b
  {
    hide Inv, Linked, EffectAt, Step, Start, Links, Nodes;
    if a < b {
      LinkedGrows(run, moves, a, b - 1);
      LinkedNext(run, moves, b - 1);
      assert run[b - 1 + 1] == run[b];
    } else {
      ShapeOf(run, moves, a);
    }
  }

  lemma ShapeOf(run: seq<State>, moves: seq<Turn>, a: nat)
    requires Run(run, moves) && a < |run|
    ensures Shape(run[a].sh)
  {
    RunInv(run, moves, a);
  }

  // The move with which a finished Enqueue(v) of moves a to b took effect.
  lemma PutMove(run: seq<State>, moves: seq<Turn>, i: nat, a: nat, b: nat, v: nat, tag: nat) returns (k: nat)
    requires Call(run, moves, i, a, b, Enqueue(v, tag))
    ensures Run(run, moves) && a <= k < b <= |moves| && EffectAt(run, moves, k) == Put(v)
  {
    hide EffectOf, Step, Enqueuing;
    EnqueueTakesEffectOnce(run, moves, i, a, b, v, tag);
    ByHasMove(Trace(run, moves), Who(moves), i, a, b, Put(v));
    k :| a <= k < b && Trace(run, moves)[k] == Put(v);
  }

  // The place a finished Enqueue(v) of moves a to b has in what has been linked.
  lemma PlaceOf(run: seq<State>, moves: seq<Turn>, i: nat, a: nat, b: nat, v: nat, tag: nat) returns (p: nat)
    requires Call(run, moves, i, a, b, Enqueue(v, tag))
    ensures Shape(run[a].sh) && Shape(run[b].sh)
    ensures |Linked(run[a].sh)| <= p < |Linked(run[b].sh)| && Linked(run[b].sh)[p] == v
  {
    hide Linked, EffectAt, Call, Run;
    var k := PutMove(run, moves, i, a, b, v, tag);
    CallWithin(run, moves, i, a, b, Enqueue(v, tag));
    LinkedGrows(run, moves, a, k);
    LinkedNext(run, moves, k);
    LinkedGrows(run, moves, k + 1, b);
    p := |Linked(run[k].sh)|;
  }

  /** First in, first out in real time: of two enqueues one of which returned before the other
      started, the first has the earlier place among the linked values, and so, Dequeue handing
      them out in that order, is dequeued first. */
  lemma RealTimeOrder(run: seq<State>, moves: seq<Turn>, n: nat, i: nat, a: nat, b: nat, v: nat, tag: nat,
                      j: nat, c: nat, d: nat, w: nat, tag': nat)
    requires Call(run, moves, i, a, b, Enqueue(v, tag)) && Call(run, moves, j, c, d, Enqueue(w, tag'))
    requires b <= c && d <= n < |run|
    ensures Shape(run[n].sh) && Linked(run[n].sh) == run[n].sh.returned + Contents(run[n].sh)
    ensures exists p: nat, q: nat ::
              p < q < |Linked(run[n].sh)| && Linked(run[n].sh)[p] == v && Linked(run[n].sh)[q] == w
  {
    hide Linked, EffectOf, Call;
    var p := PlaceOf(run, moves, i, a, b, v, tag);
    var q := PlaceOf(run, moves, j, c, d, w, tag');
    CallWithin(run, moves, i, a, b, Enqueue(v, tag));
    CallWithin(run, moves, j, c, d, Enqueue(w, tag'));
    LinkedGrows(run, moves, b, c);
    LinkedGrows(run, moves, b, n);
    LinkedGrows(run, moves, d, n);
    assert Reachable(run[n]) by {
      Prefix(run, moves, n);
    }
    ReturnedIsPrefix(run[n]);
  }

  lemma CallWithin(run: seq<State>, moves: seq<Turn>, i: nat, a: nat, b: nat, c: Choice)
    requires Call(run, moves, i, a, b, c)
    ensures Run(run, moves) && a < b < |run|
  {
  }

  lemma Prefix(run: seq<State>, moves: seq<Turn>, n: nat)
    requires Run(run, moves) && n < |run|
    ensures Reachable(run[n])
  {
    var run', moves' := run[..n + 1], moves[..n];
    assert Run(run', moves') && run'[|run'| - 1] == run[n];
  }
}
