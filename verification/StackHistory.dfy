/** The stack against the sequential one, over whole runs: the order of effects, and that each
    call takes effect once. */
module StackHistory {
  import opened Histories
  import opened LockFreeStack
  import opened StackInvariant
  import opened StackSteps
  import opened StackTheorems

  // ---- the order of effects is a run of the sequential stack ----

  ghost function EffectAt(run: seq<State>, moves: seq<Turn>, k: nat): Effect
    requires Run(run, moves) && k < |moves|
  {
    EffectOf(run[k].sh, run[k].threads[moves[k].who])
  }

  ghost function Trace(run: seq<State>, moves: seq<Turn>): (trace: seq<Effect>)
    requires Run(run, moves)
    ensures |trace| == |moves| && forall k: nat :: k < |moves| ==> trace[k] == EffectAt(run, moves, k)
  {
    seq(|moves|, k requires 0 <= k < |moves| => EffectAt(run, moves, k))
  }

  function Who(moves: seq<Turn>): (who: seq<nat>)
    ensures |who| == |moves| && forall k: nat :: k < |moves| ==> who[k] == moves[k].who
  {
    seq(|moves|, k requires 0 <= k < |moves| => moves[k].who)
  }

  /** The effects of a run that is not fooled, in order, are a run of the sequential stack that
      ends with the contents of the list. A refused Pop has no effect. */
  lemma {:induction false} LifoRun(run: seq<State>, moves: seq<Turn>, n: nat)
    requires Run(run, moves) && Undeceived(run, moves) && n <= |moves|
    ensures Play(Lifo, Trace(run, moves)[..n]) == Some(Contents(run[n].sh))
  {
    hide EffectOf, Step, WrongPop;
    if n == 0 {
      assert Contents(run[0].sh) == [];
    } else {
      LifoRun(run, moves, n - 1);
      RunInv(run, moves, n - 1);
      StepActs(run[n - 1], moves[n - 1].who, moves[n - 1].what);
      assert run[n - 1 + 1] == run[n];
      var trace := Trace(run, moves);
      PlayOne(Lifo, trace[..n - 1], trace[n - 1], Contents(run[n - 1].sh), Contents(run[n].sh));
      assert trace[..n] == trace[..n - 1] + [trace[n - 1]];
    }
  }

  /** Within the window the effects are those of a sequential stack, however often nodes are used
      again. */
  lemma WindowedLifo(run: seq<State>, moves: seq<Turn>, n: nat)
    requires Run(run, moves) && Windowed(run, moves) && n <= |moves|
    ensures Play(Lifo, Trace(run, moves)[..n]) == Some(Contents(run[n].sh))
  {
    WindowedUndeceived(run, moves);
    LifoRun(run, moves, n);
  }

  // ---- each call takes effect once, between its start and its end ----

  // The effects of thread i in moves a to b.
  ghost function Done(run: seq<State>, moves: seq<Turn>, i: nat, a: nat, b: nat): seq<Effect>
    requires Run(run, moves) && a <= b <= |moves|
  {
    By(Trace(run, moves), Who(moves), i, a, b)
  }

  // Thread i starts its call with move a; the call ends with move b - 1.
  ghost predicate Call(run: seq<State>, moves: seq<Turn>, i: nat, a: nat, b: nat, c: Choice) {
    && Run(run, moves) && Undeceived(run, moves) && a < b <= |moves| && moves[a] == Turn(i, c)
    && i < |run[a].threads| && run[a].threads[i].Idle?
    && i < |run[b].threads| && run[b].threads[i].Idle?
    && forall k: nat :: a < k < b ==> i < |run[k].threads| && !run[k].threads[i].Idle?
  }

  // Thread t is in its Push of v, having had the effects es; or in its Pop.
  ghost predicate Pushing(h: Shared, t: Thread, v: nat, es: seq<Effect>) {
    t.Push? && match t.push
      case PushTag(_, value) => es == [] && value == v
      case PushData(_, _, value) => es == [] && value == v
      case PushSize => es == [Put(v)]
      case p => es == [] && p.node in h.data && h.data[p.node] == v
  }

  ghost predicate Popping(t: Thread, es: seq<Effect>) {
    t.Pop? && match t.pop
      case PopData(_, popped) => es == [Got(popped)]
      case PopFree(_, _, value) => es == [Got(value)]
      case _ => es == []
  }

  lemma PushingMove(h: Shared, p: PushPc, v: nat, es: seq<Effect>)
    requires Pushing(h, Push(p), v, es)
    ensures var m, es' := PushMove(h, p), es + Heard(EffectOf(h, Push(p)));
      if p.PushSize? then m.t.Idle? && es' == [Put(v)] else Pushing(m.sh, m.t, v, es')
  {
  }

  lemma PoppingMove(h: Shared, p: PopPc, es: seq<Effect>)
    requires Shape(h) && ThreadOk(h, Pop(p)) && Popping(Pop(p), es)
    ensures var m, es' := PopMove(h, p), es + Heard(EffectOf(h, Pop(p)));
      if p.PopRestore? || p.PopFree? then m.t.Idle? && es' == es else m.t.Crashed? || Popping(m.t, es')
  {
    if p.PopCas? && SameWord(h.top, p.seen) {
      assert h.stack[0] in h.stack;
    }
  }

  // What move `turn` adds to the effects of thread i.
  function Adds(s: State, turn: Turn, i: nat): seq<Effect>
    requires i < |s.threads|
  {
    if turn.who == i then Heard(EffectOf(s.sh, s.threads[i])) else []
  }

  lemma PushingStep(s: State, turn: Turn, i: nat, v: nat, es: seq<Effect>)
    requires Inv(s) && turn.who < |s.threads| && i < |s.threads| && !WrongPop(s.sh, s.threads[turn.who])
    requires Pushing(s.sh, s.threads[i], v, es)
    ensures var s', es' := Step(s, turn.who, turn.what), es + Adds(s, turn, i);
      Pushing(s'.sh, s'.threads[i], v, es') || (s'.threads[i].Idle? && es' == [Put(v)])
  {
    if turn.who == i {
      PushingMove(s.sh, s.threads[i].push, v, es);
    } else {
      MoverStep(s, turn.who, turn.what);
      assert Apart(s.threads[turn.who], s.threads[i]);
      assert Private(s.threads[turn.who]) !! Private(s.threads[i]);
    }
  }

  lemma PoppingStep(s: State, turn: Turn, i: nat, es: seq<Effect>)
    requires Inv(s) && turn.who < |s.threads| && i < |s.threads| && !WrongPop(s.sh, s.threads[turn.who])
    requires Popping(s.threads[i], es)
    ensures var t', es' := Step(s, turn.who, turn.what).threads[i], es + Adds(s, turn, i);
      || Popping(t', es')
      || (t'.Idle? && turn.who == i && es' == es && (s.threads[i].pop.PopRestore? || s.threads[i].pop.PopFree?))
  {
    MoverStep(s, turn.who, turn.what);
    if turn.who == i {
      assert ThreadOk(s.sh, s.threads[i]);
      PoppingMove(s.sh, s.threads[i].pop, es);
    } else {
      assert es + [] == es;
    }
  }

  lemma OneMove(run: seq<State>, moves: seq<Turn>, i: nat, a: nat, k: nat)
    requires Run(run, moves) && Undeceived(run, moves) && a < k <= |moves| && i < |run[k - 1].threads|
    ensures Inv(run[k - 1]) && moves[k - 1].who < |run[k - 1].threads|
    ensures !WrongPop(run[k - 1].sh, run[k - 1].threads[moves[k - 1].who])
    ensures run[k] == Step(run[k - 1], moves[k - 1].who, moves[k - 1].what)
    ensures Done(run, moves, i, a, k) == Done(run, moves, i, a, k - 1) + Adds(run[k - 1], moves[k - 1], i)
  {
    hide Inv, Step, EffectOf, WrongPop;
    RunInv(run, moves, k - 1);
    assert run[k - 1 + 1] == run[k];
  }

  lemma PushBegins(s: State, i: nat, v: nat, node: nat)
    requires i < |s.threads| && s.threads[i].Idle?
    ensures var s' := Step(s, i, StartPush(v, node));
      Pushing(s'.sh, s'.threads[i], v, Adds(s, Turn(i, StartPush(v, node)), i))
  {
  }

  lemma PopBegins(s: State, i: nat)
    requires i < |s.threads| && s.threads[i].Idle?
    ensures Popping(Step(s, i, StartPop).threads[i], Adds(s, Turn(i, StartPop), i))
  {
  }

  lemma {:induction false} PushInProgress(run: seq<State>, moves: seq<Turn>, i: nat, a: nat, b: nat,
                                          v: nat, node: nat, k: nat)
    requires Call(run, moves, i, a, b, StartPush(v, node)) && a < k <= b
    ensures i < |run[k].threads|
    ensures var t, es := run[k].threads[i], Done(run, moves, i, a, k);
      Pushing(run[k].sh, t, v, es) || (t.Idle? && es == [Put(v)])
  {
    hide Inv, EffectOf, WrongPop, Pushing, MoveOf, Done;
    OneMove(run, moves, i, a, k);
    if k > a + 1 {
      PushInProgress(run, moves, i, a, b, v, node, k - 1);
      Busy(run, moves, i, a, b, StartPush(v, node), k - 1);
      PushingStep(run[k - 1], moves[k - 1], i, v, Done(run, moves, i, a, k - 1));
    } else {
      PushBegins(run[a], i, v, node);
      NothingYet(run, moves, i, a);
      assert [] + Adds(run[a], moves[a], i) == Adds(run[a], moves[a], i);
    }
  }

  lemma {:induction false} PopInProgress(run: seq<State>, moves: seq<Turn>, i: nat, a: nat, b: nat, k: nat)
    requires Call(run, moves, i, a, b, StartPop) && a < k < b
    ensures i < |run[k].threads| && Popping(run[k].threads[i], Done(run, moves, i, a, k))
  {
    hide Inv, EffectOf, WrongPop, Popping, MoveOf, Done;
    OneMove(run, moves, i, a, k);
    Busy(run, moves, i, a, b, StartPop, k);
    if k > a + 1 {
      PopInProgress(run, moves, i, a, b, k - 1);
      PoppingStep(run[k - 1], moves[k - 1], i, Done(run, moves, i, a, k - 1));
    } else {
      PopBegins(run[a], i);
      NothingYet(run, moves, i, a);
      assert [] + Adds(run[a], moves[a], i) == Adds(run[a], moves[a], i);
    }
  }

  lemma Busy(run: seq<State>, moves: seq<Turn>, i: nat, a: nat, b: nat, c: Choice, k: nat)
    requires Call(run, moves, i, a, b, c) && a < k < b
    ensures i < |run[k].threads| && !run[k].threads[i].Idle?
  {
  }

  lemma NothingYet(run: seq<State>, moves: seq<Turn>, i: nat, a: nat)
    requires Run(run, moves) && a <= |moves|
    ensures Done(run, moves, i, a, a) == []
  {
  }

  /** A call of Push(v) that has returned took effect exactly once in between, as a push of v. */
  lemma PushTakesEffectOnce(run: seq<State>, moves: seq<Turn>, i: nat, a: nat, b: nat, v: nat, node: nat)
    requires Call(run, moves, i, a, b, StartPush(v, node))
    ensures Done(run, moves, i, a, b) == [Put(v)]
  {
    PushInProgress(run, moves, i, a, b, v, node, b);
  }

  /** A call of Pop that has returned either was refused and had no effect, or took effect exactly
      once in between, taking out the very value it returned. */
  lemma PopTakesEffectOnce(run: seq<State>, moves: seq<Turn>, i: nat, a: nat, b: nat)
    requires Call(run, moves, i, a, b, StartPop)
    ensures b - 1 > a && i < |run[b - 1].threads| && run[b - 1].threads[i].Pop?
    ensures var p, es := run[b - 1].threads[i].pop, Done(run, moves, i, a, b);
      (p.PopRestore? && es == []) || (p.PopFree? && es == [Got(p.value)])
  {
    OneMove(run, moves, i, a, b);
    if b == a + 1 {
      PopBegins(run[a], i);
      assert false;
    } else {
      PopInProgress(run, moves, i, a, b, b - 1);
      PoppingStep(run[b - 1], moves[b - 1], i, Done(run, moves, i, a, b - 1));
    }
  }
}
