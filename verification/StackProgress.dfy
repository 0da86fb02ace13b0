/** No thread of LockFreeStack ever waits for another: run alone, each returns from its call. */
module StackProgress {
  import opened LockFreeStack
  import opened StackInvariant
  import opened StackTheorems

  function Rank(h: Shared, t: Thread): nat {
    match t
    case Push(PushTag(_, _)) => 20
    case Push(PushData(_, _, _)) => 19
    case Push(PushRead(_, _)) => 10
    case Push(PushNext(_, _, seen)) => if seen == h.top then 9 else 13
    case Push(PushCas(_, _, seen)) => if SameWord(h.top, seen) then 8 else 12
    case Push(PushSize) => 1
    case Pop(PopTicket(_)) => 20
    case Pop(PopRestore) => 1
    case Pop(PopRead(_)) => 10
    case Pop(PopNext(_, seen)) => if seen == h.top then 9 else 13
    case Pop(PopCas(_, seen, _)) => if SameWord(h.top, seen) && seen.node.To? then 8 else 12
    case Pop(PopData(_, _)) => 3
    case Pop(PopFree(_, _, _)) => 2
    case _ => 0
  }

  lemma PushForward(h: Shared, p: PushPc)
    ensures var m := PushMove(h, p); Rank(m.sh, m.t) < Rank(h, Push(p))
  {
  }

  lemma PopForward(h: Shared, p: PopPc)
    requires PopOk(h, p)
    ensures var m := PopMove(h, p); Rank(m.sh, m.t) < Rank(h, Pop(p)) && !WrongPop(m.sh, m.t)
  {
  }

  lemma RunOn(run: seq<State>, moves: seq<Turn>, i: nat) returns (run': seq<State>, moves': seq<Turn>)
    requires Run(run, moves) && Undeceived(run, moves) && i < |run[|moves|].threads|
    requires !WrongPop(run[|moves|].sh, run[|moves|].threads[i])
    ensures Run(run', moves') && Undeceived(run', moves') && run <= run' && moves' == moves + [Turn(i, Go)]
    ensures run'[|moves'|] == Step(run[|moves|], i, Go)
  {
    hide Start, Step, WrongPop;
    run', moves' := run + [Step(run[|moves|], i, Go)], moves + [Turn(i, Go)];
    assert forall k: nat :: k <= |moves| ==> run'[k] == run[k];
  }

  lemma Forward(s: State, i: nat)
    requires Inv(s) && i < |s.threads| && !s.threads[i].Idle?
    ensures var s' := Step(s, i, Go);
      && i < |s'.threads| && Rank(s'.sh, s'.threads[i]) < Rank(s.sh, s.threads[i])
      && !WrongPop(s'.sh, s'.threads[i])
  {
    hide Shape, PushMove, PopMove, PushOk, PopOk, Rank, WrongPop;
    assert ThreadOk(s.sh, s.threads[i]);
    match s.threads[i]
    case Push(p) =>
      PushForward(s.sh, p);
      NoPop(s, i);
    case Pop(p) => PopForward(s.sh, p);
  }

  lemma NoPop(s: State, i: nat)
    requires i < |s.threads| && s.threads[i].Push?
    ensures var s' := Step(s, i, Go); !WrongPop(s'.sh, s'.threads[i])
  {
  }

  ghost predicate AloneFrom(moves: seq<Turn>, n: nat, i: nat) {
    forall k: nat :: n <= k < |moves| ==> moves[k] == Turn(i, Go)
  }

  /** From any moment of a run that is not fooled, a thread that is not about to be fooled itself and runs
      alone returns from its Push or Pop, without being fooled. */
  lemma {:induction false} ReturnsAlone(run: seq<State>, moves: seq<Turn>, i: nat)
    returns (run': seq<State>, moves': seq<Turn>)
    requires Run(run, moves) && Undeceived(run, moves) && i < |run[|moves|].threads|
    requires !WrongPop(run[|moves|].sh, run[|moves|].threads[i])
    ensures Run(run', moves') && Undeceived(run', moves') && run <= run' && moves <= moves'
    ensures AloneFrom(moves', |moves|, i)
    ensures i < |run'[|moves'|].threads| && run'[|moves'|].threads[i].Idle?
    decreases Rank(run[|moves|].sh, run[|moves|].threads[i])
  {
    hide Start, Step, Inv, Rank, WrongPop;
    var s := run[|moves|];
    if s.threads[i].Idle? {
      run', moves' := run, moves;
    } else {
      RunInv(run, moves, |moves|);
      Forward(s, i);
      run', moves' := RunOn(run, moves, i);
      run', moves' := ReturnsAlone(run', moves', i);
    }
  }
}
