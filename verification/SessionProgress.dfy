/** No thread of the session machine ever waits for another: run alone, each finishes what it is at. */
module SessionProgress {
  import opened Session
  import opened SessionCalls
  import opened SessionInvariant
  import opened SessionTheorems

  // How far a thread is from being idle, if it runs alone and the receive loop ends.
  function Rank(h: Shared, pc: Pc): nat {
    match pc
    case Idle => 0
    case Init(InitUse(_)) => 45
    case Init(InitId(_)) => 44
    case Init(InitSend) => 43
    case Init(InitRef) => 42
    case Init(InitRelease) => 41
    case Init(Join) => 40
    case Recv(Deliver) => 39
    case Recv(RecvUse) => 38
    case Recv(RecvRef) => 37
    case Recv(RecvIo) => 36
    case Recv(RecvUndo) => 35
    case Caller(CallFlag(_, _)) => 34
    case Caller(CallId(_, _)) => 33
    case Caller(SendTake(_)) => 32
    case Caller(SendLink(_, _)) => 31
    case Caller(SendSize(_)) => 30
    case Caller(SendNotify(_)) => 29
    case Caller(KillUse(_)) => 28
    case Caller(CallUndo) => 27
    case Post(FreeSent) => 26
    case Post(ClearFlag) => 25
    case Post(PostRef) => 24
    case Post(PostUse) => 23
    case Post(PostXchg) => 17
    case Post(PostUndo) => 11
    case Turn(PostSize) => 16
    case Turn(PostClear) => if h.snd.size == 0 then 13 else 19
    case Turn(PostRecheck) => if h.snd.size == 0 then 12 else 18
    case Turn(PostDequeue(_)) => 15
    case Turn(PostCnt) => 14
    case Turn(PostIo) => 13
    case Release(Drop) => 10
    case Release(Cas) => 9
    case Release(Leave) => 8
    case Release(ReleaseId) => 7
    case Release(Drain) => 6
    case Release(FreeBuffer) => 5
    case Release(ReleasePush) => 4
    case Crashed => 0
  }

  // Within the two loops, over the packets counted and over what is left in SendQ.
  function Rounds(h: Shared, pc: Pc): nat {
    match pc
    case Turn(PostDequeue(left)) => left
    case Release(Drain) => |h.snd.sendQ|
    case _ => 0
  }

  predicate Nearer(h: Shared, pc: Pc, h': Shared, pc': Pc) {
    Rank(h', pc') < Rank(h, pc) || (Rank(h', pc') == Rank(h, pc) && Rounds(h', pc') < Rounds(h, pc))
  }

  /** Every step of a busy thread, whatever I/O calls return, takes it nearer to its end; only the loop
      over received messages goes on as long as there are messages. */
  lemma StepForward(h: Shared, t: Thread, c: Choice)
    requires !t.pc.Idle? && t.pc != Crashed && (t.pc == Recv(Deliver) ==> c == Refuse)
    ensures var m := MoveOf(h, t, c); m.t.pc != Crashed ==> Nearer(h, t.pc, m.sh, m.t.pc)
  {
    hide Nearer, MoveOf;
    match t.pc
    case Init(_) => OtherForward(h, t, c);
    case Recv(_) => OtherForward(h, t, c);
    case Caller(_) => CallerForward(h, t, c);
    case Post(_) => PostForward(h, t, c);
    case Turn(_) => TurnForward(h, t, c);
    case Release(_) => ReleaseForward(h, t, c);
  }

  lemma OtherForward(h: Shared, t: Thread, c: Choice)
    requires t.pc.Init? || (t.pc.Recv? && (t.pc == Recv(Deliver) ==> c == Refuse))
    ensures var m := MoveOf(h, t, c); m.t.pc != Crashed ==> Nearer(h, t.pc, m.sh, m.t.pc)
  {
    match t.pc
    case Init(_) => assert InitMove(h, t) == MoveOf(h, t, c);
    case Recv(_) => assert RecvMove(h, t, c) == MoveOf(h, t, c);
  }

  lemma CallerForward(h: Shared, t: Thread, c: Choice)
    requires t.pc.Caller?
    ensures var m := MoveOf(h, t, c); Nearer(h, t.pc, m.sh, m.t.pc)
  {
    assert CallMove(h, t) == MoveOf(h, t, c);
  }

  lemma PostForward(h: Shared, t: Thread, c: Choice)
    requires t.pc.Post?
    ensures var m := MoveOf(h, t, c); m.t.pc != Crashed ==> Nearer(h, t.pc, m.sh, m.t.pc)
  {
    assert PostMove(h, t) == MoveOf(h, t, c);
  }

  lemma TurnForward(h: Shared, t: Thread, c: Choice)
    requires t.pc.Turn?
    ensures var m := MoveOf(h, t, c); m.t.pc != Crashed ==> Nearer(h, t.pc, m.sh, m.t.pc)
  {
    assert TurnMove(h, t, c) == MoveOf(h, t, c);
  }

  lemma ReleaseForward(h: Shared, t: Thread, c: Choice)
    requires t.pc.Release?
    ensures var m := MoveOf(h, t, c); m.t.pc != Crashed ==> Nearer(h, t.pc, m.sh, m.t.pc)
  {
    assert ReleaseMove(h, t) == MoveOf(h, t, c);
  }

  lemma PlayOn(run: seq<State>, moves: seq<Played>, i: nat, c: Choice) returns (run': seq<State>, moves': seq<Played>)
    requires Plays(run, moves) && i < |run[|moves|].threads|
    ensures Plays(run', moves') && run <= run' && moves' == moves + [Played(i, c)]
    ensures run'[|moves'|] == Step(run[|moves|], i, c)
  {
    hide Start, Step;
    run', moves' := run + [Step(run[|moves|], i, c)], moves + [Played(i, c)];
    assert forall k: nat :: k <= |moves| ==> run'[k] == run[k];
  }

  // The moves from n on are all of thread i.
  ghost predicate AloneFrom(moves: seq<Played>, n: nat, i: nat) {
    forall k: nat :: n <= k < |moves| ==> moves[k].who == i
  }

  /** From any moment of any run any thread, run alone from there, finishes its call, its completion or
      its release: nothing it does waits for another thread. */
  lemma {:induction false} FinishesAlone(run: seq<State>, moves: seq<Played>, i: nat)
    returns (run': seq<State>, moves': seq<Played>)
    requires Plays(run, moves) && i < |run[|moves|].threads|
    ensures Plays(run', moves') && run <= run' && moves <= moves' && AloneFrom(moves', |moves|, i)
    ensures i < |run'[|moves'|].threads| && run'[|moves'|].threads[i].pc == Idle
    decreases Rank(run[|moves|].sh, run[|moves|].threads[i].pc), Rounds(run[|moves|].sh, run[|moves|].threads[i].pc)
  {
    hide Start, MoveOf, Rank, Rounds, Inv;
    var s := run[|moves|];
    var t := s.threads[i];
    if t.pc == Idle {
      run', moves' := run, moves;
    } else {
      NoCrash(run, moves, i);
      var c := if t.pc == Recv(Deliver) then Refuse else Go;
      run', moves' := PlayOn(run, moves, i, c);
      NoCrash(run', moves', i);
      StepForward(s.sh, t, c);
      run', moves' := FinishesAlone(run', moves', i);
    }
  }

  lemma NoCrash(run: seq<State>, moves: seq<Played>, i: nat)
    requires Plays(run, moves) && i < |run[|moves|].threads|
    ensures run[|moves|].threads[i].pc != Crashed
  {
    PlaysInv(run, moves, |moves|);
  }
}
