/** What one turn of SendPost does, and what a completion with 0 bytes ends. */
module SessionSending {
  import opened Session
  import opened SessionCalls
  import opened SessionInvariant
  import opened SessionTheorems

  // ---- a turn of SendPost, from the count to WSASend ----

  predicate Emptying(pc: Pc) {
    pc.Turn? && (pc.turn.PostDequeue? || pc.turn.PostCnt? || pc.turn.PostIo?)
  }

  lemma EmptyingApart(pc: Pc, qc: Pc, o: Totals, h: Shared)
    requires CountInv(h, Plus(Holds(pc), Plus(Holds(qc), o))) || CountInv(h, Plus(Holds(qc), Plus(Holds(pc), o)))
    requires SendInv(h, Plus(Holds(pc), Plus(Holds(qc), o))) || SendInv(h, Plus(Holds(qc), Plus(Holds(pc), o)))
    requires Consistent(o) && Emptying(pc)
    ensures !UsesBuffer(qc) && qc != Release(Drain)
  {
  }

  // While thread i empties SendQ into SendBuffer no other thread is at either but to append.
  lemma EmptyingAlone(s: State, i: nat, j: nat)
    requires Inv(s) && i < |s.threads| && j < |s.threads| && i != j && Emptying(s.threads[i].pc)
    ensures !UsesBuffer(s.threads[j].pc) && s.threads[j].pc != Release(Drain)
  {
    hide Holds, Total, UsesBuffer, Emptying;
    var o := TwoOf(s.threads, if i < j then i else j, if i < j then j else i);
    EmptyingApart(s.threads[i].pc, s.threads[j].pc, o, s.sh);
  }

  lemma OnlyAppends(h: Shared, t: Thread, c: Choice)
    requires !UsesBuffer(t.pc) && t.pc != Release(Drain)
    ensures var m := MoveOf(h, t, c);
      && m.sh.snd.sendBuffer == h.snd.sendBuffer && m.sh.snd.packetCnt == h.snd.packetCnt
      && h.snd.sendQ <= m.sh.snd.sendQ && (m.sh.snd.passed == h.snd.passed)
  {
    match t.pc
    case Idle => assert BeginMove(h, t, c) == MoveOf(h, t, c);
    case Init(_) => assert InitMove(h, t) == MoveOf(h, t, c);
    case Recv(_) => assert RecvMove(h, t, c) == MoveOf(h, t, c);
    case Caller(_) => assert CallMove(h, t) == MoveOf(h, t, c);
    case Post(_) => assert PostMove(h, t) == MoveOf(h, t, c);
    case Turn(_) => assert TurnMove(h, t, c) == MoveOf(h, t, c);
    case Release(_) => assert ReleaseMove(h, t) == MoveOf(h, t, c);
    case Crashed =>
  }

  // SendBuffer so far, and what is left of the count, make up the first n references of q.
  predicate Emptied(d: Sender, pc: Pc, q: seq<nat>, n: nat) {
    && n <= |q| && q <= d.sendBuffer + d.sendQ
    && match pc
       case Turn(PostDequeue(left)) => |d.sendBuffer| + left == n
       case Turn(PostCnt) => |d.sendBuffer| == n
       case Turn(PostIo) => |d.sendBuffer| == n == d.packetCnt
       case _ => false
  }

  lemma CountMove(h: Shared, t: Thread, c: Choice, o: Totals)
    requires t.pc == Turn(PostSize) && h.snd.size > 0
    requires CountInv(h, Plus(Holds(t.pc), o)) && SendInv(h, Plus(Holds(t.pc), o)) && QueueInv(h, Plus(Holds(t.pc), o))
    ensures var m := TurnMove(h, t, c); Emptied(m.sh.snd, m.t.pc, h.snd.sendQ, h.snd.size)
  {
  }

  lemma EmptyMove(h: Shared, t: Thread, c: Choice, q: seq<nat>, n: nat)
    requires Emptied(h.snd, t.pc, q, n) && t.pc != Turn(PostIo)
    ensures var m := TurnMove(h, t, c); m.t.pc != Crashed ==> Emptied(m.sh.snd, m.t.pc, q, n)
  {
    if t.pc.turn.PostDequeue? && t.pc.turn.left > 0 && h.snd.sendQ != [] {
      assert h.snd.sendBuffer + h.snd.sendQ == (h.snd.sendBuffer + [h.snd.sendQ[0]]) + h.snd.sendQ[1..];
    }
  }

  lemma OtherEmpties(d: Sender, d': Sender, pc: Pc, q: seq<nat>, n: nat)
    requires Emptied(d, pc, q, n)
    requires d'.sendBuffer == d.sendBuffer && d'.packetCnt == d.packetCnt && d.sendQ <= d'.sendQ
    ensures Emptied(d', pc, q, n)
  {
    assert d.sendBuffer + d.sendQ <= d'.sendBuffer + d'.sendQ;
  }

  // Thread i reads Size at move a and stands before WSASend after move b - 1.
  ghost predicate Turns(run: seq<State>, moves: seq<Played>, i: nat, a: nat, b: nat) {
    && Plays(run, moves) && a < b < |run| && moves[a].who == i && i < |run[a].threads|
    && run[a].threads[i].pc == Turn(PostSize) && run[a].sh.snd.size > 0
    && (forall k: nat :: a < k <= b ==> i < |run[k].threads| && Emptying(run[k].threads[i].pc))
    && (forall k: nat :: a < k < b ==> run[k].threads[i].pc != Turn(PostIo))
    && run[b].threads[i].pc == Turn(PostIo)
  }

  ghost predicate EmptiedAt(run: seq<State>, i: nat, a: nat, k: nat)
    requires a <= k < |run| && i < |run[k].threads| && run[a].sh.snd.size > 0
  {
    Emptied(run[k].sh.snd, run[k].threads[i].pc, run[a].sh.snd.sendQ, run[a].sh.snd.size)
  }

  lemma TurnFirst(run: seq<State>, moves: seq<Played>, i: nat, a: nat, b: nat)
    requires Turns(run, moves, i, a, b)
    ensures EmptiedAt(run, i, a, a + 1)
  {
    hide Start, Holds, Total, Emptied, TokenInv, LogInv, RecvInv;
    PlaysInv(run, moves, a);
    var t := run[a].threads[i];
    SplitOff(run[a].threads, i);
    CountMove(run[a].sh, t, moves[a].what, Others(run[a].threads, i));
    assert TurnMove(run[a].sh, t, moves[a].what) == MoveOf(run[a].sh, t, moves[a].what);
  }

  lemma TurnNext(run: seq<State>, moves: seq<Played>, i: nat, a: nat, b: nat, k: nat)
    requires Turns(run, moves, i, a, b) && a < k < b && EmptiedAt(run, i, a, k)
    ensures EmptiedAt(run, i, a, k + 1)
  {
    hide Start, Inv, MoveOf, Emptied, UsesBuffer;
    PlaysInv(run, moves, k);
    var j, c := moves[k].who, moves[k].what;
    var m := MoveOf(run[k].sh, run[k].threads[j], c);
    assert run[k + 1] == Step(run[k], j, c);
    if j == i {
      EmptyMove(run[k].sh, run[k].threads[i], c, run[a].sh.snd.sendQ, run[a].sh.snd.size);
      assert TurnMove(run[k].sh, run[k].threads[i], c) == m by { TurnIsMove(run[k].sh, run[k].threads[i], c); }
    } else {
      EmptyingAlone(run[k], i, j);
      OnlyAppends(run[k].sh, run[k].threads[j], c);
      OtherEmpties(run[k].sh.snd, m.sh.snd, run[k].threads[i].pc, run[a].sh.snd.sendQ, run[a].sh.snd.size);
    }
  }

  lemma TurnIsMove(h: Shared, t: Thread, c: Choice)
    requires t.pc.Turn?
    ensures TurnMove(h, t, c) == MoveOf(h, t, c)
  {
  }

  lemma {:induction false} TurnInProgress(run: seq<State>, moves: seq<Played>, i: nat, a: nat, b: nat, k: nat)
    requires Turns(run, moves, i, a, b) && a < k <= b
    ensures EmptiedAt(run, i, a, k)
  {
    hide Turns, EmptiedAt;
    TurnRange(run, moves, i, a, b);
    if k == a + 1 {
      TurnFirst(run, moves, i, a, b);
    } else {
      TurnInProgress(run, moves, i, a, b, k - 1);
      TurnNext(run, moves, i, a, b, k - 1);
    }
  }

  lemma TurnRange(run: seq<State>, moves: seq<Played>, i: nat, a: nat, b: nat)
    requires Turns(run, moves, i, a, b)
    ensures a < b < |run| && run[a].sh.snd.size > 0
    ensures forall k: nat :: a < k <= b ==> i < |run[k].threads|
  {
  }

  /** SendPost hands WSASend exactly what it counted: the first Size packets that were in SendQ when it
      read Size, in order, whatever was queued behind them since, and SendPacketCnt is their number. */
  lemma SendsWhatItCounted(run: seq<State>, moves: seq<Played>, i: nat, a: nat, b: nat)
    requires Turns(run, moves, i, a, b)
    ensures var n, q := run[a].sh.snd.size, run[a].sh.snd.sendQ;
      && n <= |q| && run[b].sh.snd.sendBuffer == q[..n] && run[b].sh.snd.packetCnt == n
      && (b < |moves| && moves[b].who == i ==>
            && run[b + 1].sh.snd.passed == run[b].sh.snd.passed + q[..n]
            && run[b + 1].sh.snd.sendBuffer == q[..n]
            && (moves[b].what != Refuse ==> |run[b + 1].sh.io.sendIo| == |run[b].sh.io.sendIo| + 1))
  {
    TurnInProgress(run, moves, i, a, b, b);
    var n, q := run[a].sh.snd.size, run[a].sh.snd.sendQ;
    var d := run[b].sh.snd;
    assert d.sendBuffer == (d.sendBuffer + d.sendQ)[..n] == q[..n];
    if b < |moves| && moves[b].who == i {
      assert run[b + 1] == Step(run[b], i, moves[b].what);
      TurnIsMove(run[b].sh, run[b].threads[i], moves[b].what);
    }
  }

  // ---- no empty send ----

  // What thread pc is about to send, and what has been sent, is something.
  predicate Filled(h: Shared, pc: Pc) {
    && (pc == Turn(PostCnt) || pc == Turn(PostIo) ==> h.snd.sendBuffer != [])
    && (pc.Turn? && pc.turn.PostDequeue? ==> h.snd.sendBuffer != [] || pc.turn.left > 0)
  }

  ghost predicate NoEmptySend(s: State) {
    && (s.sh.io.sendIo != [] ==> s.sh.snd.sendBuffer != [])
    && forall j: nat :: j < |s.threads| ==> Filled(s.sh, s.threads[j].pc)
  }

  lemma FilledMove(h: Shared, t: Thread, c: Choice, o: Totals)
    requires CountInv(h, Plus(Holds(t.pc), o)) && SendInv(h, Plus(Holds(t.pc), o)) && UsesBuffer(t.pc)
    requires (h.io.sendIo != [] ==> h.snd.sendBuffer != []) && Filled(h, t.pc)
    ensures var m := MoveOf(h, t, c);
      (m.sh.io.sendIo != [] ==> m.sh.snd.sendBuffer != []) && Filled(m.sh, m.t.pc)
  {
    match t.pc
    case Init(_) => assert InitMove(h, t) == MoveOf(h, t, c);
    case Post(_) => assert PostMove(h, t) == MoveOf(h, t, c);
    case Turn(_) => assert TurnMove(h, t, c) == MoveOf(h, t, c);
    case Release(_) => assert ReleaseMove(h, t) == MoveOf(h, t, c);
  }

  predicate Besides(h: Shared, m: Move) {
    && m.sh.snd.sendBuffer == h.snd.sendBuffer && |m.sh.io.sendIo| <= |h.io.sendIo| && Filled(m.sh, m.t.pc)
  }

  lemma BesidesMove(h: Shared, t: Thread, c: Choice)
    requires !UsesBuffer(t.pc)
    ensures Besides(h, MoveOf(h, t, c))
  {
    hide Besides, MoveOf;
    match t.pc
    case Idle => BesidesEnd(h, t, c);
    case Init(_) => BesidesEnd(h, t, c);
    case Release(_) => BesidesEnd(h, t, c);
    case Crashed => BesidesEnd(h, t, c);
    case Turn(_) => BesidesTurn(h, t, c);
    case _ => BesidesWork(h, t, c);
  }

  lemma BesidesEnd(h: Shared, t: Thread, c: Choice)
    requires !UsesBuffer(t.pc) && (t.pc.Idle? || t.pc.Init? || t.pc.Release? || t.pc == Crashed)
    ensures Besides(h, MoveOf(h, t, c))
  {
    match t.pc
    case Idle => assert BeginMove(h, t, c) == MoveOf(h, t, c);
    case Init(_) => assert InitMove(h, t) == MoveOf(h, t, c);
    case Release(_) => assert ReleaseMove(h, t) == MoveOf(h, t, c);
    case Crashed =>
  }

  lemma BesidesTurn(h: Shared, t: Thread, c: Choice)
    requires !UsesBuffer(t.pc) && t.pc.Turn?
    ensures Besides(h, MoveOf(h, t, c))
  {
    assert TurnMove(h, t, c) == MoveOf(h, t, c);
  }

  lemma BesidesWork(h: Shared, t: Thread, c: Choice)
    requires !UsesBuffer(t.pc) && (t.pc.Recv? || t.pc.Caller? || t.pc.Post?)
    ensures Besides(h, MoveOf(h, t, c))
  {
    match t.pc
    case Recv(_) => assert RecvMove(h, t, c) == MoveOf(h, t, c);
    case Caller(_) => assert CallMove(h, t) == MoveOf(h, t, c);
    case Post(_) => assert PostMove(h, t) == MoveOf(h, t, c);
  }

  lemma NoEmptyStep(s: State, i: nat, c: Choice)
    requires Inv(s) && i < |s.threads| && NoEmptySend(s)
    ensures NoEmptySend(Step(s, i, c))
  {
    hide MoveOf, Holds, Total, UsesBuffer, TokenInv, RecvInv, IdInv, QueueInv, LogInv, CountInv, SendInv;
    var t, m := s.threads[i], MoveOf(s.sh, s.threads[i], c);
    SplitOff(s.threads, i);
    if UsesBuffer(t.pc) {
      FilledMove(s.sh, t, c, Others(s.threads, i));
    } else {
      BesidesMove(s.sh, t, c);
    }
    forall j: nat | j < |s.threads| && j != i ensures Filled(m.sh, s.threads[j].pc) {
      if UsesBuffer(t.pc) && Emptying(s.threads[j].pc) {
        EmptyingAlone(s, j, i);
      } else if !UsesBuffer(t.pc) {
        assert Filled(s.sh, s.threads[j].pc);
      }
    }
  }

  lemma {:induction false} NoEmptyRun(run: seq<State>, k: nat)
    requires Run(run) && k < |run|
    ensures NoEmptySend(run[k])
  {
    hide Step, Inv;
    if k > 0 {
      NoEmptyRun(run, k - 1);
      RunInv(run, k - 1);
      assert Next(run[k - 1], run[k - 1 + 1]);
      var i: nat, c: Choice :| i < |run[k - 1].threads| && run[k] == Step(run[k - 1], i, c);
      NoEmptyStep(run[k - 1], i, c);
    }
  }

  /** A send is never posted without a packet. */
  lemma SendsSomething(s: State)
    requires Reachable(s) && s.sh.io.sendIo != []
    ensures s.sh.snd.sendBuffer != []
  {
    hide Start, Next, NoEmptySend;
    var run: seq<State> :| Run(run) && run[|run| - 1] == s;
    NoEmptyRun(run, |run| - 1);
    SendsFrom(s);
  }

  lemma SendsFrom(s: State)
    requires NoEmptySend(s) && s.sh.io.sendIo != []
    ensures s.sh.snd.sendBuffer != []
  {
  }

  // ---- a failed send is the last ----

  // From move a + 1 to move b the slot is live.
  ghost predicate LiveFor(run: seq<State>, a: nat, b: nat)
    requires b < |run|
  {
    forall k: nat :: a < k <= b ==> !run[k].sh.ctl.released
  }

  // After a failed send nobody is on the way from the SendFlag exchange.
  lemma FailedAlone(h: Shared, pc: Pc, o: Totals)
    requires CountInv(h, Plus(Holds(pc), o)) && SendInv(h, Plus(Holds(pc), o))
    requires !h.ctl.released && h.snd.failed
    ensures h.snd.sendFlag && h.io.sendIo == []
    ensures !UsesBuffer(pc) && pc != Release(Drain) && pc != Post(ClearFlag) && pc != Turn(PostClear)
  {
  }

  predicate Failed(h: Shared) {
    h.snd.failed && h.snd.sendFlag && h.io.sendIo == []
  }

  lemma StillFailed(h: Shared, t: Thread, c: Choice)
    requires Failed(h) && !UsesBuffer(t.pc) && t.pc != Post(ClearFlag) && t.pc != Turn(PostClear)
    ensures Failed(MoveOf(h, t, c).sh)
  {
    hide MoveOf, Failed;
    match t.pc
    case Idle => FailedBegin(h, t, c);
    case Init(_) => FailedWork(h, t, c);
    case Recv(_) => FailedWork(h, t, c);
    case Caller(_) => FailedWork(h, t, c);
    case _ => FailedEnd(h, t, c);
  }

  lemma FailedBegin(h: Shared, t: Thread, c: Choice)
    requires Failed(h) && t.pc.Idle?
    ensures Failed(MoveOf(h, t, c).sh)
  {
    assert BeginMove(h, t, c) == MoveOf(h, t, c);
  }

  lemma FailedWork(h: Shared, t: Thread, c: Choice)
    requires Failed(h) && !UsesBuffer(t.pc) && (t.pc.Init? || t.pc.Recv? || t.pc.Caller?)
    ensures Failed(MoveOf(h, t, c).sh)
  {
    match t.pc
    case Init(_) => assert InitMove(h, t) == MoveOf(h, t, c);
    case Recv(_) => assert RecvMove(h, t, c) == MoveOf(h, t, c);
    case Caller(_) => assert CallMove(h, t) == MoveOf(h, t, c);
  }

  lemma FailedEnd(h: Shared, t: Thread, c: Choice)
    requires Failed(h) && !UsesBuffer(t.pc) && t.pc != Post(ClearFlag) && t.pc != Turn(PostClear)
    requires t.pc.Post? || t.pc.Turn? || t.pc.Release? || t.pc == Crashed
    ensures Failed(MoveOf(h, t, c).sh)
  {
    match t.pc
    case Post(_) => assert PostMove(h, t) == MoveOf(h, t, c);
    case Turn(_) => assert TurnMove(h, t, c) == MoveOf(h, t, c);
    case Release(_) => assert ReleaseMove(h, t) == MoveOf(h, t, c);
    case Crashed =>
  }

  // Move a is a send completing with 0 bytes, or WSASend refusing.
  ghost predicate SendFails(run: seq<State>, moves: seq<Played>, a: nat) {
    && Plays(run, moves) && a < |moves|
    && var t := run[a].threads[moves[a].who];
       || (t.pc.Idle? && moves[a].what.SendDone? && moves[a].what.k < |run[a].sh.io.sendIo| && moves[a].what.zero)
       || (t.pc == Turn(PostIo) && moves[a].what == Refuse)
  }

  lemma FailsNow(run: seq<State>, moves: seq<Played>, a: nat)
    requires SendFails(run, moves, a)
    ensures run[a + 1].sh.snd.failed && run[a + 1].sh.snd.sendBuffer == run[a].sh.snd.sendBuffer
  {
    hide Start;
    var i, c := moves[a].who, moves[a].what;
    assert run[a + 1] == Step(run[a], i, c);
  }

  lemma FailedNext(run: seq<State>, moves: seq<Played>, k: nat)
    requires Plays(run, moves) && k < |moves| && !run[k].sh.ctl.released && run[k].sh.snd.failed
    ensures var d, d' := run[k].sh.snd, run[k + 1].sh.snd;
      && d'.failed && d'.sendFlag && d'.passed == d.passed && d'.sendBuffer == d.sendBuffer
      && run[k + 1].sh.io.sendIo == []
  {
    hide MoveOf, Holds, Total, TokenInv, RecvInv, IdInv, QueueInv, LogInv, Start, UsesBuffer;
    PlaysInv(run, moves, k);
    var i, c := moves[k].who, moves[k].what;
    SplitOff(run[k].threads, i);
    FailedAlone(run[k].sh, run[k].threads[i].pc, Others(run[k].threads, i));
    OnlyAppends(run[k].sh, run[k].threads[i], c);
    StillFailed(run[k].sh, run[k].threads[i], c);
    assert run[k + 1] == Step(run[k], i, c);
  }

  /** Once a send has completed with 0 bytes, or was refused, nothing more is sent for as long as the slot
      stays live: SendFlag stays 1, SendBuffer as it is, no send is pending. */
  lemma {:induction false} FailedSendIsLast(run: seq<State>, moves: seq<Played>, a: nat, b: nat)
    requires SendFails(run, moves, a) && a < b < |run| && LiveFor(run, a, b)
    ensures run[b].sh.snd.failed && run[b].sh.snd.passed == run[a + 1].sh.snd.passed
    ensures run[b].sh.snd.sendBuffer == run[a].sh.snd.sendBuffer
    ensures b > a + 1 ==> run[b].sh.snd.sendFlag && run[b].sh.io.sendIo == []
  {
    hide Start, Step;
    if b == a + 1 {
      FailsNow(run, moves, a);
    } else {
      FailedSendIsLast(run, moves, a, b - 1);
      FailedNext(run, moves, b - 1);
      assert run[b - 1 + 1] == run[b];
    }
  }

  // ---- a receive that ends the stream is the last ----

  // No receive is pending, and no thread of receives is left.
  ghost predicate Deaf(h: Shared, a: Totals) {
    h.io.recvIo == [] && a.receives == 0
  }

  predicate Hears(pc: Pc) {
    pc.Init? || (pc.Recv? && pc != Recv(RecvUndo)) || pc == Release(Leave)
  }

  lemma DeafAlone(h: Shared, pc: Pc, o: Totals)
    requires CountInv(h, Plus(Holds(pc), o)) && !h.ctl.released && Deaf(h, Plus(Holds(pc), o))
    ensures !Hears(pc) && h.ctl.freeSlots == 0 && o.receives == 0
  {
  }

  lemma NothingHeld(pc: Pc)
    ensures !Hears(pc) || pc == Release(Leave) ==> Holds(pc).receives == 0
  {
  }

  // Such a thread logs nothing and posts no receive.
  predicate Unheard(h: Shared, m: Move) {
    m.sh.log == h.log && m.sh.io.recvIo == [] && (!Hears(m.t.pc) || m.t.pc == Release(Leave))
  }

  lemma DeafMove(h: Shared, t: Thread, c: Choice)
    requires !Hears(t.pc) && h.ctl.freeSlots == 0 && h.io.recvIo == []
    ensures Unheard(h, MoveOf(h, t, c))
  {
    hide MoveOf, Unheard;
    match t.pc
    case Idle => DeafBegin(h, t, c);
    case Turn(_) => DeafTurn(h, t, c);
    case _ => DeafWork(h, t, c);
  }

  lemma DeafBegin(h: Shared, t: Thread, c: Choice)
    requires t.pc.Idle? && h.ctl.freeSlots == 0 && h.io.recvIo == []
    ensures Unheard(h, MoveOf(h, t, c))
  {
    assert BeginMove(h, t, c) == MoveOf(h, t, c);
  }

  lemma DeafTurn(h: Shared, t: Thread, c: Choice)
    requires t.pc.Turn? && h.io.recvIo == []
    ensures Unheard(h, MoveOf(h, t, c))
  {
    assert TurnMove(h, t, c) == MoveOf(h, t, c);
  }

  lemma DeafWork(h: Shared, t: Thread, c: Choice)
    requires !Hears(t.pc) && !t.pc.Idle? && !t.pc.Turn? && h.io.recvIo == []
    ensures Unheard(h, MoveOf(h, t, c))
  {
    match t.pc
    case Recv(_) => assert RecvMove(h, t, c) == MoveOf(h, t, c);
    case Caller(_) => assert CallMove(h, t) == MoveOf(h, t, c);
    case Post(_) => assert PostMove(h, t) == MoveOf(h, t, c);
    case Release(_) => assert ReleaseMove(h, t) == MoveOf(h, t, c);
    case Crashed =>
  }

  // Move a is the receive completing with 0 bytes.
  ghost predicate ReceiveEnds(run: seq<State>, moves: seq<Played>, a: nat) {
    && Plays(run, moves) && a < |moves| && run[a].threads[moves[a].who].pc.Idle?
    && moves[a].what.RecvDone? && moves[a].what.k < |run[a].sh.io.recvIo| && moves[a].what.zero
  }

  lemma EndsMove(h: Shared, t: Thread, c: Choice, o: Totals)
    requires t.pc.Idle? && c.RecvDone? && c.k < |h.io.recvIo| && c.zero
    requires CountInv(h, Plus(Holds(t.pc), o))
    ensures var m := MoveOf(h, t, c); m.sh.log == h.log && Deaf(m.sh, Plus(Holds(m.t.pc), o))
  {
  }

  lemma EndsNow(run: seq<State>, moves: seq<Played>, a: nat)
    requires ReceiveEnds(run, moves, a)
    ensures Deaf(run[a + 1].sh, Total(run[a + 1].threads)) && run[a + 1].sh.log == run[a].sh.log
  {
    hide Start, MoveOf, Holds, Total, Deaf, TokenInv, RecvInv, IdInv, QueueInv, LogInv, SendInv;
    PlaysInv(run, moves, a);
    var i, c := moves[a].who, moves[a].what;
    assert run[a + 1] == Step(run[a], i, c);
    SplitOff(run[a].threads, i);
    OthersUnmoved(run[a].threads, i, run[a + 1].threads[i]);
    EndsMove(run[a].sh, run[a].threads[i], c, Others(run[a].threads, i));
  }

  lemma DeafNext(run: seq<State>, moves: seq<Played>, k: nat)
    requires Plays(run, moves) && k < |moves| && !run[k].sh.ctl.released && Deaf(run[k].sh, Total(run[k].threads))
    ensures run[k + 1].sh.log == run[k].sh.log && Deaf(run[k + 1].sh, Total(run[k + 1].threads))
  {
    hide MoveOf, Holds, Total, TokenInv, RecvInv, IdInv, QueueInv, LogInv, SendInv, Start, Hears;
    PlaysInv(run, moves, k);
    var i, c := moves[k].who, moves[k].what;
    assert run[k + 1] == Step(run[k], i, c);
    SplitOff(run[k].threads, i);
    OthersUnmoved(run[k].threads, i, run[k + 1].threads[i]);
    DeafAlone(run[k].sh, run[k].threads[i].pc, Others(run[k].threads, i));
    DeafMove(run[k].sh, run[k].threads[i], c);
    NothingHeld(run[k + 1].threads[i].pc);
  }

  /** Once a receive has completed with 0 bytes, no receive is posted and no callback made for as long as
      the slot stays live. */
  lemma {:induction false} LastReceive(run: seq<State>, moves: seq<Played>, a: nat, b: nat)
    requires ReceiveEnds(run, moves, a) && a < b < |run| && LiveFor(run, a, b)
    ensures run[b].sh.io.recvIo == [] && run[b].sh.log == run[a].sh.log
    ensures Deaf(run[b].sh, Total(run[b].threads))
  {
    hide Start, Step, Total;
    if b == a + 1 {
      EndsNow(run, moves, a);
    } else {
      LastReceive(run, moves, a, b - 1);
      DeafNext(run, moves, b - 1);
      assert run[b - 1 + 1] == run[b];
    }
  }
}
