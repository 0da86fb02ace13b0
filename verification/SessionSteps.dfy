/** Each step of the session machine keeps the invariant: for the thread that moves, against
    all that the others hold, and for any one of the others. */
module SessionSteps {
  import opened Session
  import opened SessionInvariant

  // The invariant as the moving thread t sees it, the others holding `o`.
  ghost predicate Before(h: Shared, t: Thread, o: Totals) {
    SharedInv(h, Plus(Holds(t.pc), o)) && ThreadOk(h, t) && Consistent(o)
  }

  // Only what the send side, or the log, depends on.
  ghost predicate BeforeSend(h: Shared, t: Thread, o: Totals) {
    CountInv(h, Plus(Holds(t.pc), o)) && SendInv(h, Plus(Holds(t.pc), o)) && ThreadOk(h, t) && Consistent(o)
  }

  ghost predicate BeforeLog(h: Shared, t: Thread, o: Totals) {
    && CountInv(h, Plus(Holds(t.pc), o)) && IdInv(h) && LogInv(h, Plus(Holds(t.pc), o))
    && ThreadOk(h, t) && Consistent(o)
  }

  lemma LogAppend(log: seq<Event>, e: Event)
    ensures Replay(log + [e]) == After(Replay(log), e)
  {
    assert (log + [e])[..|log|] == log;
  }

  // ---- an idle thread picks up work ----

  lemma IdleSelf(h: Shared, t: Thread, o: Totals, c: Choice)
    requires t.pc.Idle? && Before(h, t, o)
    ensures var m := BeginMove(h, t, c); ThreadOk(m.sh, m.t)
  {
    match c
    case RecvDone(k, _) => assert k < |h.io.recvIo| ==> h.io.recvIo[k] in h.io.recvIo;
    case SendDone(k, _) => assert k < |h.io.sendIo| ==> h.io.sendIo[k] in h.io.sendIo;
    case Notified(k) => assert k < |h.io.notes| ==> h.io.notes[k] in h.io.notes;
    case _ =>
  }

  lemma IdleCount(h: Shared, t: Thread, o: Totals, c: Choice)
    requires t.pc.Idle? && CountInv(h, Plus(Holds(t.pc), o)) && Consistent(o)
    ensures var m := BeginMove(h, t, c); CountInv(m.sh, Plus(Holds(m.t.pc), o))
  {
    hide CountInv, BeginMove;
    match c
    case RecvDone(_, _) => IdleRecvCount(h, t, o, c);
    case SendDone(_, _) => IdleSendCount(h, t, o, c);
    case _ => IdleOtherCount(h, t, o, c);
  }

  lemma IdleRecvCount(h: Shared, t: Thread, o: Totals, c: Choice)
    requires t.pc.Idle? && CountInv(h, Plus(Holds(t.pc), o)) && c.RecvDone?
    ensures var m := BeginMove(h, t, c); CountInv(m.sh, Plus(Holds(m.t.pc), o))
  {
  }

  lemma IdleSendCount(h: Shared, t: Thread, o: Totals, c: Choice)
    requires t.pc.Idle? && CountInv(h, Plus(Holds(t.pc), o)) && c.SendDone?
    ensures var m := BeginMove(h, t, c); CountInv(m.sh, Plus(Holds(m.t.pc), o))
  {
  }

  lemma IdleOtherCount(h: Shared, t: Thread, o: Totals, c: Choice)
    requires t.pc.Idle? && CountInv(h, Plus(Holds(t.pc), o)) && Consistent(o) && !c.RecvDone? && !c.SendDone?
    ensures var m := BeginMove(h, t, c); CountInv(m.sh, Plus(Holds(m.t.pc), o))
  {
  }

  lemma IdleReceive(h: Shared, t: Thread, o: Totals, c: Choice)
    requires t.pc.Idle? && RecvInv(h, Plus(Holds(t.pc), o))
    ensures var m := BeginMove(h, t, c); m.t.pc != Crashed ==> RecvInv(m.sh, Plus(Holds(m.t.pc), o))
  {
  }

  lemma IdleSend(h: Shared, t: Thread, o: Totals, c: Choice)
    requires t.pc.Idle? && BeforeSend(h, t, o)
    ensures var m := BeginMove(h, t, c); m.t.pc != Crashed ==> SendInv(m.sh, Plus(Holds(m.t.pc), o))
  {
  }

  lemma IdleQueue(h: Shared, t: Thread, o: Totals, c: Choice)
    requires t.pc.Idle? && Before(h, t, o)
    ensures var m := BeginMove(h, t, c); m.t.pc != Crashed ==> QueueInv(m.sh, Plus(Holds(m.t.pc), o))
  {
    hide RecvInv, LogInv, Replay;
  }

  lemma WithoutIn(io: seq<nat>, k: nat)
    requires k < |io|
    ensures forall x :: x in Without(io, k) ==> x in io
  {
  }

  lemma IdleLog(h: Shared, t: Thread, o: Totals, c: Choice)
    requires t.pc.Idle? && BeforeLog(h, t, o)
    ensures var m := BeginMove(h, t, c); m.t.pc != Crashed ==> IdInv(m.sh) && LogInv(m.sh, Plus(Holds(m.t.pc), o))
  {
    hide Replay, InitOk, ReleaseOk;
    match c
    case RecvDone(k, _) =>
      if k < |h.io.recvIo| {
        WithoutIn(h.io.recvIo, k);
      }
    case SendDone(k, _) =>
      if k < |h.io.sendIo| {
        WithoutIn(h.io.sendIo, k);
      }
    case Notified(k) =>
      if k < |h.io.notes| {
        WithoutIn(h.io.notes, k);
      }
    case _ =>
  }

  lemma IdleOther(h: Shared, t: Thread, o: Totals, c: Choice, u: Thread, o2: Totals)
    requires t.pc.Idle? && Before(h, t, o)
    requires o == Plus(Holds(u.pc), o2) && ThreadOk(h, u)
    ensures ThreadOk(BeginMove(h, t, c).sh, u)
  {
  }

  // ---- InitSession and OnClientJoin ----

  lemma InitSelf(h: Shared, t: Thread, o: Totals)
    requires t.pc.Init? && Before(h, t, o)
    ensures var m := InitMove(h, t); ThreadOk(m.sh, m.t)
  {
    hide Replay, RecvInv, SendInv;
    LogAppend(h.log, Joined(h.ctl.id));
  }

  lemma InitCount(h: Shared, t: Thread, o: Totals)
    requires t.pc.Init? && CountInv(h, Plus(Holds(t.pc), o)) && Consistent(o)
    ensures var m := InitMove(h, t); m.t.pc != Crashed ==> CountInv(m.sh, Plus(Holds(m.t.pc), o))
  {
  }

  lemma InitReceive(h: Shared, t: Thread, o: Totals)
    requires t.pc.Init? && RecvInv(h, Plus(Holds(t.pc), o))
    ensures var m := InitMove(h, t); m.t.pc != Crashed ==> RecvInv(m.sh, Plus(Holds(m.t.pc), o))
  {
  }

  lemma InitSend(h: Shared, t: Thread, o: Totals)
    requires t.pc.Init? && BeforeSend(h, t, o)
    ensures var m := InitMove(h, t); m.t.pc != Crashed ==> SendInv(m.sh, Plus(Holds(m.t.pc), o))
  {
  }

  lemma InitQueue(h: Shared, t: Thread, o: Totals)
    requires t.pc.Init? && Before(h, t, o)
    ensures var m := InitMove(h, t); m.t.pc != Crashed ==> QueueInv(m.sh, Plus(Holds(m.t.pc), o))
  {
    hide RecvInv, LogInv, Replay;
  }

  lemma InitLog(h: Shared, t: Thread, o: Totals)
    requires t.pc.Init? && BeforeLog(h, t, o)
    ensures var m := InitMove(h, t); m.t.pc != Crashed ==> IdInv(m.sh) && LogInv(m.sh, Plus(Holds(m.t.pc), o))
  {
    hide Replay, ReleaseOk;
    LogAppend(h.log, Joined(h.ctl.id));
  }

  lemma InitOther(h: Shared, t: Thread, o: Totals, u: Thread, o2: Totals)
    requires t.pc.Init? && Before(h, t, o)
    requires o == Plus(Holds(u.pc), o2) && ThreadOk(h, u)
    ensures ThreadOk(InitMove(h, t).sh, u)
  {
  }

  // ---- RecvPost and the receive loop ----

  lemma RecvSelf(h: Shared, t: Thread, o: Totals, c: Choice)
    requires t.pc.Recv? && Before(h, t, o)
    ensures var m := RecvMove(h, t, c); ThreadOk(m.sh, m.t)
  {
    hide Replay, RecvInv, QueueInv, SendInv;
    LogAppend(h.log, Received(h.ctl.id));
  }

  lemma RecvIoCount(h: Shared, t: Thread, o: Totals, c: Choice)
    requires t.pc == Recv(RecvIo) && CountInv(h, Plus(Holds(t.pc), o)) && Consistent(o)
    ensures var m := RecvMove(h, t, c); CountInv(m.sh, Plus(Holds(m.t.pc), o))
  {
  }

  lemma RecvCount(h: Shared, t: Thread, o: Totals, c: Choice)
    requires t.pc.Recv? && t.pc.recv != RecvIo && CountInv(h, Plus(Holds(t.pc), o)) && Consistent(o)
    ensures var m := RecvMove(h, t, c); m.t.pc != Crashed ==> CountInv(m.sh, Plus(Holds(m.t.pc), o))
  {
  }

  lemma RecvReceive(h: Shared, t: Thread, o: Totals, c: Choice)
    requires t.pc.Recv? && RecvInv(h, Plus(Holds(t.pc), o))
    ensures var m := RecvMove(h, t, c); m.t.pc != Crashed ==> RecvInv(m.sh, Plus(Holds(m.t.pc), o))
  {
  }

  lemma RecvSend(h: Shared, t: Thread, o: Totals, c: Choice)
    requires t.pc.Recv? && SendInv(h, Plus(Holds(t.pc), o))
    ensures var m := RecvMove(h, t, c); SendInv(m.sh, Plus(Holds(m.t.pc), o))
  {
    hide SendInv, RecvMove, Holds;
    var m := RecvMove(h, t, c);
    RecvKeepsSend(h, t, c);
    NoSender(t.pc);
    NoSender(m.t.pc);
    SameSend(h, m.sh, Plus(Holds(t.pc), o), Plus(Holds(m.t.pc), o));
  }

  lemma RecvKeepsSend(h: Shared, t: Thread, c: Choice)
    requires t.pc.Recv?
    ensures var m := RecvMove(h, t, c);
      && m.sh.snd == h.snd && m.sh.io.sendIo == h.io.sendIo && (m.t.pc.Recv? || m.t.pc == Release(Drop))
      && m.sh.ctl.released == h.ctl.released && m.sh.ctl.freeSlots == h.ctl.freeSlots
  {
  }

  lemma NoSender(pc: Pc)
    requires pc.Recv? || pc == Release(Drop)
    ensures Holds(pc).probing == Holds(pc).buffering == Holds(pc).filling == 0
  {
  }

  lemma SameSend(h: Shared, h': Shared, a: Totals, a': Totals)
    requires SendInv(h, a) && h'.snd == h.snd && h'.io.sendIo == h.io.sendIo
    requires h'.ctl.released == h.ctl.released && h'.ctl.freeSlots == h.ctl.freeSlots
    requires a'.probing == a.probing && a'.buffering == a.buffering && a'.filling == a.filling
    ensures SendInv(h', a')
  {
  }

  lemma RecvQueue(h: Shared, t: Thread, o: Totals, c: Choice)
    requires t.pc.Recv? && Before(h, t, o)
    ensures var m := RecvMove(h, t, c); m.t.pc != Crashed ==> QueueInv(m.sh, Plus(Holds(m.t.pc), o))
  {
    hide LogInv, Replay, InitOk, ReleaseOk, RecvInv;
  }

  lemma RecvLog(h: Shared, t: Thread, o: Totals, c: Choice)
    requires t.pc.Recv? && BeforeLog(h, t, o)
    ensures var m := RecvMove(h, t, c); m.t.pc != Crashed ==> IdInv(m.sh) && LogInv(m.sh, Plus(Holds(m.t.pc), o))
  {
    hide Replay, InitOk, ReleaseOk;
    LogAppend(h.log, Received(h.ctl.id));
  }

  lemma RecvOther(h: Shared, t: Thread, o: Totals, c: Choice, u: Thread, o2: Totals)
    requires t.pc.Recv? && Before(h, t, o)
    requires o == Plus(Holds(u.pc), o2) && ThreadOk(h, u)
    ensures ThreadOk(RecvMove(h, t, c).sh, u)
  {
  }

  // ---- SendPacket and KillSession ----

  lemma CallerSelf(h: Shared, t: Thread, o: Totals)
    requires t.pc.Caller? && Before(h, t, o)
    ensures var m := CallMove(h, t); ThreadOk(m.sh, m.t)
  {
  }

  lemma CallerCount(h: Shared, t: Thread, o: Totals)
    requires t.pc.Caller? && CountInv(h, Plus(Holds(t.pc), o)) && Consistent(o)
    ensures var m := CallMove(h, t); m.t.pc != Crashed ==> CountInv(m.sh, Plus(Holds(m.t.pc), o))
  {
  }

  lemma CallerReceive(h: Shared, t: Thread, o: Totals)
    requires t.pc.Caller? && RecvInv(h, Plus(Holds(t.pc), o))
    ensures var m := CallMove(h, t); m.t.pc != Crashed ==> RecvInv(m.sh, Plus(Holds(m.t.pc), o))
  {
  }

  lemma CallerSend(h: Shared, t: Thread, o: Totals)
    requires t.pc.Caller? && BeforeSend(h, t, o)
    ensures var m := CallMove(h, t); m.t.pc != Crashed ==> SendInv(m.sh, Plus(Holds(m.t.pc), o))
  {
    hide Replay, InitOk, ReleaseOk;
  }

  lemma LinkQueue(h: Shared, t: Thread, o: Totals)
    requires t.pc.Caller? && t.pc.caller.SendLink?
    requires CountInv(h, Plus(Holds(t.pc), o)) && QueueInv(h, Plus(Holds(t.pc), o))
    ensures var m := CallMove(h, t); QueueInv(m.sh, Plus(Holds(m.t.pc), o))
  {
  }

  lemma CallerQueue(h: Shared, t: Thread, o: Totals)
    requires t.pc.Caller? && CountInv(h, Plus(Holds(t.pc), o)) && QueueInv(h, Plus(Holds(t.pc), o))
    ensures var m := CallMove(h, t); QueueInv(m.sh, Plus(Holds(m.t.pc), o))
  {
    hide CountInv;
    if t.pc.caller.SendLink? {
      LinkQueue(h, t, o);
    } else {
      assert CallMove(h, t).sh.snd.sendQ == h.snd.sendQ;
    }
  }

  lemma CallerLog(h: Shared, t: Thread, o: Totals)
    requires t.pc.Caller? && BeforeLog(h, t, o)
    ensures var m := CallMove(h, t); m.t.pc != Crashed ==> IdInv(m.sh) && LogInv(m.sh, Plus(Holds(m.t.pc), o))
  {
    hide Replay, InitOk, ReleaseOk;
  }

  lemma CallerOther(h: Shared, t: Thread, o: Totals, u: Thread, o2: Totals)
    requires t.pc.Caller? && Before(h, t, o)
    requires o == Plus(Holds(u.pc), o2) && ThreadOk(h, u)
    ensures ThreadOk(CallMove(h, t).sh, u)
  {
  }

  // ---- a send completion, and SendPost up to the exchange ----

  lemma PostSelf(h: Shared, t: Thread, o: Totals)
    requires t.pc.Post? && Before(h, t, o)
    ensures var m := PostMove(h, t); ThreadOk(m.sh, m.t)
  {
  }

  lemma PostCount(h: Shared, t: Thread, o: Totals)
    requires t.pc.Post? && CountInv(h, Plus(Holds(t.pc), o)) && Consistent(o)
    ensures var m := PostMove(h, t); m.t.pc != Crashed ==> CountInv(m.sh, Plus(Holds(m.t.pc), o))
  {
  }

  lemma PostReceive(h: Shared, t: Thread, o: Totals)
    requires t.pc.Post? && RecvInv(h, Plus(Holds(t.pc), o))
    ensures var m := PostMove(h, t); m.t.pc != Crashed ==> RecvInv(m.sh, Plus(Holds(m.t.pc), o))
  {
  }

  lemma PostSend(h: Shared, t: Thread, o: Totals)
    requires t.pc.Post? && BeforeSend(h, t, o)
    ensures var m := PostMove(h, t); m.t.pc != Crashed ==> SendInv(m.sh, Plus(Holds(m.t.pc), o))
  {
    hide BeforeSend, SendInv, PostMove, Holds;
    if t.pc == Post(FreeSent) {
      FreeSentSend(h, t, o);
    } else if t.pc == Post(ClearFlag) || t.pc == Post(PostXchg) {
      FlagSend(h, t, o);
    } else {
      PostedSend(h, t, o);
    }
  }

  lemma FlagSend(h: Shared, t: Thread, o: Totals)
    requires (t.pc == Post(ClearFlag) || t.pc == Post(PostXchg)) && BeforeSend(h, t, o)
    ensures var m := PostMove(h, t); SendInv(m.sh, Plus(Holds(m.t.pc), o))
  {
    hide Replay, InitOk, ReleaseOk;
  }

  lemma FreeSentSend(h: Shared, t: Thread, o: Totals)
    requires t.pc == Post(FreeSent) && BeforeSend(h, t, o)
    ensures var m := PostMove(h, t); m.t.pc != Crashed ==> SendInv(m.sh, Plus(Holds(m.t.pc), o))
  {
    hide Replay, InitOk, ReleaseOk;
  }

  lemma PostedSend(h: Shared, t: Thread, o: Totals)
    requires t.pc.Post? && t.pc != Post(FreeSent) && t.pc != Post(ClearFlag) && t.pc != Post(PostXchg)
    requires BeforeSend(h, t, o)
    ensures var m := PostMove(h, t); SendInv(m.sh, Plus(Holds(m.t.pc), o))
  {
    hide Replay, InitOk, ReleaseOk;
  }

  lemma PostQueue(h: Shared, t: Thread, o: Totals)
    requires t.pc.Post? && Before(h, t, o)
    ensures var m := PostMove(h, t); m.t.pc != Crashed ==> QueueInv(m.sh, Plus(Holds(m.t.pc), o))
  {
    hide LogInv, Replay, InitOk, ReleaseOk, RecvInv;
  }

  lemma PostLog(h: Shared, t: Thread, o: Totals)
    requires t.pc.Post? && BeforeLog(h, t, o)
    ensures var m := PostMove(h, t); m.t.pc != Crashed ==> IdInv(m.sh) && LogInv(m.sh, Plus(Holds(m.t.pc), o))
  {
    hide Replay, InitOk, ReleaseOk;
  }

  lemma PostOther(h: Shared, t: Thread, o: Totals, u: Thread, o2: Totals)
    requires t.pc.Post? && Before(h, t, o)
    requires o == Plus(Holds(u.pc), o2) && ThreadOk(h, u)
    ensures ThreadOk(PostMove(h, t).sh, u)
  {
  }

  // ---- SendPost past the exchange ----

  lemma TurnSelf(h: Shared, t: Thread, o: Totals, c: Choice)
    requires t.pc.Turn? && Before(h, t, o)
    ensures var m := TurnMove(h, t, c); ThreadOk(m.sh, m.t)
  {
  }

  lemma TurnCount(h: Shared, t: Thread, o: Totals, c: Choice)
    requires t.pc.Turn? && CountInv(h, Plus(Holds(t.pc), o)) && Consistent(o)
    ensures var m := TurnMove(h, t, c); m.t.pc != Crashed ==> CountInv(m.sh, Plus(Holds(m.t.pc), o))
  {
  }

  lemma TurnReceive(h: Shared, t: Thread, o: Totals, c: Choice)
    requires t.pc.Turn? && RecvInv(h, Plus(Holds(t.pc), o))
    ensures var m := TurnMove(h, t, c); m.t.pc != Crashed ==> RecvInv(m.sh, Plus(Holds(m.t.pc), o))
  {
  }

  lemma PostIoSend(h: Shared, t: Thread, o: Totals, c: Choice)
    requires t.pc == Turn(PostIo) && BeforeSend(h, t, o)
    ensures var m := TurnMove(h, t, c); SendInv(m.sh, Plus(Holds(m.t.pc), o))
  {
    hide Replay, InitOk, ReleaseOk;
  }

  lemma TurnSend(h: Shared, t: Thread, o: Totals, c: Choice)
    requires t.pc.Turn? && !t.pc.turn.PostIo? && BeforeSend(h, t, o)
    ensures var m := TurnMove(h, t, c); m.t.pc != Crashed ==> SendInv(m.sh, Plus(Holds(m.t.pc), o))
  {
    hide Replay, InitOk, ReleaseOk;
  }

  lemma PostIoQueue(h: Shared, t: Thread, o: Totals, c: Choice)
    requires t.pc == Turn(PostIo) && Before(h, t, o)
    ensures var m := TurnMove(h, t, c); QueueInv(m.sh, Plus(Holds(m.t.pc), o))
  {
    hide LogInv, Replay, InitOk, ReleaseOk, RecvInv, IdInv;
  }

  lemma TurnQueue(h: Shared, t: Thread, o: Totals, c: Choice)
    requires t.pc.Turn? && !t.pc.turn.PostDequeue? && !t.pc.turn.PostIo? && Before(h, t, o)
    ensures var m := TurnMove(h, t, c); m.t.pc != Crashed ==> QueueInv(m.sh, Plus(Holds(m.t.pc), o))
  {
    hide LogInv, Replay, InitOk, ReleaseOk, RecvInv;
  }

  lemma DequeueQueue(h: Shared, t: Thread, o: Totals, c: Choice)
    requires t.pc.Turn? && t.pc.turn.PostDequeue? && Before(h, t, o)
    ensures var m := TurnMove(h, t, c); m.t.pc != Crashed ==> QueueInv(m.sh, Plus(Holds(m.t.pc), o))
  {
  }

  lemma PostIoLog(h: Shared, t: Thread, o: Totals, c: Choice)
    requires t.pc == Turn(PostIo) && BeforeLog(h, t, o)
    ensures var m := TurnMove(h, t, c); IdInv(m.sh) && LogInv(m.sh, Plus(Holds(m.t.pc), o))
  {
    hide Replay, InitOk, ReleaseOk;
  }

  lemma TurnLog(h: Shared, t: Thread, o: Totals, c: Choice)
    requires t.pc.Turn? && !t.pc.turn.PostIo? && BeforeLog(h, t, o)
    ensures var m := TurnMove(h, t, c); m.t.pc != Crashed ==> IdInv(m.sh) && LogInv(m.sh, Plus(Holds(m.t.pc), o))
  {
    hide Replay, InitOk, ReleaseOk;
  }

  lemma TurnOther(h: Shared, t: Thread, o: Totals, c: Choice, u: Thread, o2: Totals)
    requires t.pc.Turn? && Before(h, t, o)
    requires o == Plus(Holds(u.pc), o2) && ThreadOk(h, u)
    ensures ThreadOk(TurnMove(h, t, c).sh, u)
  {
  }

  // ---- the final decrement, DisconnectSession, ReleaseSession ----

  lemma ReleaseSelf(h: Shared, t: Thread, o: Totals)
    requires t.pc.Release? && Before(h, t, o)
    ensures var m := ReleaseMove(h, t); ThreadOk(m.sh, m.t)
  {
    hide Replay, RecvInv;
    LogAppend(h.log, Left(h.ctl.id));
  }

  lemma DropCount(h: Shared, t: Thread, o: Totals)
    requires t.pc == Release(Drop) && CountInv(h, Plus(Holds(t.pc), o)) && Consistent(o)
    ensures var m := ReleaseMove(h, t); CountInv(m.sh, Plus(Holds(m.t.pc), o))
  {
  }

  lemma ReleaseCount(h: Shared, t: Thread, o: Totals)
    requires t.pc.Release? && t.pc.rel != Drop && CountInv(h, Plus(Holds(t.pc), o)) && Consistent(o)
    ensures var m := ReleaseMove(h, t); m.t.pc != Crashed ==> CountInv(m.sh, Plus(Holds(m.t.pc), o))
  {
  }

  lemma ReleaseReceive(h: Shared, t: Thread, o: Totals)
    requires t.pc.Release? && RecvInv(h, Plus(Holds(t.pc), o))
    ensures var m := ReleaseMove(h, t); m.t.pc != Crashed ==> RecvInv(m.sh, Plus(Holds(m.t.pc), o))
  {
  }

  lemma ReleaseSend(h: Shared, t: Thread, o: Totals)
    requires t.pc.Release? && BeforeSend(h, t, o)
    ensures var m := ReleaseMove(h, t); m.t.pc != Crashed ==> SendInv(m.sh, Plus(Holds(m.t.pc), o))
  {
    hide Replay;
  }

  lemma ReleaseQueue(h: Shared, t: Thread, o: Totals)
    requires t.pc.Release? && Before(h, t, o)
    ensures var m := ReleaseMove(h, t); m.t.pc != Crashed ==> QueueInv(m.sh, Plus(Holds(m.t.pc), o))
  {
    hide RecvInv, LogInv, Replay;
  }

  lemma ReleaseLog(h: Shared, t: Thread, o: Totals)
    requires t.pc.Release? && BeforeLog(h, t, o)
    ensures var m := ReleaseMove(h, t); m.t.pc != Crashed ==> IdInv(m.sh) && LogInv(m.sh, Plus(Holds(m.t.pc), o))
  {
    hide InitOk, Replay;
    LogAppend(h.log, Left(h.ctl.id));
  }

  lemma ReleaseOther(h: Shared, t: Thread, o: Totals, u: Thread, o2: Totals)
    requires t.pc.Release? && Before(h, t, o)
    requires o == Plus(Holds(u.pc), o2) && ThreadOk(h, u)
    ensures ThreadOk(ReleaseMove(h, t).sh, u)
  {
  }

  // ---- packet references ----

  lemma HeadToken(d: Sender, x: nat)
    requires d.sendQ != []
    ensures multiset(d.sendQ)[x] == multiset(d.sendQ[1..])[x] + Bit(d.sendQ[0] == x)
    ensures multiset(d.sendBuffer + [d.sendQ[0]])[x] == multiset(d.sendBuffer)[x] + Bit(d.sendQ[0] == x)
  {
    assert d.sendQ == [d.sendQ[0]] + d.sendQ[1..];
  }

  lemma IdleToken(h: Shared, t: Thread, c: Choice, x: nat, rest: nat)
    requires t.pc.Idle? && TokenInv(h, x, Hand(t.pc, x) + rest)
    ensures var m := BeginMove(h, t, c); TokenInv(m.sh, x, Hand(m.t.pc, x) + rest)
  {
  }

  lemma InitToken(h: Shared, t: Thread, x: nat, rest: nat)
    requires t.pc.Init? && TokenInv(h, x, Hand(t.pc, x) + rest)
    ensures var m := InitMove(h, t); TokenInv(m.sh, x, Hand(m.t.pc, x) + rest)
  {
  }

  lemma RecvToken(h: Shared, t: Thread, c: Choice, x: nat, rest: nat)
    requires t.pc.Recv? && TokenInv(h, x, Hand(t.pc, x) + rest)
    ensures var m := RecvMove(h, t, c); TokenInv(m.sh, x, Hand(m.t.pc, x) + rest)
  {
  }

  lemma CallerToken(h: Shared, t: Thread, x: nat, rest: nat)
    requires t.pc.Caller? && TokenInv(h, x, Hand(t.pc, x) + rest)
    ensures var m := CallMove(h, t); TokenInv(m.sh, x, Hand(m.t.pc, x) + rest)
  {
  }

  lemma PostToken(h: Shared, t: Thread, x: nat, rest: nat)
    requires t.pc.Post? && TokenInv(h, x, Hand(t.pc, x) + rest)
    ensures var m := PostMove(h, t); TokenInv(m.sh, x, Hand(m.t.pc, x) + rest)
  {
  }

  lemma TurnKeepsPackets(h: Shared, t: Thread, c: Choice, x: nat)
    requires t.pc.Turn? && !t.pc.turn.PostDequeue?
    ensures var m := TurnMove(h, t, c);
      && m.sh.tok == h.tok && m.sh.snd.sendQ == h.snd.sendQ && m.sh.snd.sendBuffer == h.snd.sendBuffer
      && Hand(m.t.pc, x) == Hand(t.pc, x)
  {
  }

  lemma TurnToken(h: Shared, t: Thread, c: Choice, x: nat, rest: nat)
    requires t.pc.Turn? && !t.pc.turn.PostDequeue? && TokenInv(h, x, Hand(t.pc, x) + rest)
    ensures var m := TurnMove(h, t, c); TokenInv(m.sh, x, Hand(m.t.pc, x) + rest)
  {
    hide TurnMove, Hand;
    TurnKeepsPackets(h, t, c, x);
  }

  lemma DequeueToken(h: Shared, t: Thread, c: Choice, x: nat, rest: nat)
    requires t.pc.Turn? && t.pc.turn.PostDequeue? && TokenInv(h, x, Hand(t.pc, x) + rest)
    ensures var m := TurnMove(h, t, c); TokenInv(m.sh, x, Hand(m.t.pc, x) + rest)
  {
    if h.snd.sendQ != [] {
      HeadToken(h.snd, x);
    }
  }

  lemma ReleaseToken(h: Shared, t: Thread, x: nat, rest: nat)
    requires t.pc.Release? && !t.pc.rel.Drain? && !t.pc.rel.FreeBuffer? && TokenInv(h, x, Hand(t.pc, x) + rest)
    ensures var m := ReleaseMove(h, t); TokenInv(m.sh, x, Hand(m.t.pc, x) + rest)
  {
  }

  lemma BufferToken(h: Shared, t: Thread, x: nat, rest: nat)
    requires t.pc.Release? && t.pc.rel.FreeBuffer? && TokenInv(h, x, Hand(t.pc, x) + rest)
    ensures var m := ReleaseMove(h, t); TokenInv(m.sh, x, Hand(m.t.pc, x) + rest)
  {
  }

  lemma DrainToken(h: Shared, t: Thread, x: nat, rest: nat)
    requires t.pc.Release? && t.pc.rel.Drain? && TokenInv(h, x, Hand(t.pc, x) + rest)
    ensures var m := ReleaseMove(h, t); TokenInv(m.sh, x, Hand(m.t.pc, x) + rest)
  {
    if h.snd.sendQ != [] {
      HeadToken(h.snd, x);
    }
  }

  // ---- one step of any thread ----

  lemma SharedKept(h: Shared, t: Thread, o: Totals, c: Choice)
    requires Before(h, t, o)
    ensures var m := MoveOf(h, t, c); SharedInv(m.sh, Plus(Holds(m.t.pc), o)) && ThreadOk(m.sh, m.t)
  {
    hide Holds, Plus, CountInv, RecvInv, IdInv, SendInv, QueueInv, LogInv, Consistent, InitOk, ReleaseOk;
    match t.pc
    case Idle =>
      IdleSelf(h, t, o, c);
      IdleCount(h, t, o, c);
      IdleReceive(h, t, o, c);
      IdleSend(h, t, o, c);
      IdleQueue(h, t, o, c);
      IdleLog(h, t, o, c);
    case Init(_) =>
      InitSelf(h, t, o);
      InitCount(h, t, o);
      InitReceive(h, t, o);
      InitSend(h, t, o);
      InitQueue(h, t, o);
      InitLog(h, t, o);
    case Recv(p) =>
      RecvSelf(h, t, o, c);
      if p.RecvIo? {
        RecvIoCount(h, t, o, c);
      } else {
        RecvCount(h, t, o, c);
      }
      RecvReceive(h, t, o, c);
      RecvSend(h, t, o, c);
      RecvQueue(h, t, o, c);
      RecvLog(h, t, o, c);
    case Caller(_) =>
      CallerSelf(h, t, o);
      CallerCount(h, t, o);
      CallerReceive(h, t, o);
      CallerSend(h, t, o);
      CallerQueue(h, t, o);
      CallerLog(h, t, o);
    case Post(_) =>
      PostSelf(h, t, o);
      PostCount(h, t, o);
      PostReceive(h, t, o);
      PostSend(h, t, o);
      PostQueue(h, t, o);
      PostLog(h, t, o);
    case Turn(p) =>
      TurnSelf(h, t, o, c);
      TurnCount(h, t, o, c);
      TurnReceive(h, t, o, c);
      if p.PostIo? {
        PostIoSend(h, t, o, c);
        PostIoQueue(h, t, o, c);
        PostIoLog(h, t, o, c);
      } else {
        TurnSend(h, t, o, c);
        if p.PostDequeue? {
          DequeueQueue(h, t, o, c);
        } else {
          TurnQueue(h, t, o, c);
        }
        TurnLog(h, t, o, c);
      }
    case Release(p) =>
      ReleaseSelf(h, t, o);
      if p.Drop? {
        DropCount(h, t, o);
      } else {
        ReleaseCount(h, t, o);
      }
      ReleaseReceive(h, t, o);
      ReleaseSend(h, t, o);
      ReleaseQueue(h, t, o);
      ReleaseLog(h, t, o);
  }

  lemma OtherKept(h: Shared, t: Thread, o: Totals, c: Choice, u: Thread, o2: Totals)
    requires Before(h, t, o) && o == Plus(Holds(u.pc), o2) && ThreadOk(h, u)
    ensures ThreadOk(MoveOf(h, t, c).sh, u)
  {
    match t.pc
    case Idle => IdleOther(h, t, o, c, u, o2);
    case Init(_) => InitOther(h, t, o, u, o2);
    case Recv(_) => RecvOther(h, t, o, c, u, o2);
    case Caller(_) => CallerOther(h, t, o, u, o2);
    case Post(_) => PostOther(h, t, o, u, o2);
    case Turn(_) => TurnOther(h, t, o, c, u, o2);
    case Release(_) => ReleaseOther(h, t, o, u, o2);
  }

  lemma TokenKept(h: Shared, t: Thread, c: Choice, x: nat, rest: nat)
    requires TokenInv(h, x, Hand(t.pc, x) + rest)
    ensures var m := MoveOf(h, t, c); TokenInv(m.sh, x, Hand(m.t.pc, x) + rest)
  {
    match t.pc
    case Idle => IdleToken(h, t, c, x, rest);
    case Init(_) => InitToken(h, t, x, rest);
    case Recv(_) => RecvToken(h, t, c, x, rest);
    case Caller(_) => CallerToken(h, t, x, rest);
    case Post(_) => PostToken(h, t, x, rest);
    case Turn(p) => if p.PostDequeue? { DequeueToken(h, t, c, x, rest); } else { TurnToken(h, t, c, x, rest); }
    case Release(p) =>
      if p.Drain? {
        DrainToken(h, t, x, rest);
      } else if p.FreeBuffer? {
        BufferToken(h, t, x, rest);
      } else {
        ReleaseToken(h, t, x, rest);
      }
    case Crashed =>
  }
}
