/** What a call or a completion does when its thread runs alone: the whole of the shared memory it
    leaves. */
module SessionAlone {
  import opened Session
  import opened SessionInvariant
  import opened SessionTheorems

  /** Thread i takes |cs| steps, one after the other. */
  function Alone(s: State, i: nat, cs: seq<Choice>): (r: State)
    requires i < |s.threads|
    ensures |r.threads| == |s.threads|
    decreases |cs|
  {
    if cs == [] then s else Alone(Step(s, i, cs[0]), i, cs[1..])
  }

  function Gos(n: nat): (r: seq<Choice>)
    ensures |r| == n
  {
    seq(n, _ => Go)
  }

  lemma {:induction false} AloneSplit(s: State, i: nat, cs: seq<Choice>, ds: seq<Choice>)
    requires i < |s.threads|
    ensures Alone(s, i, cs + ds) == Alone(Alone(s, i, cs), i, ds)
    decreases |cs|
  {
    if cs == [] {
      assert cs + ds == ds;
    } else {
      assert (cs + ds)[1..] == cs[1..] + ds;
      AloneSplit(Step(s, i, cs[0]), i, cs[1..], ds);
    }
  }

  lemma OneGo(s: State, i: nat, n: nat)
    requires i < |s.threads| && n > 0
    ensures Alone(s, i, Gos(n)) == Alone(Step(s, i, Go), i, Gos(n - 1))
  {
    hide Step;
    assert Gos(n)[1..] == Gos(n - 1);
  }

  // Thread i stands at pc and the shared memory is h; the others are as in s.
  function At(s: State, i: nat, h: Shared, t: Thread): State
    requires i < |s.threads|
  {
    State(h, s.threads[i := t])
  }

  lemma Goes(s: State, i: nat, h: Shared, t: Thread, h': Shared, t': Thread, n: nat)
    requires i < |s.threads| && n > 0 && MoveOf(h, t, Go) == Move(h', t')
    ensures Alone(At(s, i, h, t), i, Gos(n)) == Alone(At(s, i, h', t'), i, Gos(n - 1))
  {
    OneGo(At(s, i, h, t), i, n);
    assert Step(At(s, i, h, t), i, Go) == At(s, i, h', t');
  }

  lemma Stops(s: State, i: nat)
    requires i < |s.threads|
    ensures Alone(s, i, Gos(0)) == s
  {
  }

  // ---- SendPost ----

  // n packets taken from SendQ to SendBuffer.
  function Moved(d: Sender, n: nat): Sender
    requires n <= |d.sendQ|
  {
    d.(size := d.size - n, sendQ := d.sendQ[n..], sendBuffer := d.sendBuffer + d.sendQ[..n])
  }

  lemma {:induction false} DequeuesAlone(s: State, i: nat, h: Shared, inc: nat, n: nat, more: nat)
    requires i < |s.threads| && n <= |h.snd.sendQ| && h.snd.size >= n
    ensures Alone(At(s, i, h, Thread(Turn(PostDequeue(n)), inc)), i, Gos(n + more)) ==
            Alone(At(s, i, h.(snd := Moved(h.snd, n)), Thread(Turn(PostDequeue(0)), inc)), i, Gos(more))
    decreases n
  {
    if n == 0 {
      assert Moved(h.snd, 0) == h.snd;
    } else {
      var h' := h.(snd := Moved(h.snd, 1));
      assert h.snd.sendQ[..1] == [h.snd.sendQ[0]];
      Goes(s, i, h, Thread(Turn(PostDequeue(n)), inc), h', Thread(Turn(PostDequeue(n - 1)), inc), n + more);
      DequeuesAlone(s, i, h', inc, n - 1, more);
      MovedTwice(h.snd, n);
    }
  }

  lemma MovedTwice(d: Sender, n: nat)
    requires 0 < n <= |d.sendQ|
    ensures Moved(Moved(d, 1), n - 1) == Moved(d, n)
  {
    assert d.sendQ[1..][n - 1..] == d.sendQ[n..];
    assert d.sendBuffer + d.sendQ[..1] + d.sendQ[1..][..n - 1] == d.sendBuffer + d.sendQ[..n];
  }

  // The slot is in use under an ID, nothing has been sent that has not completed, and all of SendQ is
  // counted.
  predicate Ready(h: Shared) {
    && !h.ctl.released && h.ctl.useFlag && h.ctl.refCnt > 0
    && !h.snd.sendFlag && h.snd.sendBuffer == [] && h.snd.size == |h.snd.sendQ|
  }

  // All of SendQ has been given to WSASend.
  function Sent(h: Shared, inc: nat): Shared {
    h.(snd := h.snd.(sendFlag := true, sendQ := [], size := 0, sendBuffer := h.snd.sendQ,
                     packetCnt := |h.snd.sendQ|, failed := false, passed := h.snd.passed + h.snd.sendQ),
       io := h.io.(sendIo := h.io.sendIo + [inc]))
  }

  lemma TurnAlone(s: State, i: nat, h: Shared, inc: nat)
    requires i < |s.threads| && Ready(h) && h.snd.sendQ != []
    ensures var n := |h.snd.sendQ|;
      Alone(At(s, i, h, Thread(Post(PostRef), inc)), i, Gos(n + 8)) == At(s, i, Sent(h, inc), Thread(Idle, inc))
  {
    hide MoveOf;
    var n := |h.snd.sendQ|;
    var h1 := h.(ctl := h.ctl.(refCnt := h.ctl.refCnt + 1));
    var h2 := h1.(snd := h1.snd.(sendFlag := true));
    var h3 := h2.(snd := Moved(h2.snd, n));
    TurnStarts(s, i, h, inc);
    assert n + 4 == n + 4;
    DequeuesAlone(s, i, h2, inc, n, 4);
    TurnEnds(s, i, h3, inc);
    assert h.snd.sendQ[n..] == [] && [] + h.snd.sendQ[..n] == h.snd.sendQ;
    assert h3.snd.sendBuffer == h.snd.sendQ;
  }

  lemma TurnStarts(s: State, i: nat, h: Shared, inc: nat)
    requires i < |s.threads| && Ready(h) && h.snd.sendQ != []
    ensures var n := |h.snd.sendQ|;
      var h2 := h.(ctl := h.ctl.(refCnt := h.ctl.refCnt + 1), snd := h.snd.(sendFlag := true));
      Alone(At(s, i, h, Thread(Post(PostRef), inc)), i, Gos(n + 8)) ==
      Alone(At(s, i, h2, Thread(Turn(PostDequeue(n)), inc)), i, Gos(n + 4))
  {
    var n := |h.snd.sendQ|;
    var h1 := h.(ctl := h.ctl.(refCnt := h.ctl.refCnt + 1));
    var h2 := h1.(snd := h1.snd.(sendFlag := true));
    Goes(s, i, h, Thread(Post(PostRef), inc), h1, Thread(Post(PostUse), inc), n + 8);
    Goes(s, i, h1, Thread(Post(PostUse), inc), h1, Thread(Post(PostXchg), inc), n + 7);
    Goes(s, i, h1, Thread(Post(PostXchg), inc), h2, Thread(Turn(PostSize), inc), n + 6);
    Goes(s, i, h2, Thread(Turn(PostSize), inc), h2, Thread(Turn(PostDequeue(n)), inc), n + 5);
  }

  lemma TurnEnds(s: State, i: nat, h: Shared, inc: nat)
    requires i < |s.threads| && h.ctl.refCnt > 1
    ensures var h' := h.(ctl := h.ctl.(refCnt := h.ctl.refCnt - 1),
                         snd := h.snd.(packetCnt := |h.snd.sendBuffer|, failed := false,
                                       passed := h.snd.passed + h.snd.sendBuffer),
                         io := h.io.(sendIo := h.io.sendIo + [inc]));
      Alone(At(s, i, h, Thread(Turn(PostDequeue(0)), inc)), i, Gos(4)) == At(s, i, h', Thread(Idle, inc))
  {
    var h1 := h.(snd := h.snd.(packetCnt := |h.snd.sendBuffer|));
    var h2 := h1.(snd := h1.snd.(failed := false, passed := h1.snd.passed + h1.snd.sendBuffer),
                  io := h1.io.(sendIo := h1.io.sendIo + [inc]));
    var h3 := h2.(ctl := h2.ctl.(refCnt := h2.ctl.refCnt - 1));
    Goes(s, i, h, Thread(Turn(PostDequeue(0)), inc), h, Thread(Turn(PostCnt), inc), 4);
    Goes(s, i, h, Thread(Turn(PostCnt), inc), h1, Thread(Turn(PostIo), inc), 3);
    Goes(s, i, h1, Thread(Turn(PostIo), inc), h2, Thread(Release(Drop), inc), 2);
    Goes(s, i, h2, Thread(Release(Drop), inc), h3, Thread(Idle, inc), 1);
    Stops(At(s, i, h3, Thread(Idle, inc)), i);
  }

  // ---- the calls and completions, from a state in which every thread is idle ----

  ghost predicate Calm(s: State, i: nat) {
    && Reachable(s) && i < |s.threads| && (forall j: nat :: j < |s.threads| ==> s.threads[j].pc == Idle)
    && !s.sh.ctl.released && s.sh.ctl.useFlag
  }

  ghost predicate Rests(h: Shared) {
    && h.snd.size == |h.snd.sendQ| && h.snd.packetCnt == |h.snd.sendBuffer|
    && (!h.snd.sendFlag ==> h.snd.sendBuffer == [] && h.io.sendIo == [])
    && h.ctl.refCnt == |h.io.recvIo| + |h.io.sendIo| + |h.io.notes|
    && (forall x :: x in h.io.recvIo || x in h.io.sendIo || x in h.io.notes ==> x == h.ctl.id)
    && (|h.io.sendIo| > 0 ==> h.snd.sendFlag && !h.snd.failed && |h.io.sendIo| == 1)
  }

  lemma CalmHeap(h: Shared)
    requires CountInv(h, NOTHING) && SendInv(h, NOTHING) && QueueInv(h, NOTHING) && IdInv(h) && !h.ctl.released
    ensures Rests(h)
  {
  }

  lemma CalmFacts(s: State, i: nat)
    requires Calm(s, i)
    ensures Rests(s.sh)
  {
    hide Reachable, CountInv, SendInv, QueueInv, IdInv, RecvInv, LogInv, TokenInv, Rests, Total;
    ReachableInv(s);
    TotalNothing(s.threads);
    CalmHeap(s.sh);
  }

  lemma {:induction false} AloneReachable(s: State, i: nat, cs: seq<Choice>)
    requires Reachable(s) && i < |s.threads|
    ensures Reachable(Alone(s, i, cs))
    decreases |cs|
  {
    hide Reachable;
    if cs != [] {
      ReachableStep(s, i, cs[0]);
      AloneReachable(Step(s, i, cs[0]), i, cs[1..]);
    }
  }

  lemma Starts(s: State, i: nat, c: Choice, n: nat, h: Shared, t: Thread)
    requires i < |s.threads| && MoveOf(s.sh, s.threads[i], c) == Move(h, t)
    ensures Alone(s, i, [c] + Gos(n)) == Alone(At(s, i, h, t), i, Gos(n))
  {
    assert ([c] + Gos(n))[1..] == Gos(n);
    assert Step(s, i, c) == At(s, i, h, t);
  }

  /** SendPacket under the session's ID: the packet is at the end of SendQ, counted, and announced. */
  lemma SendPacketAlone(s: State, i: nat)
    requires Calm(s, i)
    ensures var h, id, x := s.sh, s.sh.ctl.id, s.sh.tok.taken;
      Alone(s, i, [Enter(Send, id)] + Gos(6)) ==
      At(s, i, h.(ctl := h.ctl.(refCnt := h.ctl.refCnt + 1), tok := h.tok.(taken := x + 1),
                  snd := h.snd.(sendQ := h.snd.sendQ + [x], linked := h.snd.linked + [x], size := h.snd.size + 1),
                  io := h.io.(notes := h.io.notes + [id])),
         Thread(Idle, id))
  {
    hide Reachable, MoveOf, Gos;
    var h, id, x := s.sh, s.sh.ctl.id, s.sh.tok.taken;
    var h1 := h.(ctl := h.ctl.(refCnt := h.ctl.refCnt + 1));
    PassesAlone(s, i, id, 4);
    LinksAlone(s, i, h1, id, 2);
    AnnouncesAlone(s, i, h1.(tok := h1.tok.(taken := x + 1),
                             snd := h1.snd.(sendQ := h1.snd.sendQ + [x], linked := h1.snd.linked + [x])), id);
  }

  lemma LinksAlone(s: State, i: nat, h: Shared, id: nat, n: nat)
    requires i < |s.threads|
    ensures var x := h.tok.taken;
      var h' := h.(tok := h.tok.(taken := x + 1),
                   snd := h.snd.(sendQ := h.snd.sendQ + [x], linked := h.snd.linked + [x]));
      Alone(At(s, i, h, Thread(Caller(SendTake(id)), id)), i, Gos(n + 2)) ==
      Alone(At(s, i, h', Thread(Caller(SendSize(id)), id)), i, Gos(n))
  {
    var x := h.tok.taken;
    var h1 := h.(tok := h.tok.(taken := x + 1));
    var h2 := h1.(snd := h1.snd.(sendQ := h1.snd.sendQ + [x], linked := h1.snd.linked + [x]));
    Goes(s, i, h, Thread(Caller(SendTake(id)), id), h1, Thread(Caller(SendLink(id, x)), id), n + 2);
    Goes(s, i, h1, Thread(Caller(SendLink(id, x)), id), h2, Thread(Caller(SendSize(id)), id), n + 1);
  }

  lemma AnnouncesAlone(s: State, i: nat, h: Shared, id: nat)
    requires i < |s.threads|
    ensures var h' := h.(snd := h.snd.(size := h.snd.size + 1), io := h.io.(notes := h.io.notes + [id]));
      Alone(At(s, i, h, Thread(Caller(SendSize(id)), id)), i, Gos(2)) == At(s, i, h', Thread(Idle, id))
  {
    var h1 := h.(snd := h.snd.(size := h.snd.size + 1));
    var h2 := h1.(io := h1.io.(notes := h1.io.notes + [id]));
    Goes(s, i, h, Thread(Caller(SendSize(id)), id), h1, Thread(Caller(SendNotify(id)), id), 2);
    Goes(s, i, h1, Thread(Caller(SendNotify(id)), id), h2, Thread(Idle, id), 1);
    Stops(At(s, i, h2, Thread(Idle, id)), i);
  }

  lemma PassesAlone(s: State, i: nat, id: nat, n: nat)
    requires Calm(s, i) && id == s.sh.ctl.id
    ensures var h1 := s.sh.(ctl := s.sh.ctl.(refCnt := s.sh.ctl.refCnt + 1));
      Alone(s, i, [Enter(Send, id)] + Gos(n + 2)) == Alone(At(s, i, h1, Thread(Caller(SendTake(id)), id)), i, Gos(n))
  {
    hide Reachable;
    var inc, h1 := s.threads[i].inc, s.sh.(ctl := s.sh.ctl.(refCnt := s.sh.ctl.refCnt + 1));
    Starts(s, i, Enter(Send, id), n + 2, h1, Thread(Caller(CallFlag(Send, id)), inc));
    Goes(s, i, h1, Thread(Caller(CallFlag(Send, id)), inc), h1, Thread(Caller(CallId(Send, id)), id), n + 2);
    Goes(s, i, h1, Thread(Caller(CallId(Send, id)), id), h1, Thread(Caller(SendTake(id)), id), n + 1);
  }

  /** A notification, when no send is under way: all of SendQ goes to WSASend. */
  lemma NotifiedAlone(s: State, i: nat, k: nat)
    requires Calm(s, i) && k < |s.sh.io.notes| && !s.sh.snd.sendFlag && s.sh.snd.sendQ != []
    ensures var h := s.sh;
      Alone(s, i, [Notified(k)] + Gos(|h.snd.sendQ| + 8)) ==
      At(s, i, Sent(h.(io := h.io.(notes := Without(h.io.notes, k))), h.ctl.id), Thread(Idle, h.ctl.id))
  {
    hide Reachable, Sent;
    CalmFacts(s, i);
    var h := s.sh.(io := s.sh.io.(notes := Without(s.sh.io.notes, k)));
    assert s.sh.io.notes[k] in s.sh.io.notes;
    Starts(s, i, Notified(k), |s.sh.snd.sendQ| + 8, h, Thread(Post(PostRef), s.sh.ctl.id));
    TurnAlone(s, i, h, s.sh.ctl.id);
  }

  // A send has completed: SendBuffer is freed and SendFlag cleared.
  function Completed(h: Shared, k: nat): Shared
    requires k < |h.io.sendIo|
  {
    h.(io := h.io.(sendIo := Without(h.io.sendIo, k)),
       tok := h.tok.(freed := h.tok.freed + multiset(h.snd.sendBuffer)),
       snd := h.snd.(packetCnt := 0, sendBuffer := [], sendFlag := false))
  }

  /** A send that completes gives the packets sent back, and all that is queued by then is sent. */
  lemma SendDoneAlone(s: State, i: nat, k: nat)
    requires Calm(s, i) && k < |s.sh.io.sendIo| && s.sh.snd.sendQ != []
    ensures Alone(s, i, [SendDone(k, false)] + Gos(|s.sh.snd.sendQ| + 10)) ==
            At(s, i, Sent(Completed(s.sh, k), s.sh.ctl.id), Thread(Idle, s.sh.ctl.id))
  {
    hide Reachable, Sent;
    var n := |s.sh.snd.sendQ|;
    CalmFacts(s, i);
    CompletesAlone(s, i, k, n + 8);
    TurnAlone(s, i, Completed(s.sh, k), s.sh.ctl.id);
  }

  lemma CompletesAlone(s: State, i: nat, k: nat, n: nat)
    requires Calm(s, i) && k < |s.sh.io.sendIo|
    ensures Alone(s, i, [SendDone(k, false)] + Gos(n + 2)) ==
            Alone(At(s, i, Completed(s.sh, k), Thread(Post(PostRef), s.sh.ctl.id)), i, Gos(n))
  {
    hide Reachable;
    CalmFacts(s, i);
    var h, id := s.sh, s.sh.ctl.id;
    assert h.io.sendIo[k] in h.io.sendIo;
    var h1 := h.(io := h.io.(sendIo := Without(h.io.sendIo, k)), snd := h.snd.(failed := h.snd.failed || false));
    var h2 := h1.(tok := h1.tok.(freed := h1.tok.freed + multiset(h1.snd.sendBuffer)),
                  snd := h1.snd.(packetCnt := 0, sendBuffer := []));
    var h3 := h2.(snd := h2.snd.(sendFlag := false));
    Starts(s, i, SendDone(k, false), n + 2, h1, Thread(Post(FreeSent), id));
    Goes(s, i, h1, Thread(Post(FreeSent), id), h2, Thread(Post(ClearFlag), id), n + 2);
    Goes(s, i, h2, Thread(Post(ClearFlag), id), h3, Thread(Post(PostRef), id), n + 1);
  }

  /** With nothing queued it sends nothing, and leaves SendFlag clear. */
  lemma SendDoneIdle(s: State, i: nat, k: nat)
    requires Calm(s, i) && k < |s.sh.io.sendIo| && s.sh.snd.sendQ == [] && s.sh.ctl.refCnt > 1
    ensures var h := Completed(s.sh, k);
      Alone(s, i, [SendDone(k, false)] + Gos(10)) ==
      At(s, i, h.(ctl := h.ctl.(refCnt := h.ctl.refCnt - 1)), Thread(Idle, h.ctl.id))
  {
    hide Reachable;
    CalmFacts(s, i);
    CompletesAlone(s, i, k, 8);
    NothingToSend(s, i, Completed(s.sh, k), s.sh.ctl.id);
  }

  lemma NothingToSend(s: State, i: nat, h: Shared, inc: nat)
    requires i < |s.threads| && h.ctl.useFlag && h.ctl.refCnt > 1 && !h.snd.sendFlag && h.snd.size == 0
    ensures Alone(At(s, i, h, Thread(Post(PostRef), inc)), i, Gos(8)) ==
            At(s, i, h.(ctl := h.ctl.(refCnt := h.ctl.refCnt - 1)), Thread(Idle, inc))
  {
    var h1 := h.(ctl := h.ctl.(refCnt := h.ctl.refCnt + 1));
    LooksAgain(s, i, h, inc);
    Goes(s, i, h1, Thread(Turn(PostRecheck), inc), h1, Thread(Post(PostUndo), inc), 3);
    Goes(s, i, h1, Thread(Post(PostUndo), inc), h, Thread(Release(Drop), inc), 2);
    var h2 := h.(ctl := h.ctl.(refCnt := h.ctl.refCnt - 1));
    Goes(s, i, h, Thread(Release(Drop), inc), h2, Thread(Idle, inc), 1);
    Stops(At(s, i, h2, Thread(Idle, inc)), i);
  }

  lemma LooksAgain(s: State, i: nat, h: Shared, inc: nat)
    requires i < |s.threads| && h.ctl.useFlag && !h.snd.sendFlag && h.snd.size == 0
    ensures var h1 := h.(ctl := h.ctl.(refCnt := h.ctl.refCnt + 1));
      Alone(At(s, i, h, Thread(Post(PostRef), inc)), i, Gos(8)) ==
      Alone(At(s, i, h1, Thread(Turn(PostRecheck), inc)), i, Gos(3))
  {
    var h1 := h.(ctl := h.ctl.(refCnt := h.ctl.refCnt + 1));
    Goes(s, i, h, Thread(Post(PostRef), inc), h1, Thread(Post(PostUse), inc), 8);
    Goes(s, i, h1, Thread(Post(PostUse), inc), h1, Thread(Post(PostXchg), inc), 7);
    FindsNothing(s, i, h1, inc);
  }

  lemma FindsNothing(s: State, i: nat, h: Shared, inc: nat)
    requires i < |s.threads| && !h.snd.sendFlag && h.snd.size == 0
    ensures Alone(At(s, i, h, Thread(Post(PostXchg), inc)), i, Gos(6)) ==
            Alone(At(s, i, h, Thread(Turn(PostRecheck), inc)), i, Gos(3))
  {
    var h1 := h.(snd := h.snd.(sendFlag := true));
    Goes(s, i, h, Thread(Post(PostXchg), inc), h1, Thread(Turn(PostSize), inc), 6);
    Goes(s, i, h1, Thread(Turn(PostSize), inc), h1, Thread(Turn(PostClear), inc), 5);
    Goes(s, i, h1, Thread(Turn(PostClear), inc), h, Thread(Turn(PostRecheck), inc), 4);
  }

  function Heard(id: nat, n: nat): (r: seq<Event>)
    ensures |r| == n
  {
    seq(n, _ => Received(id))
  }

  lemma {:induction false} DeliversAlone(s: State, i: nat, h: Shared, inc: nat, n: nat)
    requires i < |s.threads|
    ensures Alone(At(s, i, h, Thread(Recv(Deliver), inc)), i, Gos(n)) ==
            At(s, i, h.(log := h.log + Heard(h.ctl.id, n)), Thread(Recv(Deliver), inc))
    decreases n
  {
    if n == 0 {
      assert h.log + Heard(h.ctl.id, 0) == h.log;
      Stops(At(s, i, h, Thread(Recv(Deliver), inc)), i);
    } else {
      var h' := h.(log := h.log + [Received(h.ctl.id)]);
      Goes(s, i, h, Thread(Recv(Deliver), inc), h', Thread(Recv(Deliver), inc), n);
      DeliversAlone(s, i, h', inc, n - 1);
      assert h'.log + Heard(h.ctl.id, n - 1) == h.log + Heard(h.ctl.id, n);
    }
  }

  /** A receive that completes: OnRecv once for each message in it, and then the next receive is posted. */
  lemma RecvDoneAlone(s: State, i: nat, k: nat, n: nat)
    requires Calm(s, i) && k < |s.sh.io.recvIo|
    ensures var h, id := s.sh, s.sh.ctl.id;
      Alone(s, i, [RecvDone(k, false)] + Gos(n) + [Refuse] + Gos(4)) ==
      At(s, i, h.(io := h.io.(recvIo := Without(h.io.recvIo, k) + [id]), log := h.log + Heard(id, n)),
         Thread(Idle, id))
  {
    hide Reachable;
    CalmFacts(s, i);
    var h, id := s.sh, s.sh.ctl.id;
    assert h.io.recvIo[k] in h.io.recvIo;
    var h1 := h.(io := h.io.(recvIo := Without(h.io.recvIo, k)), ended := h.ended || false);
    var h2 := h1.(log := h1.log + Heard(id, n));
    Starts(s, i, RecvDone(k, false), n, h1, Thread(Recv(Deliver), id));
    DeliversAlone(s, i, h1, id, n);
    AloneSplit(s, i, [RecvDone(k, false)] + Gos(n), [Refuse] + Gos(4));
    assert [RecvDone(k, false)] + Gos(n) + [Refuse] + Gos(4) == ([RecvDone(k, false)] + Gos(n)) + ([Refuse] + Gos(4));
    NextReceive(s, i, h2, id);
  }

  lemma NextReceive(s: State, i: nat, h: Shared, id: nat)
    requires i < |s.threads| && h.ctl.useFlag && h.ctl.refCnt > 0
    ensures Alone(At(s, i, h, Thread(Recv(Deliver), id)), i, [Refuse] + Gos(4)) ==
            At(s, i, h.(io := h.io.(recvIo := h.io.recvIo + [id])), Thread(Idle, id))
  {
    var s0 := At(s, i, h, Thread(Recv(Deliver), id));
    Starts(s0, i, Refuse, 4, h, Thread(Recv(RecvUse), id));
    assert At(s0, i, h, Thread(Recv(RecvUse), id)) == At(s, i, h, Thread(Recv(RecvUse), id));
    PostsReceive(s, i, h, id);
  }

  // ---- a connection ----

  // The slot as InitSession leaves it.
  function Opened(h: Shared, id: nat): Shared
    requires h.ctl.freeSlots > 0
  {
    h.(ctl := h.ctl.(useFlag := true, released := false, refCnt := h.ctl.refCnt + 1, id := id, lastId := id,
                     freeSlots := h.ctl.freeSlots - 1),
       snd := h.snd.(sendFlag := false, packetCnt := 0, failed := false, linked := [], passed := []), ended := false)
  }

  lemma OpensAlone(s: State, i: nat, id: nat, n: nat)
    requires i < |s.threads| && s.threads[i].pc == Idle && s.sh.ctl.freeSlots > 0 && id > s.sh.ctl.lastId
    requires s.sh.ctl.id == 0 && s.sh.snd.sendQ == [] && s.sh.snd.size == 0
    ensures Alone(s, i, [Accept(id)] + Gos(n + 5)) ==
            Alone(At(s, i, Opened(s.sh, id), Thread(Init(Join), id)), i, Gos(n))
  {
    hide MoveOf;
    var h, inc := s.sh, s.threads[i].inc;
    var h1 := h.(ctl := h.ctl.(freeSlots := h.ctl.freeSlots - 1, lastId := id));
    var h2 := h1.(ctl := h1.ctl.(useFlag := true));
    assert MoveOf(h, s.threads[i], Accept(id)) == Move(h1, Thread(Init(InitUse(id)), inc)) by {
      Accepts(h, s.threads[i], id);
    }
    Starts(s, i, Accept(id), n + 5, h1, Thread(Init(InitUse(id)), inc));
    NamesAlone(s, i, h1, inc, id, n + 3);
    SetsUp(s, i, h2.(ctl := h2.ctl.(id := id)), id, n);
  }

  lemma Accepts(h: Shared, t: Thread, id: nat)
    requires t.pc == Idle && h.ctl.freeSlots > 0 && id > h.ctl.lastId
    ensures MoveOf(h, t, Accept(id)) ==
            Move(h.(ctl := h.ctl.(freeSlots := h.ctl.freeSlots - 1, lastId := id)), Thread(Init(InitUse(id)), t.inc))
  {
  }

  lemma NamesAlone(s: State, i: nat, h: Shared, inc: nat, id: nat, n: nat)
    requires i < |s.threads| && h.ctl.id == 0
    ensures var h' := h.(ctl := h.ctl.(useFlag := true, id := id));
      Alone(At(s, i, h, Thread(Init(InitUse(id)), inc)), i, Gos(n + 2)) ==
      Alone(At(s, i, h', Thread(Init(InitSend), id)), i, Gos(n))
  {
    var h1 := h.(ctl := h.ctl.(useFlag := true));
    var h2 := h1.(ctl := h1.ctl.(id := id));
    Goes(s, i, h, Thread(Init(InitUse(id)), inc), h1, Thread(Init(InitId(id)), inc), n + 2);
    Goes(s, i, h1, Thread(Init(InitId(id)), inc), h2, Thread(Init(InitSend), id), n + 1);
  }

  lemma SetsUp(s: State, i: nat, h: Shared, id: nat, n: nat)
    requires i < |s.threads| && h.snd.sendQ == [] && h.snd.size == 0
    ensures var h' := h.(ctl := h.ctl.(released := false, refCnt := h.ctl.refCnt + 1),
                         snd := h.snd.(sendFlag := false, packetCnt := 0, failed := false, linked := [], passed := []),
                         ended := false);
      Alone(At(s, i, h, Thread(Init(InitSend), id)), i, Gos(n + 3)) ==
      Alone(At(s, i, h', Thread(Init(Join), id)), i, Gos(n))
  {
    var h1 := h.(snd := h.snd.(sendFlag := false, packetCnt := 0, failed := false, linked := [], passed := []),
                 ended := false);
    var h2 := h1.(ctl := h1.ctl.(refCnt := h1.ctl.refCnt + 1));
    var h3 := h2.(ctl := h2.ctl.(released := false));
    Goes(s, i, h, Thread(Init(InitSend), id), h1, Thread(Init(InitRef), id), n + 3);
    Goes(s, i, h1, Thread(Init(InitRef), id), h2, Thread(Init(InitRelease), id), n + 2);
    Goes(s, i, h2, Thread(Init(InitRelease), id), h3, Thread(Init(Join), id), n + 1);
  }

  /** A connection takes the free slot: it is in use and live under the new ID, OnClientJoin has been
      called, and one receive is pending. */
  lemma AcceptAlone(s: State, i: nat, id: nat)
    requires Reachable(s) && i < |s.threads| && (forall j: nat :: j < |s.threads| ==> s.threads[j].pc == Idle)
    requires s.sh.ctl.freeSlots > 0 && id > s.sh.ctl.lastId
    ensures var h := Opened(s.sh, id);
      Alone(s, i, [Accept(id)] + Gos(10)) ==
      At(s, i, h.(log := h.log + [Joined(id)], io := h.io.(recvIo := h.io.recvIo + [id])), Thread(Idle, id))
  {
    hide Reachable, MoveOf, Opened;
    FreeAtMostOnce(s);
    FreeIsEmpty(s);
    OpensAlone(s, i, id, 5);
    OpenedIs(s.sh, id);
    JoinsAlone(s, i, Opened(s.sh, id), id);
  }

  lemma FreeIsEmpty(s: State)
    requires Reachable(s) && (forall j: nat :: j < |s.threads| ==> s.threads[j].pc == Idle) && s.sh.ctl.freeSlots > 0
    ensures s.sh.ctl.refCnt == 0 && s.sh.snd.size == 0
  {
    ReachableInv(s);
    TotalNothing(s.threads);
  }

  lemma OpenedIs(h: Shared, id: nat)
    requires h.ctl.freeSlots > 0
    ensures var o := Opened(h, id); o.ctl.useFlag && o.ctl.id == id && o.ctl.refCnt == h.ctl.refCnt + 1
  {
  }

  lemma JoinsAlone(s: State, i: nat, h: Shared, id: nat)
    requires i < |s.threads| && h.ctl.useFlag && h.ctl.id == id && h.ctl.refCnt > 0
    ensures Alone(At(s, i, h, Thread(Init(Join), id)), i, Gos(5)) ==
            At(s, i, h.(log := h.log + [Joined(id)], io := h.io.(recvIo := h.io.recvIo + [id])), Thread(Idle, id))
  {
    var h1 := h.(log := h.log + [Joined(id)]);
    Goes(s, i, h, Thread(Init(Join), id), h1, Thread(Recv(RecvUse), id), 5);
    PostsReceive(s, i, h1, id);
  }

  lemma PostsReceive(s: State, i: nat, h: Shared, id: nat)
    requires i < |s.threads| && h.ctl.useFlag && h.ctl.refCnt > 0
    ensures Alone(At(s, i, h, Thread(Recv(RecvUse), id)), i, Gos(4)) ==
            At(s, i, h.(io := h.io.(recvIo := h.io.recvIo + [id])), Thread(Idle, id))
  {
    var h1 := h.(ctl := h.ctl.(refCnt := h.ctl.refCnt + 1));
    var h2 := h1.(io := h1.io.(recvIo := h1.io.recvIo + [id]));
    var h3 := h2.(ctl := h2.ctl.(refCnt := h2.ctl.refCnt - 1));
    Goes(s, i, h, Thread(Recv(RecvUse), id), h, Thread(Recv(RecvRef), id), 4);
    Goes(s, i, h, Thread(Recv(RecvRef), id), h1, Thread(Recv(RecvIo), id), 3);
    Goes(s, i, h1, Thread(Recv(RecvIo), id), h2, Thread(Release(Drop), id), 2);
    Goes(s, i, h2, Thread(Release(Drop), id), h3, Thread(Idle, id), 1);
    Stops(At(s, i, h3, Thread(Idle, id)), i);
  }
}
