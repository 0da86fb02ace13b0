/** What one call of SendPacket or KillSession does, from its start to its return, whatever the
    other threads do meanwhile. */
module SessionCalls {
  import opened Session
  import opened SessionInvariant
  import opened SessionTheorems

  /** A run and the moves that made it: move k is of thread moves[k].who. */
  datatype Played = Played(who: nat, what: Choice)

  ghost predicate Plays(run: seq<State>, moves: seq<Played>) {
    && |run| == |moves| + 1
    && Start(run[0])
    && forall k: nat :: k < |moves| ==>
         moves[k].who < |run[k].threads| && run[k + 1] == Step(run[k], moves[k].who, moves[k].what)
  }

  lemma PlaysRun(run: seq<State>, moves: seq<Played>)
    requires Plays(run, moves)
    ensures Run(run)
  {
    hide Step, Start;
    forall k: nat | k + 1 < |run| ensures Next(run[k], run[k + 1]) {
      assert run[k + 1] == Step(run[k], moves[k].who, moves[k].what);
    }
  }

  lemma PlaysInv(run: seq<State>, moves: seq<Played>, k: nat)
    requires Plays(run, moves) && k < |run|
    ensures Inv(run[k])
  {
    PlaysRun(run, moves);
    RunInv(run, k);
  }

  // ---- what one step does to shared memory, seen from outside ----

  /** RefCnt changes; a reference is taken, linked at the end of SendQ, Size raised, a notification
      posted; or something else changes. */
  datatype Access = Ref(d: int) | Take(token: nat) | Link(token: nat) | Raise | Note(id: nat) | Other

  predicate Links(h: Shared, h': Shared) {
    h'.snd.sendQ != [] &&
    var x := h'.snd.sendQ[|h'.snd.sendQ| - 1];
    h' == h.(snd := h.snd.(sendQ := h.snd.sendQ + [x], linked := h.snd.linked + [x]))
  }

  predicate Notes(h: Shared, h': Shared) {
    h'.io.notes != [] && h' == h.(io := h.io.(notes := h.io.notes + [h'.io.notes[|h'.io.notes| - 1]]))
  }

  function Did(h: Shared, h': Shared): seq<Access> {
    if h' == h then []
    else if h' == h.(ctl := h.ctl.(refCnt := h'.ctl.refCnt)) then [Ref(h'.ctl.refCnt - h.ctl.refCnt)]
    else if h' == h.(tok := h.tok.(taken := h.tok.taken + 1)) then [Take(h.tok.taken)]
    else if Links(h, h') then [Link(h'.snd.sendQ[|h'.snd.sendQ| - 1])]
    else if h' == h.(snd := h.snd.(size := h.snd.size + 1)) then [Raise]
    else if Notes(h, h') then [Note(h'.io.notes[|h'.io.notes| - 1])]
    else [Other]
  }

  // What thread i does in moves a to b.
  function DidBy(run: seq<State>, moves: seq<Played>, i: nat, a: nat, b: nat): seq<Access>
    requires a <= b <= |moves| < |run|
    decreases b
  {
    if a == b then []
    else DidBy(run, moves, i, a, b - 1) + (if moves[b - 1].who == i then Did(run[b - 1].sh, run[b].sh) else [])
  }

  // A move of thread i in moves a to b found the slot live and then under the ID `id`.
  ghost predicate Passed(run: seq<State>, moves: seq<Played>, i: nat, a: nat, b: nat, id: nat)
    requires a <= b <= |moves| < |run|
  {
    exists k: nat :: a <= k < b && moves[k].who == i && AtCheck(run[k], i) && run[k].sh.ctl.id == id
  }

  predicate AtCheck(s: State, i: nat) {
    i < |s.threads| && s.threads[i].pc.Caller? && s.threads[i].pc.caller.CallId?
  }

  // A move of thread i in moves a to b came when the slot was released or had another ID.
  ghost predicate Missed(run: seq<State>, moves: seq<Played>, i: nat, a: nat, b: nat, id: nat)
    requires a <= b <= |moves| < |run|
  {
    exists k: nat :: a < k < b && moves[k].who == i && (run[k].sh.ctl.released || run[k].sh.ctl.id != id)
  }

  // Thread i starts its call with move a; the call ends with move b - 1.
  ghost predicate Call(run: seq<State>, moves: seq<Played>, i: nat, a: nat, b: nat, call: Session.Call, id: nat) {
    && Plays(run, moves) && a < b <= |moves| && moves[a] == Played(i, Enter(call, id))
    && i < |run[a].threads| && run[a].threads[i].pc.Idle?
    && i < |run[b].threads| && run[b].threads[i].pc.Idle?
    && forall k: nat :: a < k < b ==> i < |run[k].threads| && !run[k].threads[i].pc.Idle?
  }

  // ---- SendPacket ----

  /** The accesses of a SendPacket that queues reference x. */
  function Queues(x: nat, id: nat): seq<Access> {
    [Ref(1), Take(x), Link(x), Raise, Note(id)]
  }

  // The first n of them, n > 1 fixing the reference.
  predicate Upto(acc: seq<Access>, id: nat, n: nat)
    requires 0 < n <= 5
  {
    |acc| == n && (n > 1 ==> acc[1].Take?) && acc == Queues(if n > 1 then acc[1].token else 0, id)[..n]
  }

  // Where a SendPacket stands, given what it has done so far.
  predicate Sending(t: Thread, id: nat, passed: bool, missed: bool, acc: seq<Access>) {
    t.pc.Caller? && match t.pc.caller
      case CallFlag(call, arg) => call.Send? && arg == id && !passed && Upto(acc, id, 1)
      case CallId(call, arg) => call.Send? && arg == id && !passed && Upto(acc, id, 1)
      case CallUndo => !passed && missed && Upto(acc, id, 1)
      case SendTake(arg) => arg == id && passed && Upto(acc, id, 1)
      case SendLink(arg, x) => arg == id && passed && Upto(acc, id, 2) && acc[1].token == x
      case SendSize(arg) => arg == id && passed && Upto(acc, id, 3)
      case SendNotify(arg) => arg == id && passed && Upto(acc, id, 4)
      case KillUse(_) => false
  }

  // How it has ended.
  predicate SendEnds(id: nat, passed: bool, missed: bool, acc: seq<Access>) {
    if passed then Upto(acc, id, 5) else missed && acc == [Ref(1), Ref(-1)]
  }

  lemma SendingMove(h: Shared, t: Thread, id: nat, passed: bool, missed: bool, acc: seq<Access>)
    requires Sending(t, id, passed, missed, acc) && ThreadOk(h, t)
    ensures var m, acc' := CallMove(h, t), acc + Did(h, CallMove(h, t).sh);
      var passed' := passed || (t.pc.caller.CallId? && h.ctl.id == id);
      var missed' := missed || h.ctl.released || h.ctl.id != id;
      Sending(m.t, id, passed', missed', acc') || (m.t.pc.Idle? && SendEnds(id, passed', missed', acc'))
  {
  }

  // One more move.
  lemma PassedMore(run: seq<State>, moves: seq<Played>, i: nat, a: nat, k: nat, id: nat)
    requires a < k < |moves| < |run|
    ensures Passed(run, moves, i, a, k + 1, id) <==>
            Passed(run, moves, i, a, k, id) || (moves[k].who == i && AtCheck(run[k], i) && run[k].sh.ctl.id == id)
    ensures Missed(run, moves, i, a, k + 1, id) <==>
            Missed(run, moves, i, a, k, id) ||
            (moves[k].who == i && (run[k].sh.ctl.released || run[k].sh.ctl.id != id))
  {
  }

  // The call after move k - 1.
  ghost predicate SendAt(run: seq<State>, moves: seq<Played>, i: nat, a: nat, k: nat, id: nat)
    requires a <= k <= |moves| < |run|
  {
    i < |run[k].threads| &&
    var t, acc := run[k].threads[i], DidBy(run, moves, i, a, k);
    var passed, missed := Passed(run, moves, i, a, k, id), Missed(run, moves, i, a, k, id);
    Sending(t, id, passed, missed, acc) || (t.pc.Idle? && SendEnds(id, passed, missed, acc))
  }

  lemma OneMove(run: seq<State>, moves: seq<Played>, i: nat, a: nat, k: nat)
    requires Plays(run, moves) && a <= k < |moves| && i < |run[k].threads|
    ensures Inv(run[k]) && ThreadOk(run[k].sh, run[k].threads[i])
    ensures |run[k + 1].threads| == |run[k].threads|
    ensures DidBy(run, moves, i, a, k + 1) ==
            DidBy(run, moves, i, a, k) + (if moves[k].who == i then Did(run[k].sh, run[k + 1].sh) else [])
    ensures moves[k].who == i ==>
            var m := MoveOf(run[k].sh, run[k].threads[i], moves[k].what);
            run[k + 1].sh == m.sh && run[k + 1].threads[i] == m.t
    ensures moves[k].who != i ==> run[k + 1].threads[i] == run[k].threads[i]
  {
    hide MoveOf, Start, Did;
    PlaysInv(run, moves, k);
    assert run[k + 1] == Step(run[k], moves[k].who, moves[k].what);
  }

  lemma SendNext(run: seq<State>, moves: seq<Played>, i: nat, a: nat, k: nat, id: nat)
    requires Plays(run, moves) && a < k < |moves| && SendAt(run, moves, i, a, k, id) && !run[k].threads[i].pc.Idle?
    ensures SendAt(run, moves, i, a, k + 1, id)
  {
    hide Step, Start, Inv, ThreadOk, Did, Upto, Passed, Missed;
    OneMove(run, moves, i, a, k);
    PassedMore(run, moves, i, a, k, id);
    var t, acc := run[k].threads[i], DidBy(run, moves, i, a, k);
    if moves[k].who == i {
      SendingMove(run[k].sh, t, id, Passed(run, moves, i, a, k, id), Missed(run, moves, i, a, k, id), acc);
    } else {
      assert acc + [] == acc;
    }
  }

  lemma FirstAccess(h: Shared, t: Thread, id: nat)
    requires t.pc.Idle?
    ensures var m := MoveOf(h, t, Enter(Send, id)); Sending(m.t, id, false, false, Did(h, m.sh))
  {
  }

  lemma SendFirst(run: seq<State>, moves: seq<Played>, i: nat, a: nat, id: nat)
    requires Plays(run, moves) && a < |moves| && moves[a] == Played(i, Enter(Send, id))
    requires i < |run[a].threads| && run[a].threads[i].pc.Idle?
    ensures SendAt(run, moves, i, a, a + 1, id)
  {
    hide Start, Inv, Upto;
    OneMove(run, moves, i, a, a);
    FirstAccess(run[a].sh, run[a].threads[i], id);
    var did := Did(run[a].sh, run[a + 1].sh);
    assert DidBy(run, moves, i, a, a) == [] && [] + did == did;
    assert !Passed(run, moves, i, a, a + 1, id) && !Missed(run, moves, i, a, a + 1, id);
  }

  lemma {:induction false} SendInProgress(run: seq<State>, moves: seq<Played>, i: nat, a: nat, b: nat, id: nat, k: nat)
    requires Call(run, moves, i, a, b, Send, id) && a < k <= b
    ensures SendAt(run, moves, i, a, k, id)
  {
    hide Start, Step, SendAt;
    if k == a + 1 {
      SendFirst(run, moves, i, a, id);
    } else {
      SendInProgress(run, moves, i, a, b, id, k - 1);
      SendNext(run, moves, i, a, k - 1, id);
    }
  }

  /** A call of SendPacket that has returned and got past the SessionID check took one reference, linked
      it at the end of SendQ, raised Size and posted one notification, in that order, once each, and
      changed nothing else in shared memory but the count it holds. One that did not get past it came
      when the slot was released or bore another ID, and has left nothing but a count that it took and
      gave back. */
  lemma SendPacketCall(run: seq<State>, moves: seq<Played>, i: nat, a: nat, b: nat, id: nat)
    requires Call(run, moves, i, a, b, Send, id)
    ensures var acc := DidBy(run, moves, i, a, b);
      if Passed(run, moves, i, a, b, id)
      then exists x: nat :: acc == [Ref(1), Take(x), Link(x), Raise, Note(id)]
      else Missed(run, moves, i, a, b, id) && acc == [Ref(1), Ref(-1)]
  {
    hide Start, Step, Passed, Missed, DidBy;
    SendInProgress(run, moves, i, a, b, id, b);
    var acc := DidBy(run, moves, i, a, b);
    if Passed(run, moves, i, a, b, id) {
      assert acc == Queues(acc[1].token, id);
    }
  }

  /** So SendPacket on a session that is live under the caller's ID for as long as the call lasts queues
      its packet. */
  lemma LiveSendQueues(run: seq<State>, moves: seq<Played>, i: nat, a: nat, b: nat, id: nat)
    requires Call(run, moves, i, a, b, Send, id)
    requires forall k: nat :: a < k < b ==> !run[k].sh.ctl.released && run[k].sh.ctl.id == id
    ensures exists x: nat :: DidBy(run, moves, i, a, b) == [Ref(1), Take(x), Link(x), Raise, Note(id)]
  {
    SendPacketCall(run, moves, i, a, b, id);
  }

  // ---- KillSession ----

  /** The session of that ID, while the slot is live and bears it, is not in use; and nobody is about to
      put the ID on the slot again. */
  ghost predicate Killed(s: State, id: nat) {
    && 0 < id <= s.sh.ctl.lastId
    && (s.sh.ctl.id == id && !s.sh.ctl.released ==> !s.sh.ctl.useFlag)
    && (forall j: nat :: j < |s.threads| ==> NotAgain(s.sh, s.threads[j].pc, id))
  }

  predicate NotAgain(h: Shared, pc: Pc, id: nat) {
    pc.Init? && pc != Init(Join) ==>
      h.ctl.id != id && (pc.init.InitUse? || pc.init.InitId? ==> pc.init.newId > id)
  }

  // The lifetime words after a step of a thread that is neither idle nor in InitSession.
  ghost predicate WindsOn(h: Shared, h': Shared) {
    && h'.ctl.lastId == h.ctl.lastId && (h'.ctl.id == h.ctl.id || h'.ctl.id == 0)
    && (h.ctl.released ==> h'.ctl.released) && (h'.ctl.useFlag ==> h.ctl.useFlag)
  }

  lemma WorkMove(h: Shared, t: Thread, c: Choice)
    requires t.pc.Recv? || t.pc.Post? || t.pc.Turn?
    ensures var m := MoveOf(h, t, c); WindsOn(h, m.sh) && !m.t.pc.Init?
  {
    match t.pc
    case Recv(_) => assert RecvMove(h, t, c) == MoveOf(h, t, c);
    case Post(_) => assert PostMove(h, t) == MoveOf(h, t, c);
    case Turn(_) => assert TurnMove(h, t, c) == MoveOf(h, t, c);
  }

  lemma EndMove(h: Shared, t: Thread, c: Choice)
    requires t.pc.Caller? || t.pc.Release? || t.pc == Crashed
    ensures var m := MoveOf(h, t, c); WindsOn(h, m.sh) && !m.t.pc.Init?
  {
    match t.pc
    case Caller(_) => assert CallMove(h, t) == MoveOf(h, t, c);
    case Release(_) => assert ReleaseMove(h, t) == MoveOf(h, t, c);
    case Crashed =>
  }

  lemma KilledMove(h: Shared, t: Thread, c: Choice, o: Totals, id: nat)
    requires CountInv(h, Plus(Holds(t.pc), o)) && IdInv(h) && ThreadOk(h, t)
    requires 0 < id <= h.ctl.lastId && (h.ctl.id == id && !h.ctl.released ==> !h.ctl.useFlag)
    requires NotAgain(h, t.pc, id)
    ensures var m := MoveOf(h, t, c);
      && id <= m.sh.ctl.lastId && (m.sh.ctl.id == id && !m.sh.ctl.released ==> !m.sh.ctl.useFlag)
      && NotAgain(m.sh, m.t.pc, id)
      && (m.sh.ctl.id == id ==> h.ctl.id == id)
  {
    hide CountInv, Holds, Replay, SendInv, QueueInv, ReleaseOk, MoveOf;
    match t.pc
    case Idle => KilledBegin(h, t, c, o, id);
    case Init(_) => KilledInit(h, t, c, id);
    case Caller(_) => EndMove(h, t, c);
    case Release(_) => EndMove(h, t, c);
    case Crashed => EndMove(h, t, c);
    case _ => WorkMove(h, t, c);
  }

  lemma KilledBegin(h: Shared, t: Thread, c: Choice, o: Totals, id: nat)
    requires t.pc.Idle? && CountInv(h, Plus(Holds(t.pc), o)) && IdInv(h) && 0 < id <= h.ctl.lastId
    ensures var m := MoveOf(h, t, c);
      && id <= m.sh.ctl.lastId && m.sh.ctl.id == h.ctl.id && m.sh.ctl.released == h.ctl.released
      && m.sh.ctl.useFlag == h.ctl.useFlag && NotAgain(m.sh, m.t.pc, id)
  {
  }

  lemma KilledInit(h: Shared, t: Thread, c: Choice, id: nat)
    requires t.pc.Init? && ThreadOk(h, t) && NotAgain(h, t.pc, id)
    requires 0 < id <= h.ctl.lastId && (h.ctl.id == id && !h.ctl.released ==> !h.ctl.useFlag)
    ensures var m := MoveOf(h, t, c);
      && id <= m.sh.ctl.lastId && (m.sh.ctl.id == id && !m.sh.ctl.released ==> !m.sh.ctl.useFlag)
      && NotAgain(m.sh, m.t.pc, id)
      && (m.sh.ctl.id == id ==> h.ctl.id == id)
  {
    hide Replay;
    assert InitMove(h, t) == MoveOf(h, t, c);
  }

  lemma KilledStep(s: State, i: nat, c: Choice, id: nat)
    requires Inv(s) && i < |s.threads| && Killed(s, id)
    ensures Killed(Step(s, i, c), id)
  {
    hide MoveOf, Total, Holds, TokenInv, RecvInv, SendInv, QueueInv, LogInv;
    SplitOff(s.threads, i);
    KilledMove(s.sh, s.threads[i], c, Others(s.threads, i), id);
    assert forall j: nat :: j < |s.threads| ==> NotAgain(s.sh, s.threads[j].pc, id);
  }

  // Where a KillSession stands.
  ghost predicate KillAt(run: seq<State>, moves: seq<Played>, i: nat, a: nat, k: nat, id: nat)
    requires a <= k <= |moves| < |run|
  {
    i < |run[k].threads| &&
    var pc, acc := run[k].threads[i].pc, DidBy(run, moves, i, a, k);
    if Passed(run, moves, i, a, k, id) then pc == Caller(KillUse(id)) || Killed(run[k], id)
    else Killing(pc, id, Missed(run, moves, i, a, k, id), acc)
  }

  // It has not passed the check.
  predicate Killing(pc: Pc, id: nat, missed: bool, acc: seq<Access>) {
    || ((pc == Caller(CallFlag(Kill, id)) || pc == Caller(CallId(Kill, id))) && acc == [Ref(1)])
    || (pc == Caller(CallUndo) && missed && acc == [Ref(1)])
    || (pc.Idle? && missed && acc == [Ref(1), Ref(-1)])
  }

  lemma KillingMove(h: Shared, t: Thread, id: nat, missed: bool, acc: seq<Access>)
    requires Killing(t.pc, id, missed, acc) && t.pc.Caller?
    ensures var m := CallMove(h, t);
      if t.pc.caller.CallId? && h.ctl.id == id then m.t.pc == Caller(KillUse(id))
      else Killing(m.t.pc, id, missed || h.ctl.released || h.ctl.id != id, acc + Did(h, m.sh))
  {
  }

  lemma NobodyOwns(s: State, j: nat)
    requires Inv(s) && !s.sh.ctl.released && j < |s.threads|
    ensures Holds(s.threads[j].pc).owns == 0
  {
    hide Holds;
    SplitOff(s.threads, j);
  }

  // The step that clears SessionUseFlag.
  lemma KillStrikes(s: State, i: nat, c: Choice, id: nat)
    requires Inv(s) && i < |s.threads| && s.threads[i].pc == Caller(KillUse(id))
    ensures Killed(Step(s, i, c), id)
  {
    hide Total, TokenInv, RecvInv, SendInv, QueueInv, LogInv;
    PinnedLive(s, i);
    assert ThreadOk(s.sh, s.threads[i]);
    var s' := Step(s, i, c);
    assert s'.sh == CallMove(s.sh, s.threads[i]).sh && s'.threads[i].pc == Release(Drop);
    forall j: nat | j < |s.threads| ensures NotAgain(s'.sh, s'.threads[j].pc, id) {
      NobodyOwns(s, j);
    }
  }

  lemma KillNext(run: seq<State>, moves: seq<Played>, i: nat, a: nat, k: nat, id: nat)
    requires Plays(run, moves) && a < k < |moves| && KillAt(run, moves, i, a, k, id) && !run[k].threads[i].pc.Idle?
    ensures KillAt(run, moves, i, a, k + 1, id)
  {
    hide Start, Step, Inv, ThreadOk, Did, Killed, Passed, Missed;
    OneMove(run, moves, i, a, k);
    PassedMore(run, moves, i, a, k, id);
    var t, acc := run[k].threads[i], DidBy(run, moves, i, a, k);
    assert run[k + 1] == Step(run[k], moves[k].who, moves[k].what);
    if Killed(run[k], id) {
      KilledStep(run[k], moves[k].who, moves[k].what, id);
    }
    if moves[k].who == i {
      if Passed(run, moves, i, a, k, id) {
        if t.pc == Caller(KillUse(id)) {
          KillStrikes(run[k], i, moves[k].what, id);
        }
      } else {
        KillingMove(run[k].sh, t, id, Missed(run, moves, i, a, k, id), acc);
      }
    } else {
      assert acc + [] == acc;
    }
  }

  lemma KillFirst(run: seq<State>, moves: seq<Played>, i: nat, a: nat, id: nat)
    requires Plays(run, moves) && a < |moves| && moves[a] == Played(i, Enter(Kill, id))
    requires i < |run[a].threads| && run[a].threads[i].pc.Idle?
    ensures KillAt(run, moves, i, a, a + 1, id)
  {
    hide Start, Inv, Killed;
    OneMove(run, moves, i, a, a);
    var did := Did(run[a].sh, run[a + 1].sh);
    assert DidBy(run, moves, i, a, a) == [] && [] + did == did;
    assert !Passed(run, moves, i, a, a + 1, id);
  }

  lemma {:induction false} KillInProgress(run: seq<State>, moves: seq<Played>, i: nat, a: nat, b: nat, id: nat, k: nat)
    requires Call(run, moves, i, a, b, Kill, id) && a < k <= b
    ensures KillAt(run, moves, i, a, k, id)
  {
    hide Start, Step, KillAt;
    if k == a + 1 {
      KillFirst(run, moves, i, a, id);
    } else {
      KillInProgress(run, moves, i, a, b, id, k - 1);
      KillNext(run, moves, i, a, k - 1, id);
    }
  }

  lemma {:induction false} StaysKilled(run: seq<State>, moves: seq<Played>, id: nat, b: nat, n: nat)
    requires Plays(run, moves) && b <= n < |run| && Killed(run[b], id)
    ensures Killed(run[n], id)
  {
    hide Start, Step, Killed, Inv;
    if b < n {
      StaysKilled(run, moves, id, b, n - 1);
      PlaysInv(run, moves, n - 1);
      KilledStep(run[n - 1], moves[n - 1].who, moves[n - 1].what, id);
      assert run[n - 1 + 1] == run[n];
    }
  }

  /** Once a call of KillSession that got past the SessionID check has returned, SessionUseFlag is
      FALSE in every later state in which the slot is live under that ID. A call that did not get past
      it came when the slot was released or bore another ID, and has left nothing but a count that it
      took and gave back. */
  lemma KillSessionCall(run: seq<State>, moves: seq<Played>, i: nat, a: nat, b: nat, id: nat, n: nat)
    requires Call(run, moves, i, a, b, Kill, id) && b <= n < |run|
    ensures if Passed(run, moves, i, a, b, id)
            then run[n].sh.ctl.id == id && !run[n].sh.ctl.released ==> !run[n].sh.ctl.useFlag
            else Missed(run, moves, i, a, b, id) && DidBy(run, moves, i, a, b) == [Ref(1), Ref(-1)]
  {
    hide Start, Step, Passed, Missed, DidBy;
    KillInProgress(run, moves, i, a, b, id, b);
    if Passed(run, moves, i, a, b, id) {
      StaysKilled(run, moves, id, b, n);
    }
  }

  /** So KillSession on a session that is live under the caller's ID for as long as the call lasts takes
      it out of use for good. */
  lemma LiveKillKills(run: seq<State>, moves: seq<Played>, i: nat, a: nat, b: nat, id: nat, n: nat)
    requires Call(run, moves, i, a, b, Kill, id) && b <= n < |run|
    requires forall k: nat :: a < k < b ==> !run[k].sh.ctl.released && run[k].sh.ctl.id == id
    ensures run[n].sh.ctl.id == id && !run[n].sh.ctl.released ==> !run[n].sh.ctl.useFlag
  {
    KillSessionCall(run, moves, i, a, b, id, n);
  }
}
