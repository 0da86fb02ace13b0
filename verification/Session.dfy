/** One session slot of NetServer as a step machine. Every step makes at most one access to
    memory that another thread can be at: where a step makes several, nobody else is at it
    (SessionTheorems.BundledIsPrivate). Any number of threads run; a callback that calls
    SendPacket or KillSession is represented by a further thread. */
module Session {
  datatype Call = Send | Kill

  // AcceptThread: InitSession, then OnClientJoin.
  datatype InitPc =
    | InitUse(newId: nat)
    | InitId(newId: nat)
    | InitSend                 // SendFlag, SendPacketCnt, SendQ.Clear
    | InitRef
    | InitRelease
    | Join

  // A recv completion with data, and RecvPost.
  datatype RecvPc = Deliver | RecvUse | RecvRef | RecvIo | RecvUndo

  // SendPacket and KillSession, with the session ID the caller passed.
  datatype CallPc =
    | CallFlag(call: Call, arg: nat)
    | CallId(call: Call, arg: nat)
    | CallUndo
    | SendTake(arg: nat)
    | SendLink(arg: nat, token: nat)
    | SendSize(arg: nat)
    | SendNotify(arg: nat)
    | KillUse(arg: nat)

  // A send completion; the count taken around SendPost; SendPost up to the exchange.
  datatype PostPc = FreeSent | ClearFlag | PostRef | PostUse | PostXchg | PostUndo

  // SendPost past the exchange.
  datatype TurnPc = PostSize | PostClear | PostRecheck | PostDequeue(left: nat) | PostCnt | PostIo

  // The final decrement, DisconnectSession, ReleaseSession.
  datatype ReleasePc = Drop | Cas | Leave | ReleaseId | Drain | FreeBuffer | ReleasePush

  /** Where a thread stands: the access it makes next. Crashed is Logger::Crash, or an access
      the model gives no meaning to. */
  datatype Pc =
    | Idle
    | Init(init: InitPc)
    | Recv(recv: RecvPc)
    | Caller(caller: CallPc)
    | Post(post: PostPc)
    | Turn(turn: TurnPc)
    | Release(rel: ReleasePc)
    | Crashed

  /** `inc` is the session ID of the incarnation the thread is working for. */
  datatype Thread = Thread(pc: Pc, inc: nat)

  datatype Event = Joined(id: nat) | Received(id: nat) | Left(id: nat)

  /** The lifetime words of the slot. IDs are the 48-bit counter part of SessionID, 0 when
      masked off. */
  datatype Control = Control(
    useFlag: bool,
    released: bool,        // ReleaseArr[0]
    refCnt: int,           // ReleaseArr[1]
    id: nat,               // SessionID
    lastId: nat,           // the largest SessionID generated so far
    freeSlots: nat,        // occurrences of this slot in FreeSessionStack
    kills: set<nat>        // IDs for which KillSession cleared SessionUseFlag
  )

  /** Pending completions and queued notifications; an entry is the incarnation that issued it. */
  datatype Pending = Pending(recvIo: seq<nat>, sendIo: seq<nat>, notes: seq<nat>)

  /** The send side. `failed`, `linked` and `passed` record the incarnation's history: a send was
      refused or completed with 0 bytes; the references linked; those handed to WSASend. */
  datatype Sender = Sender(
    sendFlag: bool,
    sendQ: seq<nat>,       // packet references linked in SendQ
    size: int,             // SendQ.Size, which lags behind the links
    sendBuffer: seq<nat>,  // the entries of SendBuffer written since it was last emptied
    packetCnt: nat,        // SendPacketCnt
    failed: bool,
    linked: seq<nat>,
    passed: seq<nat>
  )

  /** Packet references: SendPacket takes 0, 1, 2, ...; FreePacket gives them back. */
  datatype Tokens = Tokens(taken: nat, freed: multiset<nat>)

  /** What the threads share; `log` records the callbacks made, in order, `ended` that a receive of
      the incarnation was refused or completed with 0 bytes. */
  datatype Shared = Shared(ctl: Control, io: Pending, snd: Sender, tok: Tokens, log: seq<Event>, ended: bool)

  datatype State = State(sh: Shared, threads: seq<Thread>)

  /** One step of one thread: the memory it leaves and where it stands then. */
  datatype Move = Move(sh: Shared, t: Thread)

  /** What the environment and the scheduler decide. */
  datatype Choice =
    | Go                            // an I/O call is accepted; a loop goes on
    | Refuse                        // an I/O call fails; the receive loop ends
    | Accept(newId: nat)            // a connection arrives; GenerateSessionID yields newId
    | Enter(call: Call, arg: nat)
    | RecvDone(k: nat, zero: bool)
    | SendDone(k: nat, zero: bool)
    | Notified(k: nat)

  ghost predicate Start(s: State) {
    && s.sh.ctl.released && s.sh.ctl.refCnt == 0 && s.sh.ctl.id == 0 && s.sh.ctl.lastId == 0
    && s.sh.ctl.freeSlots == 1 && s.sh.ctl.kills == {}
    && s.sh.io == Pending([], [], [])
    && s.sh.snd.sendQ == [] && s.sh.snd.size == 0 && s.sh.snd.sendBuffer == []
    && s.sh.tok == Tokens(0, multiset{}) && s.sh.log == [] && !s.sh.ended
    && forall j: nat :: j < |s.threads| ==> s.threads[j].pc == Idle
  }

  function Without(io: seq<nat>, k: nat): seq<nat>
    requires k < |io|
  {
    io[..k] + io[k + 1..]
  }

  // ReleaseArr[1] moves by d and the thread goes on at pc.
  function Count(h: Shared, t: Thread, d: int, pc: Pc): Move {
    Move(h.(ctl := h.ctl.(refCnt := h.ctl.refCnt + d)), t.(pc := pc))
  }

  // An idle thread picks up work: accept, a call from outside, or a completion.
  function BeginMove(h: Shared, t: Thread, c: Choice): Move
  {
    match c
    case Accept(newId) =>
      if h.ctl.freeSlots == 0 || newId <= h.ctl.lastId then Move(h, t)
      else Move(h.(ctl := h.ctl.(freeSlots := h.ctl.freeSlots - 1, lastId := newId)), t.(pc := Init(InitUse(newId))))
    case Enter(call, arg) => Count(h, t, 1, Caller(CallFlag(call, arg)))
    case RecvDone(k, zero) =>
      if k >= |h.io.recvIo| then Move(h, t)
      else Move(h.(io := h.io.(recvIo := Without(h.io.recvIo, k)), ended := h.ended || zero),
                Thread(if zero then Release(Drop) else Recv(Deliver), h.io.recvIo[k]))
    case SendDone(k, zero) =>
      if k >= |h.io.sendIo| then Move(h, t)
      else Move(h.(io := h.io.(sendIo := Without(h.io.sendIo, k)), snd := h.snd.(failed := h.snd.failed || zero)),
                Thread(if zero then Release(Drop) else Post(FreeSent), h.io.sendIo[k]))
    case Notified(k) =>
      if k >= |h.io.notes| then Move(h, t)
      else Move(h.(io := h.io.(notes := Without(h.io.notes, k))), Thread(Post(PostRef), h.io.notes[k]))
    case _ => Move(h, t)
  }

  function InitMove(h: Shared, t: Thread): Move
    requires t.pc.Init?
  {
    match t.pc.init
    case InitUse(newId) => Move(h.(ctl := h.ctl.(useFlag := true)), t.(pc := Init(InitId(newId))))
    case InitId(newId) =>
      // `|=` is an assignment only when the counter part has been masked off
      if h.ctl.id != 0 then Move(h, t.(pc := Crashed))
      else Move(h.(ctl := h.ctl.(id := newId)), Thread(Init(InitSend), newId))
    case InitSend =>
      // SendQ.Clear would lose references; it has to find nothing
      if h.snd.sendQ != [] || h.snd.size != 0 then Move(h, t.(pc := Crashed))
      else Move(h.(snd := h.snd.(sendFlag := false, packetCnt := 0, failed := false, linked := [], passed := []),
                   ended := false),
                t.(pc := Init(InitRef)))
    case InitRef => Count(h, t, 1, Init(InitRelease))
    case InitRelease => Move(h.(ctl := h.ctl.(released := false)), t.(pc := Init(Join)))
    case Join => Move(h.(log := h.log + [Joined(h.ctl.id)]), t.(pc := Recv(RecvUse)))
  }

  function RecvMove(h: Shared, t: Thread, c: Choice): Move
    requires t.pc.Recv?
  {
    match t.pc.recv
    case RecvUse => Move(h, t.(pc := if h.ctl.useFlag then Recv(RecvRef) else Release(Drop)))
    case RecvRef => Count(h, t, 1, Recv(RecvIo))
    case RecvIo =>
      if c == Refuse then Move(h.(ended := true), t.(pc := Recv(RecvUndo)))
      else Move(h.(io := h.io.(recvIo := h.io.recvIo + [t.inc])), t.(pc := Release(Drop)))
    case RecvUndo => Count(h, t, -1, Release(Drop))
    case Deliver =>
      if c == Refuse then Move(h, t.(pc := Recv(RecvUse)))
      else Move(h.(log := h.log + [Received(h.ctl.id)]), t.(pc := Recv(Deliver)))
  }

  function CallMove(h: Shared, t: Thread): Move
    requires t.pc.Caller?
  {
    match t.pc.caller
    case CallFlag(call, arg) =>
      if h.ctl.released then Move(h, t.(pc := Caller(CallUndo)))
      else Move(h, Thread(Caller(CallId(call, arg)), h.ctl.id))
    case CallId(call, arg) =>
      if h.ctl.id != arg then Move(h, t.(pc := Caller(CallUndo)))
      else Move(h, t.(pc := if call == Send then Caller(SendTake(arg)) else Caller(KillUse(arg))))
    case CallUndo => Count(h, t, -1, Idle)
    case SendTake(arg) =>
      Move(h.(tok := h.tok.(taken := h.tok.taken + 1)), t.(pc := Caller(SendLink(arg, h.tok.taken))))
    case SendLink(arg, token) =>
      Move(h.(snd := h.snd.(sendQ := h.snd.sendQ + [token], linked := h.snd.linked + [token])),
           t.(pc := Caller(SendSize(arg))))
    case SendSize(arg) => Move(h.(snd := h.snd.(size := h.snd.size + 1)), t.(pc := Caller(SendNotify(arg))))
    case SendNotify(arg) => Move(h.(io := h.io.(notes := h.io.notes + [t.inc])), t.(pc := Idle))
    case KillUse(arg) =>
      Move(h.(ctl := h.ctl.(useFlag := false, kills := h.ctl.kills + {arg})), t.(pc := Release(Drop)))
  }

  function PostMove(h: Shared, t: Thread): Move
    requires t.pc.Post?
  {
    match t.pc.post
    case FreeSent =>
      // the loop that frees SendBuffer[0..SendPacketCnt], then SendPacketCnt = 0
      if h.snd.packetCnt != |h.snd.sendBuffer| then Move(h, t.(pc := Crashed))
      else Move(h.(tok := h.tok.(freed := h.tok.freed + multiset(h.snd.sendBuffer)),
                   snd := h.snd.(packetCnt := 0, sendBuffer := [])), t.(pc := Post(ClearFlag)))
    case ClearFlag => Move(h.(snd := h.snd.(sendFlag := false)), t.(pc := Post(PostRef)))
    case PostRef => Count(h, t, 1, Post(PostUse))
    case PostUse => Move(h, t.(pc := if h.ctl.useFlag then Post(PostXchg) else Post(PostUndo)))
    case PostXchg =>
      Move(h.(snd := h.snd.(sendFlag := true)), t.(pc := if h.snd.sendFlag then Post(PostUndo) else Turn(PostSize)))
    case PostUndo => Count(h, t, -1, Release(Drop))
  }

  function TurnMove(h: Shared, t: Thread, c: Choice): Move
    requires t.pc.Turn?
  {
    match t.pc.turn
    case PostSize =>
      Move(h, t.(pc := if h.snd.size == 0 then Turn(PostClear)
                       else if h.snd.size < 0 then Crashed
                       else Turn(PostDequeue(h.snd.size))))
    case PostClear => Move(h.(snd := h.snd.(sendFlag := false)), t.(pc := Turn(PostRecheck)))
    case PostRecheck => Move(h, t.(pc := if h.snd.size != 0 then Post(PostXchg) else Post(PostUndo)))
    case PostDequeue(left) =>
      if left == 0 then Move(h, t.(pc := Turn(PostCnt)))
      else if h.snd.size <= 0 || h.snd.sendQ == [] then Move(h, t.(pc := Crashed))   // "Dequeue Failed"
      else Move(h.(snd := h.snd.(size := h.snd.size - 1, sendQ := h.snd.sendQ[1..],
                                 sendBuffer := h.snd.sendBuffer + [h.snd.sendQ[0]])),
                t.(pc := Turn(PostDequeue(left - 1))))
    case PostCnt => Move(h.(snd := h.snd.(packetCnt := |h.snd.sendBuffer|)), t.(pc := Turn(PostIo)))
    case PostIo =>
      var snd := h.snd.(passed := h.snd.passed + h.snd.sendBuffer, failed := c == Refuse);
      if c == Refuse then Move(h.(snd := snd), t.(pc := Post(PostUndo)))
      else Move(h.(snd := snd, io := h.io.(sendIo := h.io.sendIo + [t.inc])), t.(pc := Release(Drop)))
  }

  function ReleaseMove(h: Shared, t: Thread): Move
    requires t.pc.Release?
  {
    match t.pc.rel
    case Drop => Count(h, t, -1, if h.ctl.refCnt - 1 == 0 then Release(Cas) else Idle)
    case Cas =>
      // InterlockedCompareExchange128: (FALSE, 0) becomes (TRUE, 0)
      if !h.ctl.released && h.ctl.refCnt == 0
      then Move(h.(ctl := h.ctl.(released := true)), Thread(Release(Leave), h.ctl.id))
      else Move(h, t.(pc := Idle))
    case Leave => Move(h.(log := h.log + [Left(h.ctl.id)]), t.(pc := Release(ReleaseId)))
    case ReleaseId => Move(h.(ctl := h.ctl.(id := 0)), t.(pc := Release(Drain)))
    case Drain =>
      if h.snd.size <= 0 then Move(h, t.(pc := Release(FreeBuffer)))
      else if h.snd.sendQ == [] then Move(h, t.(pc := Crashed))
      else Move(h.(snd := h.snd.(size := h.snd.size - 1, sendQ := h.snd.sendQ[1..]),
                   tok := h.tok.(freed := h.tok.freed + multiset{h.snd.sendQ[0]})), t.(pc := Release(Drain)))
    case FreeBuffer =>
      if h.snd.packetCnt != |h.snd.sendBuffer| then Move(h, t.(pc := Crashed))
      else Move(h.(tok := h.tok.(freed := h.tok.freed + multiset(h.snd.sendBuffer)),
                   snd := h.snd.(packetCnt := 0, sendBuffer := [])), t.(pc := Release(ReleasePush)))
    case ReleasePush => Move(h.(ctl := h.ctl.(freeSlots := h.ctl.freeSlots + 1)), t.(pc := Idle))
  }

  function MoveOf(h: Shared, t: Thread, c: Choice): Move {
    match t.pc
    case Idle => BeginMove(h, t, c)
    case Init(_) => InitMove(h, t)
    case Recv(_) => RecvMove(h, t, c)
    case Caller(_) => CallMove(h, t)
    case Post(_) => PostMove(h, t)
    case Turn(_) => TurnMove(h, t, c)
    case Release(_) => ReleaseMove(h, t)
    case Crashed => Move(h, t)
  }

  /** Thread i takes its next step, resolving what is open by `c`. */
  function Step(s: State, i: nat, c: Choice): State
    requires i < |s.threads|
  {
    var m := MoveOf(s.sh, s.threads[i], c);
    State(m.sh, s.threads[i := m.t])
  }

  ghost predicate Next(s: State, s': State) {
    exists i: nat, c: Choice :: i < |s.threads| && s' == Step(s, i, c)
  }

  /** A run: any interleaving of the threads from a fresh slot. */
  ghost predicate Run(run: seq<State>) {
    && |run| > 0
    && Start(run[0])
    && forall k: nat :: k + 1 < |run| ==> Next(run[k], run[k + 1])
  }
}
