/** What the content thread of the chat server is about, as values: who is there, which jobs
    arrive, and what each job does. */
module ChatView {
  const SECTOR_X_MAX := 50
  const SECTOR_Y_MAX := 50
  const MESSAGE_BUFSIZE := 1000

  /** AccountNo, SectorX, SectorY; SectorX is -1 until the first sector move. */
  datatype Info = Info(account: int, x: int, y: int)

  type View = map<nat, Info>

  /** A parsed client message. */
  datatype Body =
    | ToServer
    | Login(account: int)
    | SectorMove(account: int, x: nat, y: nat)
    | Say(account: int, len: nat)
    | Heartbeat
    | Undefined

  datatype Job = JoinJob(id: nat) | MessageJob(id: nat, body: Body) | LeaveJob(id: nat)

  datatype Reply = LoggedIn(account: int) | Moved(account: int, x: int, y: int) | Said(account: int, len: nat)

  /** One call of SendPacket. */
  datatype Sent = Sent(to: nat, reply: Reply)

  /** Why Logger::Crash was called. */
  datatype Crash = Running | NotExist | AlreadyExist | TooLong

  predicate InGrid(x: int, y: int) {
    0 <= x < SECTOR_X_MAX && 0 <= y < SECTOR_Y_MAX
  }

  // ---- what one job does ----

  function AfterJoin(v: View, id: nat, y: int): View {
    if id in v then v else v[id := Info(0, -1, y)]
  }

  function AfterMessage(v: View, id: nat, body: Body): View {
    if id !in v then v
    else match body
      case Login(account) => if v[id].x != -1 then v else v[id := v[id].(account := account)]
      case SectorMove(account, x, y) =>
        if account == v[id].account && InGrid(x, y) then v[id := v[id].(x := x, y := y)] else v
      case _ => v
  }

  function CrashOf(v: View, id: nat, body: Body): Crash {
    if id !in v then NotExist
    else match body
      case Login(_) => if v[id].x != -1 then AlreadyExist else Running
      case Say(account, len) => if account == v[id].account && len >= MESSAGE_BUFSIZE then TooLong else Running
      case _ => Running
  }

  /** KillSession is called for a wrong account number and for a message of unknown type. */
  predicate Kills(v: View, id: nat, body: Body) {
    id in v && match body
      case SectorMove(account, _, _) => account != v[id].account
      case Say(account, _) => account != v[id].account
      case Undefined => true
      case _ => false
  }

  predicate Near(i: Info, x: int, y: int) {
    i.x != -1 && -1 <= i.x - x <= 1 && -1 <= i.y - y <= 1
  }

  /** What is sent for a message; `around` is what SendPacketAround
      sends. */
  function Answers(v: View, id: nat, body: Body, around: seq<Sent>): seq<Sent> {
    if CrashOf(v, id, body) != Running then []
    else match body
      case Login(account) => [Sent(id, LoggedIn(account))]
      case SectorMove(account, _, _) =>
        var i := AfterMessage(v, id, body)[id];
        if account == v[id].account then [Sent(id, Moved(account, i.x, i.y))] else []
      case Say(account, len) => if account == v[id].account then around else []
      case _ => []
  }
}
