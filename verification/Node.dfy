/** The built-in Tailscale node (tailnet/node/node.go): one record behind a mutex, shared by
    the callers that start and stop it, by each server's background goroutines and by those
    waiting for it. A step is one critical section, or one move outside the lock. */
module Node {
  import opened Hex

  datatype Life = Off | Starting | NeedsLogin | NeedsApproval | Running | Stopped | Error

  datatype Status = Status(
    state: Life, authURL: string, ip: string, dnsName: string, account: string, tailnet: string, error: string)

  function Plain(state: Life): Status { Status(state, "", "", "", "", "", "") }

  /** The backend's status, as far as it is read; `reason` says why it stopped. */
  datatype Backend = Backend(
    state: BackendState, authURL: string, reason: string, tailnet: string,
    self: bool, account: string, ip: string, dnsName: string)

  datatype BackendState = BRunning | BNeedsLogin | BNeedsMachineAuth | BStopped | BOther

  const RELAY_UNREACHABLE :=
    "Can't reach Tailscale's servers. Until it can, only devices on the same network can connect."

  /** The backend's state is the one shown, and each of the other facts where it applies. */
  function FromStatus(b: Backend): (r: Status)
    ensures r.state == Running <==> b.state == BRunning
    ensures r.state == NeedsLogin <==> b.state == BNeedsLogin
    ensures r.state == NeedsApproval <==> b.state == BNeedsMachineAuth
    ensures r.state == Stopped <==> b.state == BStopped
    ensures r.state == Starting <==> b.state == BOther
    ensures r.authURL == if b.state == BNeedsLogin then b.authURL else ""
    ensures r.error == if b.state == BStopped then b.reason else ""
    ensures r.tailnet == b.tailnet
    ensures r.account == if b.self && b.state != BNeedsLogin then b.account else ""
    ensures r.ip == (if b.self && b.state == BRunning then b.ip else "")
    ensures r.dnsName == (if b.self && b.state == BRunning then b.dnsName else "")
  {
    var s :=
      match b.state
      case BRunning => Plain(Running)
      case BNeedsLogin => Plain(NeedsLogin).(authURL := b.authURL)
      case BNeedsMachineAuth => Plain(NeedsApproval)
      case BStopped => Plain(Stopped).(error := b.reason)
      case BOther => Plain(Starting);
    var named := s.(tailnet := b.tailnet);
    if !b.self || named.state == NeedsLogin then named
    else if named.state != Running then named.(account := b.account)
    else named.(account := b.account, ip := b.ip, dnsName := b.dnsName)
  }

  // ---- the status and who it wakes ---------------------------------------------------------

  /** The status with its version, and the channels that were closed to tell of a change.
      `made` is the version each channel was made at, `closed` the version each closed one
      was closed for; closing a channel twice is a panic. */
  datatype Board = Board(
    status: Status, version: nat, changed: nat, next: nat, made: map<nat, nat>, closed: map<nat, nat>, panicked: bool)

  const NEW_BOARD := Board(Plain(Off), 0, 0, 1, map[0 := 0], map[], false)

  /** `setLocked`. */
  function Post(b: Board, s: Status): Board
  {
    if s == b.status && b.version != 0 then b
    else
      Board(s, b.version + 1, b.next, b.next + 1, b.made[b.next := b.version + 1],
            b.closed[b.changed := b.version + 1], b.panicked || b.changed in b.closed)
  }

  // ---- the node -----------------------------------------------------------------------------

  datatype Forward = Forward(target: string, server: nat)

  /** `srv` and `lc` name the server they belong to. */
  datatype Record = Record(
    srv: Option<nat>, lc: Option<nat>, ports: map<nat, string>, listeners: map<nat, Forward>,
    leaving: bool, cutOff: bool, board: Board)

  datatype Phase = Booting | Connecting | Failing | Watching | Finished

  /** A server: where its goroutine is, whether its start came back, how often it was closed. */
  datatype Server = Server(phase: Phase, started: bool, closes: nat)

  datatype Waiter = Asleep(since: nat, chan: nat, timed: bool) | Answered(since: nat, version: nat, late: bool)

  datatype Awaiter = Reading | Sleeping(srv: Option<nat>, status: Status, chan: nat) | Got(server: nat) | Refused

  /** `stoppers` holds the server each `stop` still has to close. */
  datatype State = State(
    node: Record, servers: seq<Server>, stoppers: multiset<nat>, waiters: seq<Waiter>, awaiters: seq<Awaiter>)

  const NEW_NODE := State(Record(None, None, map[], map[], false, false, NEW_BOARD), [], multiset{}, [], [])

  datatype Event =
    | Start(dirReady: bool)
    | TakeOut(restarting: bool)
    | CloseTaken(srv: nat)
    | StartReturned(srv: nat, ok: bool)
    | ClientFailed(srv: nat)
    | Fail(srv: nat, msg: string)
    | SetClient(srv: nat)
    | Relisten(srv: nat, listens: set<nat>)
    | Refresh(srv: nat, backend: Backend)
    | SetCutOff(srv: nat, value: bool)
    | NoteError(srv: nat, msg: string)
    | SetForwards(ports: map<nat, string>)
    | SetLeaving(value: bool)
    | Wait(since: nat, timed: bool)
    | WaitWakes(i: nat)
    | WaitTimesOut(i: nat)
    | Await
    | AwaitReads(i: nat)
    | AwaitGivesUp(i: nat)

  function PostTo(n: Record, s: Status): Record { n.(board := Post(n.board, s)) }

  function OnStart(s: State, dirReady: bool): State
  {
    if s.node.srv.Some? || !dirReady then s
    else
      s.(node := PostTo(s.node.(srv := Some(|s.servers|)), Plain(Starting)),
         servers := s.servers + [Server(Booting, false, 0)])
  }

  /** A node that restarts is never shown off in between. */
  function TakenOut(n: Record, restarting: bool): Record
  {
    PostTo(n.(srv := None, lc := None, cutOff := false, listeners := map[]), Plain(if restarting then Starting else Off))
  }

  function OnTakeOut(s: State, restarting: bool): State
  {
    s.(node := TakenOut(s.node, restarting),
       stoppers := if s.node.srv.Some? then s.stoppers + multiset{s.node.srv.value} else s.stoppers)
  }

  function OnCloseTaken(s: State, x: nat): State
  {
    if x in s.stoppers && x < |s.servers| && s.servers[x].started then
      s.(stoppers := s.stoppers - multiset{x},
         servers := s.servers[x := s.servers[x].(closes := s.servers[x].closes + 1)])
    else s
  }

  predicate At(s: State, x: nat, phase: Phase) { x < |s.servers| && s.servers[x].phase == phase }

  function Move(s: State, x: nat, phase: Phase): State
    requires x < |s.servers|
  {
    s.(servers := s.servers[x := s.servers[x].(phase := phase)])
  }

  /** A critical section of server `x`'s goroutines: it does nothing once another server, or
      none, is in its place. */
  function IfCurrent(s: State, x: nat, n: Record): State
  {
    if s.node.srv == Some(x) then s.(node := n) else s
  }

  /** The listeners that still have the target their port should have. */
  function Wanted(listeners: map<nat, Forward>, ports: map<nat, string>): map<nat, Forward>
  {
    map p | p in listeners && p in ports && ports[p] == listeners[p].target :: listeners[p]
  }

  /** Those to be added: `listens` are the ports the server can listen on. */
  function Missing(listeners: map<nat, Forward>, ports: map<nat, string>, x: nat, listens: set<nat>): map<nat, Forward>
  {
    map p | p in ports && p !in listeners && p in listens :: Forward(ports[p], x)
  }

  function Relistened(n: Record, x: nat, listens: set<nat>): Record
  {
    var kept := Wanted(n.listeners, n.ports);
    n.(listeners := kept + Missing(kept, n.ports, x, listens))
  }

  /** The status a refresh posts. */
  function Shown(n: Record, b: Backend): Status
  {
    var s := FromStatus(b);
    var t := if n.leaving && s.state == Stopped then Plain(NeedsLogin) else s;
    if t.state == Running && n.cutOff && t.error == "" then t.(error := RELAY_UNREACHABLE) else t
  }

  function Refreshed(n: Record, b: Backend): Record { PostTo(n, Shown(n, b)) }

  function OnWait(s: State, since: nat, timed: bool): State
  {
    var b := s.node.board;
    s.(waiters := s.waiters +
         [if b.version != since then Answered(since, b.version, false) else Asleep(since, b.changed, timed)])
  }

  function Answer(s: State, i: nat, late: bool): State
    requires i < |s.waiters|
  {
    s.(waiters := s.waiters[i := Answered(s.waiters[i].since, s.node.board.version, late)])
  }

  /** What `awaitRunning` makes of what it read together: a server, a refusal, or sleep. */
  function Read(n: Record): Awaiter
  {
    var st := n.board.status;
    if n.srv.None? then Sleeping(None, st, n.board.changed)
    else if st.state == Running then Got(n.srv.value)
    else if Decided(st) then Refused
    else Sleeping(n.srv, st, n.board.changed)
  }

  /** A state that ends the wait for a node that has a server. */
  predicate Decided(st: Status)
  {
    || st.state == Running || st.state == Stopped || st.state == Error || st.state == NeedsApproval
    || (st.state == NeedsLogin && st.authURL != "")
  }

  // ---- the other steps ------------------------------------------------------------------------

  function OnStartReturned(s: State, x: nat, ok: bool): State
  {
    if !At(s, x, Booting) then s
    else s.(servers := s.servers[x := Server(if ok then Connecting else Failing, true, s.servers[x].closes)])
  }

  function OnClientFailed(s: State, x: nat): State { if At(s, x, Connecting) then Move(s, x, Failing) else s }

  function OnFail(s: State, x: nat, msg: string): State
  {
    if !At(s, x, Failing) then s
    else IfCurrent(Move(s, x, Finished), x, PostTo(s.node, Plain(Error).(error := msg)))
  }

  function OnSetClient(s: State, x: nat): State
  {
    if !At(s, x, Connecting) then s
    else IfCurrent(Move(s, x, if s.node.srv == Some(x) then Watching else Finished), x, s.node.(lc := Some(x)))
  }

  function OnRefresh(s: State, x: nat, b: Backend): State
  {
    if At(s, x, Watching) then IfCurrent(s, x, Refreshed(s.node, b)) else s
  }

  function OnSetCutOff(s: State, x: nat, value: bool): State
  {
    if At(s, x, Watching) then IfCurrent(s, x, s.node.(cutOff := value)) else s
  }

  function OnNoteError(s: State, x: nat, msg: string): State
  {
    if At(s, x, Watching) then IfCurrent(s, x, PostTo(s.node, s.node.board.status.(error := msg))) else s
  }

  function OnWaitWakes(s: State, i: nat): State
  {
    if i < |s.waiters| && s.waiters[i].Asleep? && s.waiters[i].chan in s.node.board.closed then Answer(s, i, false)
    else s
  }

  function OnWaitTimesOut(s: State, i: nat): State
  {
    if i < |s.waiters| && s.waiters[i].Asleep? && s.waiters[i].timed then Answer(s, i, true) else s
  }

  function OnAwaitReads(s: State, i: nat): State
  {
    if i < |s.awaiters|
       && (s.awaiters[i].Reading? || (s.awaiters[i].Sleeping? && s.awaiters[i].chan in s.node.board.closed)) then
      s.(awaiters := s.awaiters[i := Read(s.node)])
    else s
  }

  function OnAwaitGivesUp(s: State, i: nat): State
  {
    if i < |s.awaiters| && s.awaiters[i].Sleeping? then s.(awaiters := s.awaiters[i := Refused]) else s
  }

  function Step(s: State, e: Event): State
  {
    match e
    case Start(dirReady) => OnStart(s, dirReady)
    case TakeOut(restarting) => OnTakeOut(s, restarting)
    case CloseTaken(x) => OnCloseTaken(s, x)
    case StartReturned(x, ok) => OnStartReturned(s, x, ok)
    case ClientFailed(x) => OnClientFailed(s, x)
    case Fail(x, msg) => OnFail(s, x, msg)
    case SetClient(x) => OnSetClient(s, x)
    case Relisten(x, listens) => IfCurrent(s, x, Relistened(s.node, x, listens))
    case Refresh(x, backend) => OnRefresh(s, x, backend)
    case SetCutOff(x, value) => OnSetCutOff(s, x, value)
    case NoteError(x, msg) => OnNoteError(s, x, msg)
    case SetForwards(ports) => s.(node := s.node.(ports := ports))
    case SetLeaving(value) => s.(node := s.node.(leaving := value))
    case Wait(since, timed) => OnWait(s, since, timed)
    case WaitWakes(i) => OnWaitWakes(s, i)
    case WaitTimesOut(i) => OnWaitTimesOut(s, i)
    case Await => s.(awaiters := s.awaiters + [Reading])
    case AwaitReads(i) => OnAwaitReads(s, i)
    case AwaitGivesUp(i) => OnAwaitGivesUp(s, i)
  }

  function Run(events: seq<Event>): State
  {
    if events == [] then NEW_NODE else Step(Run(events[..|events| - 1]), events[|events| - 1])
  }
}
