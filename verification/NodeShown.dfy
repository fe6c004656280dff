/** What the node shows and does, told from the events: which status is posted when, how far each
    server is, and that one that runs is handed out. */
module NodeShown {
  import opened Hex
  import opened Node
  import opened NodeSafety

  predicate Current(s: State, x: nat, phase: Phase) { s.node.srv == Some(x) && At(s, x, phase) }

  predicate Starts(s: State, e: Event) { e.Start? && e.dirReady && s.node.srv.None? }

  // ---- the status --------------------------------------------------------------------------

  /** While signing out a backend that stopped still needs a login; a running one that is cut off
      says so; otherwise the backend's state is shown as it is. */
  lemma ShownIs(n: Record, b: Backend)
    ensures var s := Shown(n, b);
      if n.leaving && b.state == BStopped then s == Plain(NeedsLogin)
      else
        && s.(error := "") == FromStatus(b).(error := "")
        && s.error == if b.state == BRunning && n.cutOff then RELAY_UNREACHABLE
                      else if b.state == BStopped then b.reason else ""
  {
  }

  /** What an event posts, if anything. */
  function Posted(s: State, e: Event): Option<Status>
  {
    match e
    case Start(_) => if Starts(s, e) then Some(Plain(Starting)) else None
    case TakeOut(restarting) => Some(Plain(if restarting then Starting else Off))
    case Fail(x, msg) => if Current(s, x, Failing) then Some(Plain(Error).(error := msg)) else None
    case Refresh(x, b) => if Current(s, x, Watching) then Some(Shown(s.node, b)) else None
    case NoteError(x, msg) => if Current(s, x, Watching) then Some(s.node.board.status.(error := msg)) else None
    case _ => None
  }

  /** What is shown once this was posted, or nothing. */
  function Over(posted: Option<Status>, before: Status): Status
  {
    if posted.Some? then posted.value else before
  }

  lemma StepShows(s: State, e: Event)
    ensures Step(s, e).node.board.status == Over(Posted(s, e), s.node.board.status)
  {
    if e.Refresh? || e.NoteError? || e.Fail? {
      ServerShows(s, e);
    } else if !Posts(e) {
      OthersPostNothing(s, e);
    }
  }

  lemma ServerShows(s: State, e: Event)
    requires e.Refresh? || e.NoteError? || e.Fail?
    ensures Step(s, e).node.board.status == Over(Posted(s, e), s.node.board.status)
  {
  }

  /** The version moves on exactly when something else is posted than is shown, and with the very
      first post. */
  lemma VersionMoves(s: State, e: Event)
    ensures var a, p := s.node.board, Posted(s, e);
      Step(s, e).node.board.version
        == a.version + if p.Some? && (p.value != a.status || a.version == 0) then 1 else 0
  {
    if e.Refresh? || e.NoteError? || e.Fail? {
      ServerMovesVersion(s, e);
    } else if !Posts(e) {
      OthersPostNothing(s, e);
    }
  }

  lemma ServerMovesVersion(s: State, e: Event)
    requires e.Refresh? || e.NoteError? || e.Fail?
    ensures var a, p := s.node.board, Posted(s, e);
      Step(s, e).node.board.version
        == a.version + if p.Some? && (p.value != a.status || a.version == 0) then 1 else 0
  {
  }

  function PostedAt(events: seq<Event>, j: nat): Option<Status>
    requires j < |events|
  {
    Posted(Run(events[..j]), events[j])
  }

  function ShownAt(events: seq<Event>, j: nat): Status
    requires j <= |events|
  {
    Run(events[..j]).node.board.status
  }

  lemma ShownNext(events: seq<Event>, j: nat)
    requires j < |events|
    ensures ShownAt(events, j + 1) == Over(PostedAt(events, j), ShownAt(events, j))
  {
    assert events[..j + 1] == events[..j] + [events[j]];
    RunOneMore(events[..j], events[j]);
    StepShows(Run(events[..j]), events[j]);
  }

  lemma {:induction false} LastOneStays(posted: seq<Option<Status>>, shown: seq<Status>, k: nat, m: nat)
    requires k < m < |shown| == |posted| + 1 && posted[k].Some?
    requires forall j :: 0 <= j < |posted| ==> shown[j + 1] == Over(posted[j], shown[j])
    requires forall j :: k < j < |posted| ==> posted[j].None?
    ensures shown[m] == posted[k].value
    decreases m
  {
    assert shown[m - 1 + 1] == Over(posted[m - 1], shown[m - 1]);
    if m > k + 1 {
      LastOneStays(posted, shown, k, m - 1);
    }
  }

  lemma PostsInTurn(events: seq<Event>) returns (posted: seq<Option<Status>>, shown: seq<Status>)
    ensures |posted| == |events| && |shown| == |events| + 1
    ensures forall j :: 0 <= j < |events| ==> posted[j] == PostedAt(events, j)
    ensures forall j :: 0 <= j < |events| ==> shown[j + 1] == Over(posted[j], shown[j])
    ensures shown[|events|] == ShownAt(events, |events|)
  {
    var n := |events|;
    posted := seq(n, j requires 0 <= j < n => PostedAt(events, j));
    shown := seq(n + 1, j requires 0 <= j <= n => ShownAt(events, j));
    forall j | 0 <= j < n
      ensures shown[j + 1] == Over(posted[j], shown[j])
    {
      ShownNext(events, j);
    }
  }

  lemma LastPostIsShown(events: seq<Event>, k: nat)
    requires k < |events| && PostedAt(events, k).Some?
    requires forall j :: k < j < |events| ==> PostedAt(events, j).None?
    ensures ShownAt(events, |events|) == PostedAt(events, k).value
  {
    var posted, shown := PostsInTurn(events);
    LastOneStays(posted, shown, k, |events|);
  }

  /** The status is always what the last event to post anything posted. */
  lemma StatusIsLastPosted(events: seq<Event>, k: nat)
    requires k < |events| && PostedAt(events, k).Some?
    requires forall j :: k < j < |events| ==> PostedAt(events, j).None?
    ensures Run(events).node.board.status == PostedAt(events, k).value
  {
    LastPostIsShown(events, k);
    assert events[..|events|] == events;
  }

  // ---- servers -----------------------------------------------------------------------------

  function NextPhase(s: State, e: Event, x: nat): Phase
    requires x < |s.servers|
  {
    match (s.servers[x].phase, e)
    case (Booting, StartReturned(y, ok)) => if y != x then Booting else if ok then Connecting else Failing
    case (Connecting, ClientFailed(y)) => if y == x then Failing else Connecting
    case (Connecting, SetClient(y)) =>
      if y != x then Connecting else if s.node.srv == Some(x) then Watching else Finished
    case (Failing, Fail(y, _)) => if y == x then Finished else Failing
    case (phase, _) => phase
  }

  lemma ServerStepPhase(s: State, e: Event, x: nat)
    requires x < |s.servers| && ServerOf(e).Some? && x < |Step(s, e).servers|
    ensures Step(s, e).servers[x].phase == NextPhase(s, e, x)
    ensures Step(s, e).servers[x].closes == s.servers[x].closes
  {
  }

  lemma OtherStepPhase(s: State, e: Event, x: nat)
    requires x < |s.servers| && ServerOf(e).None? && x < |Step(s, e).servers|
    ensures Step(s, e).servers[x].phase == s.servers[x].phase
    ensures Step(s, e).servers[x].closes == s.servers[x].closes
              + if e == CloseTaken(x) && x in s.stoppers && s.servers[x].started then 1 else 0
  {
  }

  lemma ServersStay(s: State, e: Event)
    ensures |Step(s, e).servers| == |s.servers| + if Starts(s, e) then 1 else 0
  {
  }

  /** How each server moves on, and when it is closed; only a start that finds the node without a
      server and its folder ready makes a new one. */
  lemma ServersMove(s: State, e: Event, x: nat)
    requires x < |s.servers|
    ensures |Step(s, e).servers| == |s.servers| + if Starts(s, e) then 1 else 0
    ensures Step(s, e).servers[x].phase == NextPhase(s, e, x)
    ensures Step(s, e).servers[x].closes == s.servers[x].closes
              + if e == CloseTaken(x) && x in s.stoppers && s.servers[x].started then 1 else 0
  {
    ServersStay(s, e);
    if ServerOf(e).Some? {
      ServerStepPhase(s, e, x);
    } else {
      OtherStepPhase(s, e, x);
    }
  }

  /** The node's own fields after an event: which one sets each of them, and to what. */
  predicate Moves(s: State, e: Event, b: Record)
  {
    var a := s.node;
    && b.srv == (if Starts(s, e) then Some(|s.servers|) else if e.TakeOut? then None else a.srv)
    && b.ports == (if e.SetForwards? then e.ports else a.ports)
    && b.leaving == (if e.SetLeaving? then e.value else a.leaving)
    && b.cutOff == (if e.TakeOut? then false
                    else if e.SetCutOff? && Current(s, e.srv, Watching) then e.value else a.cutOff)
    && b.lc == (if e.TakeOut? then None
                else if e.SetClient? && Current(s, e.srv, Connecting) then Some(e.srv) else a.lc)
    && b.listeners == (if e.TakeOut? then map[]
                       else if e.Relisten? && a.srv == Some(e.srv) then Relistened(a, e.srv, e.listens).listeners
                       else a.listeners)
  }

  lemma PostMovesBoard(s: State, e: Event)
    requires e.Fail? || e.Refresh? || e.NoteError?
    ensures Step(s, e).node == s.node.(board := Step(s, e).node.board)
  {
  }

  lemma ServerMovesNode(s: State, e: Event)
    requires e.SetClient? || e.Relisten? || e.SetCutOff?
    ensures Moves(s, e, Step(s, e).node)
  {
  }

  lemma PhaseMovesNothing(s: State, e: Event)
    requires e.StartReturned? || e.ClientFailed?
    ensures Step(s, e).node == s.node
  {
  }

  lemma CallerMovesNode(s: State, e: Event)
    requires e.Start? || e.TakeOut? || e.CloseTaken? || e.SetForwards? || e.SetLeaving?
    ensures Moves(s, e, Step(s, e).node)
  {
  }

  lemma SleeperMovesNothing(s: State, e: Event)
    requires IsSleeperStep(e)
    ensures Step(s, e).node == s.node
  {
  }

  lemma NodeMoves(s: State, e: Event)
    ensures Moves(s, e, Step(s, e).node)
  {
    if e.Fail? || e.Refresh? || e.NoteError? {
      PostMovesBoard(s, e);
    } else if e.StartReturned? || e.ClientFailed? {
      PhaseMovesNothing(s, e);
    } else if ServerOf(e).Some? {
      ServerMovesNode(s, e);
    } else if IsSleeperStep(e) {
      SleeperMovesNothing(s, e);
    } else {
      CallerMovesNode(s, e);
    }
  }

  /** No server is lost: each is the node's, or waits to be closed by the one `stop` that took it,
      or was closed, once; and once its start came back it can be closed. */
  lemma EveryServerIsClosed(events: seq<Event>, x: nat)
    requires x < |Run(events).servers|
    ensures var s := Run(events);
      && (if s.node.srv == Some(x) then 1 else 0) + s.stoppers[x] + s.servers[x].closes == 1
      && (x in s.stoppers && s.servers[x].started ==>
            var t := Step(s, CloseTaken(x));
            x < |t.servers| && t.servers[x].closes == 1 && x !in t.stoppers)
  {
    RunKeeps(events);
  }

  predicate NeverStops(later: seq<Event>) { forall k :: 0 <= k < |later| ==> later[k] != TakeOut(false) }

  lemma StaysOn(s: State, e: Event)
    requires s.node.board.status.state != Off && e != TakeOut(false)
    ensures Step(s, e).node.board.status.state != Off
  {
    StepShows(s, e);
    if e.Refresh? {
      ShownIs(s.node, e.backend);
    }
  }

  lemma {:induction false} OnRun(s: State, later: seq<Event>)
    requires s.node.board.status.state != Off && NeverStops(later)
    ensures RunFrom(s, later).node.board.status.state != Off
    decreases |later|
  {
    if later != [] {
      var init := later[..|later| - 1];
      OnRun(s, init);
      StaysOn(RunFrom(s, init), later[|later| - 1]);
    }
  }

  /** A node that is restarted, or was started, is never shown as off until it is stopped for
      good. */
  lemma RestartIsNeverOff(events: seq<Event>, e: Event, later: seq<Event>)
    requires e == TakeOut(true) || Starts(Run(events), e)
    requires NeverStops(later)
    ensures Run(events + [e] + later).node.board.status.state != Off
  {
    RunOneMore(events, e);
    StepShows(Run(events), e);
    RunInParts(events + [e], later);
    OnRun(Run(events + [e]), later);
  }

  // ---- a running server is handed out ----------------------------------------------------------

  predicate Dialable(s: State, x: nat)
  {
    Current(s, x, Watching) && s.node.board.status.state == Running
  }

  predicate Undisturbed(later: seq<Event>)
  {
    forall k :: 0 <= k < |later| ==> !later[k].TakeOut? && !later[k].Refresh?
  }

  lemma StaysDialable(s: State, e: Event, x: nat)
    requires Dialable(s, x) && !e.TakeOut? && !e.Refresh?
    ensures Dialable(Step(s, e), x)
  {
    StepShows(s, e);
    ServersMove(s, e, x);
    NodeMoves(s, e);
  }

  lemma {:induction false} DialableRun(s: State, later: seq<Event>, x: nat)
    requires Dialable(s, x) && Undisturbed(later)
    ensures Dialable(RunFrom(s, later), x)
    decreases |later|
  {
    if later != [] {
      var init := later[..|later| - 1];
      DialableRun(s, init, x);
      StaysDialable(RunFrom(s, init), later[|later| - 1], x);
    }
  }

  lemma RefreshRuns(s: State, x: nat, b: Backend)
    requires Current(s, x, Watching) && b.state == BRunning
    ensures Dialable(Step(s, Refresh(x, b)), x)
  {
    StepShows(s, Refresh(x, b));
    ShownIs(s.node, b);
  }

  lemma DialableIsGot(events: seq<Event>, x: nat, i: nat)
    requires Dialable(Run(events), x) && i < |Run(events).awaiters|
    requires Run(events).awaiters[i].Reading? || Run(events).awaiters[i].Sleeping?
    ensures i < |Step(Run(events), AwaitReads(i)).awaiters|
    ensures Step(Run(events), AwaitReads(i)).awaiters[i] == Got(x)
  {
    if Run(events).awaiters[i].Sleeping? {
      NobodySleepsThrough(events, i);
    }
  }

  lemma RunOneMore(events: seq<Event>, e: Event)
    ensures Run(events + [e]) == Step(Run(events), e)
  {
    assert (events + [e])[..|events|] == events;
  }

  /** Once the node's server has reported that it runs, then until the next report or stop, and
      whatever else happens, whoever waits to dial is handed that server as soon as it looks. */
  lemma RunningIsHandedOut(events: seq<Event>, x: nat, b: Backend, later: seq<Event>, i: nat)
    requires Current(Run(events), x, Watching) && b.state == BRunning && Undisturbed(later)
    requires var s := Run(events + [Refresh(x, b)] + later);
      i < |s.awaiters| && (s.awaiters[i].Reading? || s.awaiters[i].Sleeping?)
    ensures var s := Step(Run(events + [Refresh(x, b)] + later), AwaitReads(i));
      i < |s.awaiters| && s.awaiters[i] == Got(x)
  {
    var reported := events + [Refresh(x, b)];
    RunOneMore(events, Refresh(x, b));
    RefreshRuns(Run(events), x, b);
    RunInParts(reported, later);
    DialableRun(Run(reported), later, x);
    DialableIsGot(reported + later, x, i);
  }

  lemma BootRuns(s: State, x: nat)
    requires x == |s.servers|
    ensures var t := Step(Step(Step(Step(s, TakeOut(true)), Start(true)), StartReturned(x, true)), SetClient(x));
      Current(t, x, Watching)
  {
    var a := OnTakeOut(s, true);
    var b := OnStart(a, true);
    assert b.node.srv == Some(x) && b.servers[x] == Server(Booting, false, 0);
    var c := OnStartReturned(b, x, true);
    assert c.node.srv == Some(x) && c.servers[x].phase == Connecting;
  }

  lemma DialRuns(s: State, x: nat, b: Backend)
    requires Current(s, x, Watching) && b.state == BRunning
    ensures var t := Step(Step(Step(s, Refresh(x, b)), Await), AwaitReads(|s.awaiters|));
      && Current(t, x, Watching) && t.awaiters != [] && t.awaiters[|t.awaiters| - 1] == Got(x)
  {
    RefreshRuns(s, x, b);
    var a := Step(s, Refresh(x, b));
    assert |a.awaiters| == |s.awaiters|;
    var c := Step(a, Await);
    assert c.node == a.node && c.servers == a.servers;
  }

  ghost predicate Leads(events: seq<Event>, s: State) { Run(events) == s }

  lemma LeadsOn(events: seq<Event>, s: State, e: Event)
    requires Leads(events, s)
    ensures Leads(events + [e], Step(s, e))
  {
    RunOneMore(events, e);
  }

  lemma LeadsToBoot(events: seq<Event>, s: State, x: nat) returns (more: seq<Event>, t: State)
    requires Leads(events, s) && x == |s.servers|
    ensures Leads(events + more, t) && Current(t, x, Watching)
  {
    var a, b, c := Step(s, TakeOut(true)), Start(true), StartReturned(x, true);
    LeadsOn(events, s, TakeOut(true));
    LeadsOn(events + [TakeOut(true)], a, b);
    LeadsOn(events + [TakeOut(true)] + [b], Step(a, b), c);
    LeadsOn(events + [TakeOut(true)] + [b] + [c], Step(Step(a, b), c), SetClient(x));
    more := [TakeOut(true), b, c, SetClient(x)];
    assert events + more == events + [TakeOut(true)] + [b] + [c] + [SetClient(x)];
    t := Step(Step(Step(a, b), c), SetClient(x));
    BootRuns(s, x);
  }

  lemma LeadsToDial(events: seq<Event>, s: State, x: nat) returns (more: seq<Event>, t: State)
    requires Leads(events, s) && Current(s, x, Watching)
    ensures Leads(events + more, t) && Current(t, x, Watching)
    ensures t.awaiters != [] && t.awaiters[|t.awaiters| - 1] == Got(x)
  {
    var a := Refresh(x, Backend(BRunning, "", "", "", false, "", "", ""));
    var c := AwaitReads(|s.awaiters|);
    LeadsOn(events, s, a);
    LeadsOn(events + [a], Step(s, a), Await);
    LeadsOn(events + [a] + [Await], Step(Step(s, a), Await), c);
    more := [a, Await, c];
    assert events + more == events + [a] + [Await] + [c];
    t := Step(Step(Step(s, a), Await), c);
    DialRuns(s, x, a.backend);
  }

  lemma LeadsFurther(events: seq<Event>, a: seq<Event>, b: seq<Event>, s: State)
    requires Leads(events + a + b, s)
    ensures Leads(events + (a + b), s)
  {
    assert events + a + b == events + (a + b);
  }

  /** Nor is it stuck: from any moment the node can come to run and to hand its server out. */
  lemma NodeCanRun(events: seq<Event>) returns (later: seq<Event>, s: State, x: nat)
    ensures Leads(events + later, s) && Current(s, x, Watching)
    ensures s.awaiters != [] && s.awaiters[|s.awaiters| - 1] == Got(x)
  {
    x := |Run(events).servers|;
    var boot, started := LeadsToBoot(events, Run(events), x);
    var dial;
    dial, s := LeadsToDial(events + boot, started, x);
    later := boot + dial;
    LeadsFurther(events, boot, dial, s);
  }

  // ---- waiting for a change ---------------------------------------------------------------------

  /** A wait is answered at once when the version moved on already, and otherwise exactly when its
      channel was closed or it ran out of time, with the version there is then. */
  lemma WaitsAreAnswered(s: State, e: Event, i: nat)
    requires i < |Step(s, e).waiters|
    ensures var w, version := Step(s, e).waiters[i], s.node.board.version;
      if i >= |s.waiters| then
        && e.Wait?
        && w == if e.since == version then Asleep(version, s.node.board.changed, e.timed)
                else Answered(e.since, version, false)
      else if s.waiters[i].Asleep? && e == WaitWakes(i) && s.waiters[i].chan in s.node.board.closed then
        w == Answered(s.waiters[i].since, version, false)
      else if s.waiters[i].Asleep? && e == WaitTimesOut(i) && s.waiters[i].timed then
        w == Answered(s.waiters[i].since, version, true)
      else w == s.waiters[i]
  {
  }

  /** A server in this state will not run without something being done about it. */
  predicate WontRun(st: Status)
  {
    match st.state
    case Stopped => true
    case Error => true
    case NeedsApproval => true
    case NeedsLogin => st.authURL != ""
    case _ => false
  }

  /** And whoever waits to dial moves on only by looking or by giving up. */
  lemma DialsAreAnswered(s: State, e: Event, i: nat)
    requires i < |s.awaiters|
    ensures i < |Step(s, e).awaiters|
    ensures var w, n := s.awaiters[i], s.node;
      Step(s, e).awaiters[i] ==
        if e == AwaitGivesUp(i) && w.Sleeping? then Refused
        else if e != AwaitReads(i) || !(w.Reading? || (w.Sleeping? && w.chan in n.board.closed)) then w
        else if n.srv.Some? && n.board.status.state == Running then Got(n.srv.value)
        else if n.srv.Some? && WontRun(n.board.status) then Refused
        else Sleeping(n.srv, n.board.status, n.board.changed)
  {
  }
}
