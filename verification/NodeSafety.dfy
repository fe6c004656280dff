/** What every run of the node keeps: servers are let go of once and for all, and nobody
    sleeps through a change. */
module NodeSafety {
  import opened Hex
  import opened Node

  // ---- the board ---------------------------------------------------------------------------

  /** The channel for the current version is open; every other one was closed by the very
      change that followed the version it was made at, and none twice. */
  ghost predicate BoardInv(b: Board)
  {
    && b.changed < b.next && b.changed !in b.closed && !b.panicked
    && (forall c: nat :: c in b.made <==> c < b.next)
    && b.made[b.changed] == b.version
    && (forall c: nat :: c < b.next && c != b.changed <==> c in b.closed)
    && (forall c :: c in b.closed ==> b.closed[c] == b.made[c] + 1 <= b.version)
  }

  /** `b` is `a` some changes later. */
  ghost predicate Later(a: Board, b: Board)
  {
    && a.version <= b.version && a.next <= b.next
    && (a.version == b.version ==> a == b)
    && (forall c :: c in a.made ==> c in b.made && b.made[c] == a.made[c])
    && (forall c :: c in a.closed ==> c in b.closed && b.closed[c] == a.closed[c])
  }

  lemma PostKeeps(b: Board, s: Status)
    requires BoardInv(b)
    ensures BoardInv(Post(b, s)) && Later(b, Post(b, s))
    ensures Post(b, s).version != b.version ==> b.changed in Post(b, s).closed
  {
  }

  // ---- servers -----------------------------------------------------------------------------

  function Held(n: Record, x: nat): nat { if n.srv == Some(x) then 1 else 0 }

  /** Every server is in exactly one pair of hands: the node's, or those of the one `stop`
      that took it out, or it has been closed. */
  ghost predicate Accounted(s: State)
  {
    && (s.node.srv.Some? ==> s.node.srv.value < |s.servers|)
    && (forall x :: x in s.stoppers ==> x < |s.servers|)
    && (forall x {:trigger s.servers[x]} :: 0 <= x < |s.servers| ==>
          && Held(s.node, x) + s.stoppers[x] + s.servers[x].closes == 1
          && (s.servers[x].closes > 0 ==> s.servers[x].started)
          && (s.servers[x].phase.Booting? <==> !s.servers[x].started))
  }

  /** No server: no client, no listener, and off or starting. A server: not off, and what
      the node holds belongs to it. */
  ghost predicate Consistent(n: Record)
  {
    && (n.srv.None? ==>
          && n.lc.None? && n.listeners == map[] && !n.cutOff
          && (n.board.status.state == Off || n.board.status.state == Starting))
    && (n.srv.Some? ==> n.board.status.state != Off)
    && (n.lc.Some? ==> n.lc == n.srv)
    && (forall p :: p in n.listeners ==> n.srv == Some(n.listeners[p].server))
  }

  // ---- sleepers ----------------------------------------------------------------------------

  ghost predicate WaiterInv(b: Board, w: Waiter)
  {
    match w
    case Asleep(since, chan, _) => chan in b.made && b.made[chan] == since
    case Answered(since, version, late) => version != since || late
  }

  /** Whoever sleeps on the open channel read what is still the status, and nothing in it was
      decided. */
  ghost predicate AwaiterInv(b: Board, w: Awaiter)
  {
    w.Sleeping? ==>
      && ((w.chan == b.changed && w.status == b.status) || w.chan in b.closed)
      && (if w.srv.None? then w.status.state == Off || w.status.state == Starting else !Decided(w.status))
  }

  ghost predicate Sleepers(s: State)
  {
    && (forall i :: 0 <= i < |s.waiters| ==> WaiterInv(s.node.board, s.waiters[i]))
    && (forall i :: 0 <= i < |s.awaiters| ==> AwaiterInv(s.node.board, s.awaiters[i]))
  }

  ghost predicate Inv(s: State)
  {
    BoardInv(s.node.board) && Accounted(s) && Consistent(s.node) && Sleepers(s)
  }

  lemma LaterKeepsSleepers(s: State, t: State)
    requires BoardInv(s.node.board) && BoardInv(t.node.board) && Sleepers(s)
    requires Later(s.node.board, t.node.board) && t.waiters == s.waiters && t.awaiters == s.awaiters
    requires t.node.board.version != s.node.board.version ==> s.node.board.changed in t.node.board.closed
    ensures Sleepers(t)
  {
  }

  /** The records a step of the node may leave: consistent, and with the board where it was or
      some changes on. */
  ghost predicate Follows(a: Record, b: Record)
  {
    && BoardInv(b.board) && Later(a.board, b.board) && Consistent(b)
    && (b.board.version != a.board.version ==> a.board.changed in b.board.closed)
  }

  lemma AccountNew(s: State, n: Record)
    requires Accounted(s) && s.node.srv.None? && n.srv == Some(|s.servers|)
    ensures Accounted(s.(node := n, servers := s.servers + [Server(Booting, false, 0)]))
  {
    assert |s.servers| !in s.stoppers;
    assert s.stoppers[|s.servers|] == 0;
  }

  lemma StartKeeps(s: State, dirReady: bool)
    requires Inv(s)
    ensures Inv(OnStart(s, dirReady))
  {
    if s.node.srv.None? && dirReady {
      var t := OnStart(s, dirReady);
      PostKeeps(s.node.board, Plain(Starting));
      LaterKeepsSleepers(s, t);
      AccountNew(s, t.node);
    }
  }

  lemma TakeOutKeeps(s: State, restarting: bool)
    requires Inv(s)
    ensures Inv(OnTakeOut(s, restarting))
  {
    PostKeeps(s.node.board, Plain(if restarting then Starting else Off));
    LaterKeepsSleepers(s, OnTakeOut(s, restarting));
  }

  lemma CloseKeeps(s: State, x: nat)
    requires Inv(s)
    ensures Inv(OnCloseTaken(s, x))
  {
  }

  lemma PhaseKeeps(s: State, x: nat, server: Server)
    requires Inv(s) && x < |s.servers| && server.closes == s.servers[x].closes
    requires s.servers[x].started ==> server.started
    requires server.phase.Booting? <==> !server.started
    ensures Inv(s.(servers := s.servers[x := server]))
  {
  }

  lemma CurrentKeeps(s: State, x: nat, n: Record)
    requires Inv(s)
    requires s.node.srv == Some(x) ==> n.srv == Some(x) && Follows(s.node, n)
    ensures Inv(IfCurrent(s, x, n))
  {
    if s.node.srv == Some(x) {
      LaterKeepsSleepers(s, IfCurrent(s, x, n));
    }
  }

  lemma PostFollows(n: Record, x: nat, st: Status)
    requires BoardInv(n.board) && Consistent(n) && n.srv == Some(x) && st.state != Off
    ensures Follows(n, PostTo(n, st))
  {
    PostKeeps(n.board, st);
  }

  lemma RelistenFollows(n: Record, x: nat, listens: set<nat>)
    requires BoardInv(n.board) && Consistent(n) && n.srv == Some(x)
    ensures Follows(n, Relistened(n, x, listens))
  {
  }

  /** The steps of server `x`'s goroutines. */
  function ServerOf(e: Event): Option<nat>
  {
    match e
    case Fail(x, _) => Some(x)
    case SetClient(x) => Some(x)
    case Relisten(x, _) => Some(x)
    case Refresh(x, _) => Some(x)
    case SetCutOff(x, _) => Some(x)
    case NoteError(x, _) => Some(x)
    case StartReturned(x, _) => Some(x)
    case ClientFailed(x) => Some(x)
    case _ => None
  }

  predicate IsServerStep(e: Event, x: nat) { ServerOf(e) == Some(x) }

  lemma FailKeeps(s: State, x: nat, msg: string)
    requires Inv(s)
    ensures Inv(Step(s, Fail(x, msg)))
  {
    if At(s, x, Failing) {
      var m := Move(s, x, Finished);
      PhaseKeeps(s, x, m.servers[x]);
      if s.node.srv == Some(x) {
        PostFollows(s.node, x, Plain(Error).(error := msg));
      }
      CurrentKeeps(m, x, PostTo(s.node, Plain(Error).(error := msg)));
    }
  }

  lemma SetClientKeeps(s: State, x: nat)
    requires Inv(s)
    ensures Inv(Step(s, SetClient(x)))
  {
    if At(s, x, Connecting) {
      var m := Move(s, x, if s.node.srv == Some(x) then Watching else Finished);
      PhaseKeeps(s, x, m.servers[x]);
      CurrentKeeps(m, x, s.node.(lc := Some(x)));
    }
  }

  lemma RelistenKeeps(s: State, x: nat, listens: set<nat>)
    requires Inv(s)
    ensures Inv(Step(s, Relisten(x, listens)))
  {
    if s.node.srv == Some(x) {
      RelistenFollows(s.node, x, listens);
      CurrentKeeps(s, x, Relistened(s.node, x, listens));
    }
  }

  lemma RefreshFollows(n: Record, x: nat, b: Backend)
    requires BoardInv(n.board) && Consistent(n) && n.srv == Some(x)
    ensures Follows(n, Refreshed(n, b))
  {
    PostFollows(n, x, Shown(n, b));
  }

  lemma RefreshKeeps(s: State, x: nat, b: Backend)
    requires Inv(s)
    ensures Inv(Step(s, Refresh(x, b)))
  {
    if s.node.srv == Some(x) && At(s, x, Watching) {
      RefreshFollows(s.node, x, b);
      CurrentKeeps(s, x, Refreshed(s.node, b));
    }
  }

  lemma NoteKeeps(s: State, x: nat, msg: string)
    requires Inv(s)
    ensures Inv(Step(s, NoteError(x, msg)))
  {
    if s.node.srv == Some(x) && At(s, x, Watching) {
      PostFollows(s.node, x, s.node.board.status.(error := msg));
      CurrentKeeps(s, x, PostTo(s.node, s.node.board.status.(error := msg)));
    }
  }

  lemma WaiterStepKeeps(s: State, e: Event)
    requires Inv(s) && (e.Wait? || e.WaitWakes? || e.WaitTimesOut?)
    ensures Inv(Step(s, e))
  {
    if e.WaitWakes? && e.i < |s.waiters| {
      assert WaiterInv(s.node.board, s.waiters[e.i]);
    }
  }

  lemma AwaiterStepKeeps(s: State, e: Event)
    requires Inv(s) && (e.Await? || e.AwaitReads? || e.AwaitGivesUp?)
    ensures Inv(Step(s, e))
  {
    assert AwaiterInv(s.node.board, Read(s.node));
  }

  /** Steps that change neither the board nor what is held. */
  lemma SettingKeeps(s: State, n: Record)
    requires Inv(s) && n == s.node.(ports := n.ports, leaving := n.leaving)
    ensures Inv(s.(node := n))
  {
    LaterKeepsSleepers(s, s.(node := n));
  }

  lemma CutOffKeeps(s: State, x: nat, value: bool)
    requires Inv(s)
    ensures Inv(Step(s, SetCutOff(x, value)))
  {
    if At(s, x, Watching) {
      CurrentKeeps(s, x, s.node.(cutOff := value));
    }
  }

  lemma StartedKeeps(s: State, e: Event)
    requires Inv(s) && (e.StartReturned? || e.ClientFailed?)
    ensures Inv(Step(s, e))
  {
    match e
    case StartReturned(x, ok) =>
      if At(s, x, Booting) {
        PhaseKeeps(s, x, Server(if ok then Connecting else Failing, true, s.servers[x].closes));
      }
    case ClientFailed(x) =>
      if At(s, x, Connecting) {
        PhaseKeeps(s, x, s.servers[x].(phase := Failing));
      }
  }

  lemma ServerStepKeeps(s: State, e: Event, x: nat)
    requires Inv(s) && IsServerStep(e, x)
    ensures Inv(Step(s, e))
  {
    match e
    case Fail(_, msg) => FailKeeps(s, x, msg);
    case SetClient(_) => SetClientKeeps(s, x);
    case Relisten(_, listens) => RelistenKeeps(s, x, listens);
    case Refresh(_, b) => RefreshKeeps(s, x, b);
    case SetCutOff(_, value) => CutOffKeeps(s, x, value);
    case NoteError(_, msg) => NoteKeeps(s, x, msg);
    case StartReturned(_, _) => StartedKeeps(s, e);
    case ClientFailed(_) => StartedKeeps(s, e);
  }

  predicate IsSleeperStep(e: Event)
  {
    e.Wait? || e.WaitWakes? || e.WaitTimesOut? || e.Await? || e.AwaitReads? || e.AwaitGivesUp?
  }

  lemma SleeperStepKeeps(s: State, e: Event)
    requires Inv(s) && IsSleeperStep(e)
    ensures Inv(Step(s, e))
  {
    if e.Wait? || e.WaitWakes? || e.WaitTimesOut? {
      WaiterStepKeeps(s, e);
    } else {
      AwaiterStepKeeps(s, e);
    }
  }

  lemma CallerStepKeeps(s: State, e: Event)
    requires Inv(s) && (e.Start? || e.TakeOut? || e.CloseTaken? || e.SetForwards? || e.SetLeaving?)
    ensures Inv(Step(s, e))
  {
    match e
    case Start(dirReady) => StartKeeps(s, dirReady);
    case TakeOut(restarting) => TakeOutKeeps(s, restarting);
    case CloseTaken(x) => CloseKeeps(s, x);
    case SetForwards(ports) => SettingKeeps(s, s.node.(ports := ports));
    case SetLeaving(value) => SettingKeeps(s, s.node.(leaving := value));
  }

  lemma StepKeeps(s: State, e: Event)
    requires Inv(s)
    ensures Inv(Step(s, e))
  {
    if IsSleeperStep(e) {
      SleeperStepKeeps(s, e);
    } else if ServerOf(e).Some? {
      ServerStepKeeps(s, e, ServerOf(e).value);
    } else {
      CallerStepKeeps(s, e);
    }
  }

  lemma NewKeeps()
    ensures Inv(NEW_NODE)
  {
    assert 0 in NEW_BOARD.made;
    assert BoardInv(NEW_BOARD);
  }

  lemma {:induction false} RunKeeps(events: seq<Event>)
    ensures Inv(Run(events))
  {
    if events == [] {
      NewKeeps();
    } else {
      RunKeeps(events[..|events| - 1]);
      StepKeeps(Run(events[..|events| - 1]), events[|events| - 1]);
    }
  }

  // ---- the promises, over every run ------------------------------------------------------------

  /** No server means no client, no listener and a node off or starting; a server means it is
      not off. A server is closed at most once, and only after its start came back. */
  lemma NodeIsConsistent(events: seq<Event>)
    ensures var s := Run(events);
      && (s.node.srv.None? ==>
            && s.node.lc.None? && s.node.listeners == map[]
            && (s.node.board.status.state == Off || s.node.board.status.state == Starting))
      && (s.node.srv.Some? ==> s.node.board.status.state != Off)
      && (forall x {:trigger s.servers[x]} :: 0 <= x < |s.servers| ==>
            s.servers[x].closes <= 1 && (s.servers[x].closes == 1 ==> s.servers[x].started && s.node.srv != Some(x)))
  {
    RunKeeps(events);
  }

  lemma OutStaysOut(s: State, e: Event, x: nat)
    requires x < |s.servers| && s.node.srv != Some(x)
    ensures x < |Step(s, e).servers| && Step(s, e).node.srv != Some(x)
  {
  }

  lemma OutIsSilent(s: State, e: Event, x: nat)
    requires s.node.srv != Some(x) && IsServerStep(e, x)
    ensures Step(s, e).node == s.node
  {
  }

  /** Once `stop` has taken a server out, it is never the node's again, and no step of its
      goroutines changes the status, the client or the listeners. */
  lemma {:induction false} TakenOutIsSilent(events: seq<Event>, later: seq<Event>, x: nat)
    requires x < |Run(events).servers| && Run(events).node.srv != Some(x)
    ensures x < |Run(events + later).servers| && Run(events + later).node.srv != Some(x)
    ensures forall e :: IsServerStep(e, x) ==> Step(Run(events + later), e).node == Run(events + later).node
    decreases |later|
  {
    if later == [] {
      assert events + later == events;
    } else {
      var init := later[..|later| - 1];
      assert (events + later)[..|events + later| - 1] == events + init;
      TakenOutIsSilent(events, init, x);
      OutStaysOut(Run(events + init), later[|later| - 1], x);
    }
    forall e | IsServerStep(e, x)
      ensures Step(Run(events + later), e).node == Run(events + later).node
    {
      OutIsSilent(Run(events + later), e, x);
    }
  }

  /** The channel a sleeper took at version `v` is closed by the very step that makes version
      `v + 1`: so as long as it is open the version is still `v`, and it never closes twice. */
  lemma NoLostWakeup(events: seq<Event>, i: nat)
    requires i < |Run(events).waiters|
    ensures var s := Run(events); var b := s.node.board; var w := s.waiters[i];
      && !b.panicked
      && (w.Asleep? ==> w.since <= b.version && (w.chan in b.closed <==> b.version != w.since))
      && (w.Asleep? && w.chan in b.closed ==> b.closed[w.chan] == w.since + 1)
      && (w.Answered? && !w.late ==> w.version != w.since)
  {
    RunKeeps(events);
    assert WaiterInv(Run(events).node.board, Run(events).waiters[i]);
  }

  predicate Posts(e: Event) { e.Start? || e.TakeOut? || e.Fail? || e.Refresh? || e.NoteError? }

  lemma OthersPostNothing(s: State, e: Event)
    requires !Posts(e)
    ensures Step(s, e).node.board == s.node.board
  {
  }

  /** A step leaves the board, or posts one status to it. */
  lemma StepPosts(s: State, e: Event) returns (posted: Option<Status>)
    ensures Step(s, e).node.board == if posted.Some? then Post(s.node.board, posted.value) else s.node.board
  {
    posted := None;
    if !Posts(e) {
      OthersPostNothing(s, e);
    } else if e.Start? {
      if s.node.srv.None? && e.dirReady {
        posted := Some(Plain(Starting));
      }
    } else if e.TakeOut? {
      posted := Some(Plain(if e.restarting then Starting else Off));
    } else {
      posted := ServerPosts(s, e);
    }
  }

  lemma ServerPosts(s: State, e: Event) returns (posted: Option<Status>)
    requires e.Fail? || e.Refresh? || e.NoteError?
    ensures Step(s, e).node.board == if posted.Some? then Post(s.node.board, posted.value) else s.node.board
  {
    posted := None;
    var x := ServerOf(e).value;
    if s.node.srv == Some(x) {
      if e.Fail? {
        posted := if At(s, x, Failing) then Some(Plain(Error).(error := e.msg)) else None;
      } else if At(s, x, Watching) {
        posted := Some(if e.Refresh? then Shown(s.node, e.backend) else s.node.board.status.(error := e.msg));
      }
    }
  }

  /** Versions only grow, one at a time, and a change closes the channel of the version before. */
  lemma VersionsOnlyGrow(events: seq<Event>, e: Event)
    ensures var a, b := Run(events).node.board, Step(Run(events), e).node.board;
      && a.version <= b.version <= a.version + 1
      && (b.version == a.version ==> b == a)
      && (b.version == a.version + 1 ==> a.changed !in a.closed && a.changed in b.closed && b.changed != a.changed)
  {
    RunKeeps(events);
    var posted := StepPosts(Run(events), e);
  }

  /** While the node has a server whose state is decided, no one waiting for it to run is
      asleep on an open channel: each has been, or is just being, woken to read it. */
  lemma NobodySleepsThrough(events: seq<Event>, i: nat)
    requires i < |Run(events).awaiters| && Run(events).awaiters[i].Sleeping?
    requires Run(events).node.srv.Some? && Decided(Run(events).node.board.status)
    ensures Run(events).awaiters[i].chan in Run(events).node.board.closed
  {
    RunKeeps(events);
    assert AwaiterInv(Run(events).node.board, Run(events).awaiters[i]);
  }

  /** `awaitRunning` hands out a server only when it read it together with the running state,
      and then it is the node's. */
  lemma GotWhileRunning(events: seq<Event>, i: nat, x: nat)
    requires i < |Run(events).awaiters| && Run(events).awaiters[i] != Got(x)
    requires Step(Run(events), AwaitReads(i)).awaiters[i] == Got(x)
    ensures Run(events).node.srv == Some(x) && Run(events).node.board.status.state == Running
    ensures x < |Run(events).servers| && Run(events).servers[x].closes == 0
  {
    RunKeeps(events);
  }

  /** After `relisten` every listener has the target its port should have, and every wanted
      port that could be listened on has one. */
  lemma RelistenMatches(n: Record, x: nat, listens: set<nat>)
    ensures var r := Relistened(n, x, listens);
      && (forall p :: p in r.listeners ==> p in n.ports && r.listeners[p].target == n.ports[p])
      && (forall p :: p in n.ports && p !in r.listeners ==> p !in listens)
      && (forall p :: p in r.listeners ==>
            || (p in n.listeners && r.listeners[p] == n.listeners[p])
            || (p in listens && r.listeners[p].server == x))
      && (forall p :: p in n.listeners && p in n.ports && n.ports[p] == n.listeners[p].target ==>
            p in r.listeners && r.listeners[p] == n.listeners[p])
  {
  }

  predicate KeepsLeaving(later: seq<Event>) { forall k :: 0 <= k < |later| ==> later[k] != SetLeaving(false) }

  /** Some more events from a state on. */
  function RunFrom(s: State, later: seq<Event>): State
  {
    if later == [] then s else Step(RunFrom(s, later[..|later| - 1]), later[|later| - 1])
  }

  lemma {:induction false} RunInParts(events: seq<Event>, later: seq<Event>)
    ensures Run(events + later) == RunFrom(Run(events), later)
    decreases |later|
  {
    if later == [] {
      assert events + later == events;
    } else {
      var init := later[..|later| - 1];
      assert (events + later)[..|events + later| - 1] == events + init;
      RunInParts(events, init);
    }
  }

  /** Signing out, and not shown as stopped. */
  predicate Signing(s: State) { s.node.leaving && s.node.board.status.state != Stopped }

  lemma {:induction false} LeavingRun(s: State, later: seq<Event>)
    requires Signing(s) && KeepsLeaving(later)
    ensures Signing(RunFrom(s, later))
    decreases |later|
  {
    if later != [] {
      var init := later[..|later| - 1];
      LeavingRun(s, init);
      LeavingStep(RunFrom(s, init), later[|later| - 1]);
    }
  }

  /** While the node signs out it is never shown as stopped, where its last state was another. */
  lemma LeavingIsNotStopped(events: seq<Event>, later: seq<Event>)
    requires Signing(Run(events)) && KeepsLeaving(later)
    ensures Signing(Run(events + later))
  {
    RunInParts(events, later);
    LeavingRun(Run(events), later);
  }

  lemma LeavingStep(s: State, e: Event)
    requires Signing(s) && e != SetLeaving(false)
    ensures Signing(Step(s, e))
  {
    var posted := StepPosts(s, e);
  }
}
