/** The node as the object its methods change under the lock (tailnet/node/node.go): each
    critical section leaves the record where the state machine says. */
module NodeObject {
  import opened Hex
  import opened Node

  class TailnetNode {
    var srv: Option<nat>
    var lc: Option<nat>
    var ports: map<nat, string>
    var listeners: map<nat, Forward>
    var leaving: bool
    var cutOff: bool
    var status: Status
    var version: nat
    var changed: nat
    /** The channels made and closed so far. */
    var next: nat
    var made: map<nat, nat>
    var closed: map<nat, nat>
    var panicked: bool

    ghost function View(): Record
      reads this
    {
      Record(srv, lc, ports, listeners, leaving, cutOff, BoardNow())
    }

    ghost function BoardNow(): Board
      reads this
    {
      Board(status, version, changed, next, made, closed, panicked)
    }

    constructor ()
      ensures View() == NEW_NODE.node
    {
      srv, lc, ports, listeners := None, None, map[], map[];
      leaving, cutOff := false, false;
      status, version, changed, next := Plain(Off), 0, 0, 1;
      made, closed, panicked := map[0 := 0], map[], false;
    }

    method CloseChannel(c: nat)
      modifies this`closed, this`panicked
      ensures closed == old(closed)[c := version] && panicked == (old(panicked) || c in old(closed))
    {
      if c in closed {
        panicked := true;
      }
      closed := closed[c := version];
    }

    method MakeChannel() returns (c: nat)
      modifies this`made, this`next
      ensures c == old(next) && next == c + 1 && made == old(made)[c := version]
    {
      c := next;
      made := made[c := version];
      next := next + 1;
    }

    /** `setLocked`. */
    method SetLocked(s: Status)
      modifies this`status, this`version, this`changed, this`next, this`made, this`closed, this`panicked
      ensures BoardNow() == Post(old(BoardNow()), s)
    {
      if s == status && version != 0 {
        return;
      }
      status := s;
      version := version + 1;
      CloseChannel(changed);
      changed := MakeChannel();
    }

    method Start(x: nat, dirReady: bool) returns (ok: bool)
      modifies this
      ensures ok <==> old(srv).Some? || dirReady
      ensures forall s: State :: s.node == old(View()) && |s.servers| == x ==>
                View() == Step(s, Event.Start(dirReady)).node
    {
      if srv.Some? {
        return true;
      }
      if !dirReady {
        return false;
      }
      srv := Some(x);
      SetLocked(Plain(Starting));
      return true;
    }

    method CloseListeners()
      modifies this`listeners
      ensures listeners == map[]
    {
      while listeners != map[]
        decreases |listeners|
      {
        var port :| port in listeners;
        assert |listeners.Keys - {port}| < |listeners.Keys|;
        listeners := listeners - {port};
      }
    }

    method LetGo(restarting: bool) returns (taken: Option<nat>)
      modifies this
      ensures taken == old(srv) && View() == TakenOut(old(View()), restarting)
    {
      taken := srv;
      srv, lc := None, None;
      cutOff := false;
      CloseListeners();
      SetLocked(Plain(if restarting then Starting else Off));
    }

    /** The locked part of `stop`; what it returns is the caller's to close. */
    method TakeOut(restarting: bool) returns (taken: Option<nat>)
      modifies this
      ensures forall s: State :: s.node == old(View()) ==>
                && View() == Step(s, Event.TakeOut(restarting)).node
                && Step(s, Event.TakeOut(restarting)).stoppers ==
                     (if taken.Some? then s.stoppers + multiset{taken.value} else s.stoppers)
    {
      taken := LetGo(restarting);
    }

    method SetClient(x: nat) returns (current: bool)
      modifies this
      ensures forall s: State :: s.node == old(View()) && At(s, x, Connecting) ==>
                var t := Step(s, Event.SetClient(x));
                View() == t.node && t.servers[x].phase == if current then Watching else Finished
    {
      current := srv == Some(x);
      if current {
        lc := Some(x);
      }
    }

    method CopyPorts(wanted: map<nat, string>)
      modifies this`ports
      ensures ports == wanted
    {
      ports := map[];
      var left := wanted.Keys;
      while left != {}
        invariant left <= wanted.Keys
        invariant ports == map p | p in wanted && p !in left :: wanted[p]
        decreases left
      {
        var p :| p in left;
        ports := ports[p := wanted[p]];
        left := left - {p};
      }
    }

    /** The locked part of `SetForwards`. */
    method SetPorts(wanted: map<nat, string>)
      modifies this`ports
      ensures forall s: State :: s.node == old(View()) ==> View() == Step(s, Event.SetForwards(wanted)).node
    {
      CopyPorts(wanted);
    }

    method CloseUnwanted()
      modifies this`listeners
      ensures listeners == Wanted(old(listeners), ports)
    {
      var before := listeners;
      var left := before.Keys;
      while left != {}
        invariant left <= before.Keys
        invariant listeners.Keys <= before.Keys
        invariant forall p :: p in before ==>
                    (p in listeners <==> p in left || (p in ports && ports[p] == before[p].target))
        invariant forall p :: p in listeners ==> listeners[p] == before[p]
        decreases left
      {
        var p :| p in left;
        if p !in ports || ports[p] != before[p].target {
          listeners := listeners - {p};
        }
        left := left - {p};
      }
    }

    method ListenMissing(x: nat, listens: set<nat>)
      modifies this`listeners
      ensures listeners == old(listeners) + Missing(old(listeners), ports, x, listens)
    {
      var kept := listeners;
      var left := ports.Keys;
      while left != {}
        invariant left <= ports.Keys
        invariant forall p :: p in listeners <==> p in kept || (p in ports && p !in left && p in listens)
        invariant forall p :: p in listeners ==> listeners[p] == if p in kept then kept[p] else Forward(ports[p], x)
        decreases left
      {
        var p :| p in left;
        if p !in listeners && p in listens {
          listeners := listeners[p := Forward(ports[p], x)];
        }
        left := left - {p};
      }
    }

    /** Closes what is no longer wanted, then listens on what is missing; `listens` are the
        ports the server can listen on. */
    method Relisten(x: nat, listens: set<nat>)
      modifies this`listeners
      ensures forall s: State :: s.node == old(View()) ==> View() == Step(s, Event.Relisten(x, listens)).node
    {
      if srv == Some(x) {
        CloseUnwanted();
        ListenMissing(x, listens);
      }
    }

    method Show(b: Backend)
      modifies this
      ensures View() == Refreshed(old(View()), b)
    {
      var s := FromStatus(b);
      if leaving && s.state == Stopped {
        s := Plain(NeedsLogin);
      }
      if s.state == Running && cutOff && s.error == "" {
        s := s.(error := RELAY_UNREACHABLE);
      }
      assert s == Shown(old(View()), b);
      SetLocked(s);
    }

    method Refresh(x: nat, b: Backend)
      modifies this
      ensures forall s: State :: s.node == old(View()) && At(s, x, Watching) ==>
                View() == Step(s, Event.Refresh(x, b)).node
    {
      if srv == Some(x) {
        Show(b);
      }
    }

    method SetCutOff(x: nat, v: bool)
      modifies this`cutOff
      ensures forall s: State :: s.node == old(View()) && At(s, x, Watching) ==>
                View() == Step(s, Event.SetCutOff(x, v)).node
    {
      if srv == Some(x) {
        cutOff := v;
      }
    }

    method Fail(x: nat, msg: string)
      modifies this
      ensures forall s: State :: s.node == old(View()) && At(s, x, Failing) ==>
                View() == Step(s, Event.Fail(x, msg)).node
    {
      if srv == Some(x) {
        SetLocked(Plain(Error).(error := msg));
      }
    }

    method NoteError(x: nat, msg: string)
      modifies this
      ensures forall s: State :: s.node == old(View()) && At(s, x, Watching) ==>
                View() == Step(s, Event.NoteError(x, msg)).node
    {
      if srv == Some(x) {
        SetLocked(status.(error := msg));
      }
    }

    /** The locked part of one round of `awaitRunning`. */
    method ReadForDial() returns (a: Awaiter)
      ensures forall s: State, i: nat :: s.node == View() && i < |s.awaiters| && s.awaiters[i] == Reading ==>
                Step(s, AwaitReads(i)).awaiters[i] == a
    {
      if srv.None? {
        return Sleeping(None, status, changed);
      }
      match status.state {
        case Running => return Got(srv.value);
        case Stopped => return Refused;
        case Error => return Refused;
        case NeedsApproval => return Refused;
        case NeedsLogin =>
          if status.authURL != "" {
            return Refused;
          }
        case _ =>
      }
      return Sleeping(srv, status, changed);
    }
  }
}
