/** Waiting until a project's agents have settled (cli/src/waitagent.rs), told by polling what
    each of them last reported. */
module AgentWatch {
  import opened Hex

  datatype Entry = Entry(key: string, value: string, pane: string, timestamp: int)

  const RUNNING := "Running"

  predicate Other(own: Option<string>, e: Entry) { own != Some(e.pane) }

  // ---- what the answer to a poll is, told from all the polls ------------------------------------

  predicate Reports(own: Option<string>, poll: seq<Entry>, key: string, timestamp: int)
  {
    exists e :: e in poll && Other(own, e) && e.key == key && e.timestamp == timestamp
  }

  predicate Present(own: Option<string>, poll: seq<Entry>, key: string)
  {
    exists e :: e in poll && Other(own, e) && e.key == key
  }

  predicate Works(own: Option<string>, poll: seq<Entry>, key: string)
  {
    exists e :: e in poll && Other(own, e) && e.key == key && e.value == RUNNING
  }

  /** The agents have settled at poll `i`: none is working, and one has reported something the
      first poll did not have or one that was seen working is gone. */
  ghost predicate Settled(own: Option<string>, polls: seq<seq<Entry>>, i: nat)
    requires 0 < i < |polls|
  {
    && (forall key :: !Works(own, polls[i], key))
    && ((exists key, at :: Reports(own, polls[i], key, at) && !Reports(own, polls[0], key, at))
        || (exists key, j :: 0 <= j <= i && Works(own, polls[j], key) && !Present(own, polls[i], key)))
  }

  // ---- the watch ------------------------------------------------------------------------------------

  function Others(own: Option<string>, poll: seq<Entry>): (r: seq<Entry>)
    ensures forall e :: e in r <==> e in poll && Other(own, e)
  {
    if poll == [] then []
    else Others(own, poll[..|poll| - 1]) + if Other(own, poll[|poll| - 1]) then [poll[|poll| - 1]] else []
  }

  function Pairs(entries: seq<Entry>): set<(string, int)> { set e | e in entries :: (e.key, e.timestamp) }

  function WorkingKeys(entries: seq<Entry>): set<string> { set e | e in entries && e.value == RUNNING :: e.key }

  ghost function SeenWorking(own: Option<string>, polls: seq<seq<Entry>>): set<string>
  {
    if polls == [] then {}
    else SeenWorking(own, polls[..|polls| - 1]) + WorkingKeys(Others(own, polls[|polls| - 1]))
  }

  lemma WorkingIsWorks(own: Option<string>, poll: seq<Entry>, key: string)
    ensures key in WorkingKeys(Others(own, poll)) <==> Works(own, poll, key)
  {
  }

  ghost predicate WorksIn(own: Option<string>, polls: seq<seq<Entry>>, key: string)
  {
    exists j :: 0 <= j < |polls| && Works(own, polls[j], key)
  }

  lemma WorksInGrows(own: Option<string>, polls: seq<seq<Entry>>, poll: seq<Entry>, key: string)
    ensures WorksIn(own, polls + [poll], key) <==> WorksIn(own, polls, key) || Works(own, poll, key)
  {
    var more := polls + [poll];
    if j :| 0 <= j < |polls| && Works(own, polls[j], key) {
      assert more[j] == polls[j];
    }
    if Works(own, poll, key) {
      assert more[|polls|] == poll;
    }
  }

  lemma {:induction false} SeenIsWorks(own: Option<string>, polls: seq<seq<Entry>>, key: string)
    ensures key in SeenWorking(own, polls) <==> WorksIn(own, polls, key)
  {
    if polls != [] {
      var init, last := polls[..|polls| - 1], polls[|polls| - 1];
      assert polls == init + [last];
      SeenIsWorks(own, init, key);
      WorkingIsWorks(own, last, key);
      WorksInGrows(own, init, last, key);
    }
  }

  class Watch {
    const own: Option<string>
    var before: set<(string, int)>
    var seenRunning: set<string>
    ghost var polls: seq<seq<Entry>>

    ghost predicate Valid()
      reads this
    {
      && polls != []
      && before == Pairs(Others(own, polls[0]))
      && seenRunning == SeenWorking(own, polls)
    }

    constructor (own: Option<string>, entries: seq<Entry>)
      ensures Valid() && this.own == own && polls == [entries]
    {
      this.own := own;
      this.before := Pairs(Others(own, entries));
      this.seenRunning := WorkingKeys(Others(own, entries));
      this.polls := [entries];
      new;
      assert [entries][..0] == [];
    }

    /** `note_running`. */
    method NoteRunning(others: seq<Entry>)
      modifies this`seenRunning
      ensures seenRunning == old(seenRunning) + WorkingKeys(others)
    {
      var i := 0;
      while i < |others|
        invariant 0 <= i <= |others|
        invariant seenRunning == old(seenRunning) + WorkingKeys(others[..i])
      {
        assert others[..i + 1] == others[..i] + [others[i]];
        if others[i].value == RUNNING {
          seenRunning := seenRunning + {others[i].key};
        }
        i := i + 1;
      }
      assert others[..i] == others;
    }

    /** `settled`: takes one poll's entries. */
    method TakePoll(entries: seq<Entry>) returns (settled: bool)
      requires Valid()
      modifies this
      ensures Valid() && before == old(before) && polls == old(polls) + [entries]
      ensures settled <==> Settled(own, polls, |polls| - 1)
    {
      var others := Others(own, entries);
      NoteRunning(others);
      polls := polls + [entries];
      assert polls[..|polls| - 1] == old(polls);
      AnswerIsSettled(own, polls);
      if WorkingKeys(others) != {} {
        return false;
      }
      var reported := Pairs(others) - before != {};
      var finished := seenRunning - (set e | e in others :: e.key) != {};
      settled := reported || finished;
    }
  }

  /** The sets the watch keeps answer for all the polls it took. */
  lemma AnswerIsSettled(own: Option<string>, polls: seq<seq<Entry>>)
    requires |polls| > 1
    ensures var others := Others(own, polls[|polls| - 1]);
      Settled(own, polls, |polls| - 1) <==>
      && WorkingKeys(others) == {}
      && (Pairs(others) - Pairs(Others(own, polls[0])) != {}
          || SeenWorking(own, polls) - (set e | e in others :: e.key) != {})
  {
    var i := |polls| - 1;
    var others := Others(own, polls[i]);
    NoneWorks(own, polls[i]);
    NewReport(own, polls[0], polls[i]);
    OneGone(own, polls);
  }

  lemma NoneWorks(own: Option<string>, poll: seq<Entry>)
    ensures WorkingKeys(Others(own, poll)) == {} <==> forall key :: !Works(own, poll, key)
  {
    forall key
      ensures key in WorkingKeys(Others(own, poll)) <==> Works(own, poll, key)
    {
    }
  }

  lemma NewReport(own: Option<string>, first: seq<Entry>, poll: seq<Entry>)
    ensures Pairs(Others(own, poll)) - Pairs(Others(own, first)) != {}
       <==> exists key, at :: Reports(own, poll, key, at) && !Reports(own, first, key, at)
  {
    forall key, at
      ensures (key, at) in Pairs(Others(own, poll)) - Pairs(Others(own, first))
         <==> Reports(own, poll, key, at) && !Reports(own, first, key, at)
    {
    }
    if p :| p in Pairs(Others(own, poll)) - Pairs(Others(own, first)) {
      assert Reports(own, poll, p.0, p.1) && !Reports(own, first, p.0, p.1);
    }
  }

  lemma OneGone(own: Option<string>, polls: seq<seq<Entry>>)
    requires |polls| > 1
    ensures var i := |polls| - 1;
      SeenWorking(own, polls) - (set e | e in Others(own, polls[i]) :: e.key) != {}
      <==> exists key, j :: 0 <= j <= i && Works(own, polls[j], key) && !Present(own, polls[i], key)
  {
    var i := |polls| - 1;
    var gone := SeenWorking(own, polls) - (set e | e in Others(own, polls[i]) :: e.key);
    forall key
      ensures key in gone <==> !Present(own, polls[i], key) && exists j :: 0 <= j <= i && Works(own, polls[j], key)
    {
      SeenIsWorks(own, polls, key);
    }
    if key :| key in gone {
      assert !Present(own, polls[i], key);
    }
  }

  // ---- what follows for a wait -----------------------------------------------------------------------

  /** A poll that fails reads as one without entries. */
  function Polled(reply: Option<seq<Entry>>): seq<Entry> { if reply.Some? then reply.value else [] }

  function AllPolled(replies: seq<Option<seq<Entry>>>): seq<seq<Entry>>
  {
    seq(|replies|, i requires 0 <= i < |replies| => Polled(replies[i]))
  }

  ghost predicate NotBefore(own: Option<string>, polls: seq<seq<Entry>>, n: nat)
    requires n <= |polls|
  {
    forall i :: 0 < i < n ==> !Settled(own, polls, i)
  }

  /** `run`: polls until the agents have settled, or the replies end at the deadline. It stops
      at the first poll that settles them. */
  method Wait(own: Option<string>, replies: seq<Option<seq<Entry>>>) returns (at: Option<nat>)
    requires replies != []
    ensures at.Some? ==> 0 < at.value < |replies| && Settled(own, AllPolled(replies), at.value)
    ensures NotBefore(own, AllPolled(replies), if at.Some? then at.value else |replies|)
  {
    var watch := new Watch(own, Polled(replies[0]));
    ghost var polls := AllPolled(replies);
    var i := 1;
    while i < |replies|
      invariant 1 <= i <= |replies|
      invariant fresh(watch) && watch.Valid() && watch.own == own
      invariant watch.polls == polls[..i]
      invariant NotBefore(own, polls, i)
    {
      var settled := watch.TakePoll(Polled(replies[i]));
      OneMorePoll(own, polls, i);
      if settled {
        return Some(i);
      }
      i := i + 1;
    }
    return None;
  }

  lemma OneMorePoll(own: Option<string>, polls: seq<seq<Entry>>, i: nat)
    requires 0 < i < |polls| && NotBefore(own, polls, i)
    ensures polls[..i] + [polls[i]] == polls[..i + 1]
    ensures Settled(own, polls[..i + 1], i) <==> Settled(own, polls, i)
    ensures !Settled(own, polls, i) ==> NotBefore(own, polls, i + 1)
  {
    LaterPollsDoNotMatter(own, polls, i);
  }

  lemma LaterPollsDoNotMatter(own: Option<string>, polls: seq<seq<Entry>>, i: nat)
    requires 0 < i < |polls|
    ensures Settled(own, polls[..i + 1], i) <==> Settled(own, polls, i)
  {
    assert forall j :: 0 <= j <= i ==> polls[..i + 1][j] == polls[j];
  }

  /** The same entries but for those of the caller's own pane. */
  ghost predicate SameBut(own: Option<string>, a: seq<Entry>, b: seq<Entry>)
  {
    forall e: Entry :: own.None? || own.value != e.pane ==> (e in a <==> e in b)
  }

  /** A first report settles a wait exactly when it comes from another pane and from an agent that
      is not working. */
  lemma OtherPanesMatter(own: Option<string>, e: Entry)
    ensures Settled(own, [[], [e]], 1) <==> (own.None? || own.value != e.pane) && e.value != "Running"
  {
    var polls := [[], [e]];
    assert e in polls[1];
    assert Other(own, e) ==> Reports(own, polls[1], e.key, e.timestamp) && !Reports(own, polls[0], e.key, e.timestamp);
    assert Other(own, e) && e.value == RUNNING ==> Works(own, polls[1], e.key);
  }

  lemma SameOthersSameFacts(own: Option<string>, a: seq<Entry>, b: seq<Entry>, key: string, at: int)
    requires SameBut(own, a, b)
    ensures Reports(own, a, key, at) <==> Reports(own, b, key, at)
    ensures Present(own, a, key) <==> Present(own, b, key)
    ensures Works(own, a, key) <==> Works(own, b, key)
  {
    assert forall e :: e in a && Other(own, e) <==> e in b && Other(own, e);
  }

  lemma SameOthersSettleAlike(own: Option<string>, a: seq<seq<Entry>>, b: seq<seq<Entry>>, i: nat)
    requires |a| == |b| && 0 < i < |a| && Settled(own, a, i)
    requires forall j :: 0 <= j < |a| ==> SameBut(own, a[j], b[j])
    ensures Settled(own, b, i)
  {
    forall key
      ensures !Works(own, b[i], key)
    {
      SameOthersSameFacts(own, a[i], b[i], key, 0);
    }
    if key, at :| Reports(own, a[i], key, at) && !Reports(own, a[0], key, at) {
      SameOthersSameFacts(own, a[i], b[i], key, at);
      SameOthersSameFacts(own, a[0], b[0], key, at);
    } else {
      var key, j :| 0 <= j <= i && Works(own, a[j], key) && !Present(own, a[i], key);
      SameOthersSameFacts(own, a[j], b[j], key, 0);
      SameOthersSameFacts(own, a[i], b[i], key, 0);
    }
  }

  /** What the caller's own pane reports never changes an answer. */
  lemma OwnPaneDoesNotMatter(own: Option<string>, a: seq<seq<Entry>>, b: seq<seq<Entry>>, i: nat)
    requires |a| == |b| && 0 < i < |a|
    requires forall j :: 0 <= j < |a| ==> SameBut(own, a[j], b[j])
    ensures Settled(own, a, i) <==> Settled(own, b, i)
  {
    if Settled(own, a, i) {
      SameOthersSettleAlike(own, a, b, i);
    }
    if Settled(own, b, i) {
      SameOthersSettleAlike(own, b, a, i);
    }
  }

  /** A poll that fails reads as nothing new exactly while no agent has been seen working; after
      that the failure itself ends the wait. */
  lemma FailedPollSettles(own: Option<string>, replies: seq<Option<seq<Entry>>>, i: nat)
    requires 0 < i < |replies| && replies[i].None?
    ensures Settled(own, AllPolled(replies), i)
       <==> exists key, j :: 0 <= j < i && Works(own, AllPolled(replies)[j], key)
  {
    var polls := AllPolled(replies);
    assert polls[i] == [];
    if key, j :| 0 <= j < i && Works(own, polls[j], key) {
      assert !Present(own, polls[i], key);
    }
  }

  /** Statuses left from before the wait do not settle it: as long as polls bring nothing the
      first one did not have, and nobody works, the wait goes on. */
  lemma LeftoversDoNotSettle(own: Option<string>, polls: seq<seq<Entry>>, i: nat)
    requires 0 < i < |polls|
    requires forall key, at :: Reports(own, polls[i], key, at) ==> Reports(own, polls[0], key, at)
    requires forall j, key :: 0 <= j <= i ==> !Works(own, polls[j], key)
    ensures !Settled(own, polls, i)
  {
  }

  // ---- when the first poll fails -----------------------------------------------------------------

  ghost predicate NobodyWorks(own: Option<string>, poll: seq<Entry>) { forall key :: !Works(own, poll, key) }

  ghost predicate SomeoneReports(own: Option<string>, poll: seq<Entry>)
  {
    exists key, at :: Reports(own, poll, key, at)
  }

  ghost predicate SomethingNew(own: Option<string>, first: seq<Entry>, poll: seq<Entry>)
  {
    exists key, at :: Reports(own, poll, key, at) && !Reports(own, first, key, at)
  }

  /** Someone seen working in the polls from `from` to `i` is gone at `i`. */
  ghost predicate WorkerGone(own: Option<string>, polls: seq<seq<Entry>>, from: nat, i: nat)
    requires i < |polls|
  {
    exists key, j :: from <= j <= i && Works(own, polls[j], key) && !Present(own, polls[i], key)
  }

  lemma NothingReported(own: Option<string>, poll: seq<Entry>)
    requires !SomeoneReports(own, poll)
    ensures forall key :: !Present(own, poll, key)
    ensures NobodyWorks(own, poll)
  {
    if e :| e in poll && Other(own, e) {
      assert Reports(own, poll, e.key, e.timestamp);
    }
  }

  /** With the first poll lost, a poll settles the wait when anyone reports or someone seen
      working later is gone. */
  lemma SettledWithoutFirst(own: Option<string>, rest: seq<seq<Entry>>, i: nat)
    requires 0 < i <= |rest|
    ensures var polls := [[]] + rest;
      Settled(own, polls, i)
      <==> NobodyWorks(own, polls[i]) && (SomeoneReports(own, polls[i]) || WorkerGone(own, polls, 1, i))
  {
    var polls := [[]] + rest;
    forall key, at
      ensures !Reports(own, polls[0], key, at) && !Works(own, polls[0], key)
    {
    }
    if SomeoneReports(own, polls[i]) {
      var key, at :| Reports(own, polls[i], key, at);
      assert Reports(own, polls[i], key, at) && !Reports(own, polls[0], key, at);
    }
    if Settled(own, polls, i) && !SomeoneReports(own, polls[i]) {
      var key, j :| 0 <= j <= i && Works(own, polls[j], key) && !Present(own, polls[i], key);
      assert j != 0;
    }
  }

  lemma SettledWithFirst(own: Option<string>, polls: seq<seq<Entry>>, i: nat)
    requires 0 < i < |polls|
    ensures Settled(own, polls, i)
       <==> NobodyWorks(own, polls[i]) && (SomethingNew(own, polls[0], polls[i]) || WorkerGone(own, polls, 0, i))
  {
  }

  lemma GoneLater(own: Option<string>, a: seq<seq<Entry>>, b: seq<seq<Entry>>, i: nat)
    requires |a| == |b| && i < |a| && forall j :: 0 < j < |a| ==> a[j] == b[j]
    ensures WorkerGone(own, a, 1, i) ==> i > 0 && WorkerGone(own, b, 1, i)
  {
    if WorkerGone(own, a, 1, i) {
      var key, j :| 1 <= j <= i && Works(own, a[j], key) && !Present(own, a[i], key);
      assert Works(own, b[j], key) && !Present(own, b[i], key);
    }
  }

  lemma GoneFromFirst(own: Option<string>, polls: seq<seq<Entry>>, i: nat)
    requires i < |polls|
    ensures WorkerGone(own, polls, 0, i)
       <==> WorkerGone(own, polls, 1, i) || exists key :: Works(own, polls[0], key) && !Present(own, polls[i], key)
  {
    if key, j :| 0 <= j <= i && Works(own, polls[j], key) && !Present(own, polls[i], key) {
      assert j == 0 || 1 <= j;
    }
    if key :| Works(own, polls[0], key) && !Present(own, polls[i], key) {
      assert 0 <= 0 <= i && Works(own, polls[0], key) && !Present(own, polls[i], key);
    }
  }

  /** When the first poll fails, the wait ends at `i` where it would not have exactly when old
      reports pass for new ones, and goes on at `i` where it would have ended exactly when all
      that told was that an agent working at first is gone. */
  lemma FailedFirstPoll(own: Option<string>, first: seq<Entry>, rest: seq<seq<Entry>>, i: nat)
    requires 0 < i <= |rest|
    ensures var a, b := [first] + rest, [[]] + rest;
      && (Settled(own, b, i) && !Settled(own, a, i) <==>
            && NobodyWorks(own, rest[i - 1]) && SomeoneReports(own, rest[i - 1])
            && !SomethingNew(own, first, rest[i - 1]) && !WorkerGone(own, a, 0, i))
      && (Settled(own, a, i) && !Settled(own, b, i) <==>
            && !SomeoneReports(own, rest[i - 1]) && !WorkerGone(own, a, 1, i)
            && exists key :: Works(own, first, key))
  {
    var a, b := [first] + rest, [[]] + rest;
    SettledWithFirst(own, a, i);
    SettledWithoutFirst(own, rest, i);
    GoneLater(own, a, b, i);
    GoneLater(own, b, a, i);
    GoneFromFirst(own, a, i);
    if !SomeoneReports(own, rest[i - 1]) {
      NothingReported(own, rest[i - 1]);
    }
  }

  /** Both happen: an agent done long ago ends the wait, and one that worked when the wait began
      and is gone by the next poll no longer does. */
  lemma FailedFirstPollMisleads(done: Entry, busy: Entry)
    requires done.value == "Done" && busy.value == RUNNING
    ensures !Settled(None, AllPolled([Some([done]), Some([done])]), 1)
         && Settled(None, AllPolled([None, Some([done])]), 1)
    ensures Settled(None, AllPolled([Some([busy]), Some([])]), 1)
         && !Settled(None, AllPolled([None, Some([])]), 1)
  {
    assert AllPolled([Some([done]), Some([done])]) == [[done]] + [[done]];
    assert AllPolled([None, Some([done])]) == [[]] + [[done]];
    assert AllPolled([Some([busy]), Some([])]) == [[busy]] + [[]];
    assert AllPolled([None, Some([])]) == [[]] + [[]];
    FailedFirstPoll(None, [done], [[done]], 1);
    FailedFirstPoll(None, [busy], [[]], 1);
    assert done in [done] && busy in [busy];
    assert Reports(None, [done], done.key, done.timestamp);
    assert Works(None, [busy], busy.key);
    var polls := [[done]] + [[done]];
    forall j, key | 0 <= j <= 1
      ensures !Works(None, polls[j], key)
    {
      assert polls[j] == [done];
    }
  }
}
