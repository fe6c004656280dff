/** The shared terminal as a guest's page keeps it (relay/public/app.js): output placed by
    byte offset, and a new subscription when some is missing. */
module Screen {
  import opened Hex

  /** What the page keeps (`terminal`, `end`, `resyncing`), with its history: `drawn` is the
      output written since the last seed, which ended at `base`; `screen` is everything
      written since the terminal was last cleared, and `snapshot` what was there when the page
      began to follow the output, at `origin`; `asked` is where each subscription asked to go on
      from, and `gaps` counts those made for a gap since the last seed. */
  datatype State = State(
    terminal: string, end: Option<nat>, resyncing: bool,
    base: nat, drawn: Bytes, snapshot: Bytes, origin: nat, screen: Bytes,
    asked: seq<Option<nat>>, gaps: nat)

  /** A seed that does not clear the terminal goes on from the offset its subscription named. */
  datatype Frame =
    | Ready(id: string)
    | Seed(id: string, d: Bytes, off: Option<nat>, clear: bool, from: nat)
    | Output(id: string, chunk: Bytes, upTo: nat)
    | Unrelated

  const START := State("", None, false, 0, [], [], 0, [], [], 0)

  function Subscribe(s: State): State { s.(asked := s.asked + [s.end]) }

  function Write(s: State, d: Bytes): State { s.(drawn := s.drawn + d, screen := s.screen + d) }

  function OnOutput(s: State, d: Bytes, off: nat): State
  {
    var start: int := off - |d|;
    if s.end.None? || off <= s.end.value then s
    else if start > s.end.value then
      if s.resyncing then s else Subscribe(s.(resyncing := true, gaps := s.gaps + 1))
    else Write(s, d[s.end.value - start..]).(end := Some(off))
  }

  /** The page begins to follow the output with a seed that clears the terminal, or one that
      comes while it has no offset. */
  function OnSeed(s: State, d: Bytes, off: Option<nat>, clear: bool, from: nat): State
  {
    s.(resyncing := false, gaps := 0, end := off, drawn := [],
       base := if off.Some? then off.value else 0,
       screen := if clear then d else s.screen + d,
       snapshot := if clear then d else if s.end.None? then s.screen else s.snapshot,
       origin := if clear && off.Some? then off.value else if !clear && s.end.None? then from else s.origin)
  }

  function Step(s: State, f: Frame): State
  {
    match f
    case Ready(id) => Subscribe(s.(terminal := id))
    case Seed(id, d, off, clear, from) => if id == s.terminal then OnSeed(s, d, off, clear, from) else s
    case Output(id, d, off) => if id == s.terminal then OnOutput(s, d, off) else s
    case Unrelated => s
  }

  function Run(frames: seq<Frame>): State
  {
    if frames == [] then START else Step(Run(frames[..|frames| - 1]), frames[|frames| - 1])
  }

  // ---- what the host may send ------------------------------------------------------------

  /** The host's output is one growing stream a terminal; `stream(id)` is all of it so far. A
      chunk is truthful when it is the piece of its terminal's stream that ends where it says.
      Of a seed without an offset nothing is known. */
  ghost predicate Truthful(stream: string -> Bytes, f: Frame)
  {
    match f
    case Seed(id, d, off, clear, from) =>
      && (off.Some? ==> off.value <= |stream(id)|)
      && (!clear && off.Some? ==> from <= off.value && d == stream(id)[from..off.value])
    case Output(id, d, off) => |d| <= off <= |stream(id)| && d == stream(id)[off - |d|..off]
    case _ => true
  }

  ghost predicate AllTruthful(stream: string -> Bytes, frames: seq<Frame>)
  {
    forall k :: 0 <= k < |frames| ==> Truthful(stream, frames[k])
  }

  /** Whether a page can go on to a terminal as it stands: it shows it already, or nothing of
      another one yet. */
  predicate CanShow(s: State, id: string) { id == s.terminal || s.end.None? || s.end == Some(0) }

  /** A `ready` that takes the page to another terminal in the middle of one's output. */
  predicate Misleads(frames: seq<Frame>, k: nat)
    requires k < |frames|
  {
    frames[k].Ready? && !CanShow(Run(frames[..k]), frames[k].id)
  }

  predicate Accepted(frames: seq<Frame>, k: nat)
    requires k < |frames|
  {
    frames[k].Seed? && frames[k].id == Run(frames[..k]).terminal
  }

  ghost predicate NoSwitch(frames: seq<Frame>)
  {
    forall k :: 0 <= k < |frames| ==> !Misleads(frames, k)
  }

  /** Every such `ready` is followed by a seed the page accepts. */
  ghost predicate Reseeded(frames: seq<Frame>)
  {
    forall k :: 0 <= k < |frames| && Misleads(frames, k) ==> exists j :: k < j < |frames| && Accepted(frames, j)
  }

  lemma Earlier(frames: seq<Frame>, n: nat, k: nat)
    requires k < n <= |frames|
    ensures Misleads(frames[..n], k) <==> Misleads(frames, k)
    ensures Accepted(frames[..n], k) <==> Accepted(frames, k)
  {
    assert frames[..n][..k] == frames[..k];
  }

  lemma FirstFrames(frames: seq<Frame>, n: nat)
    requires n <= |frames|
    ensures NoSwitch(frames) ==> NoSwitch(frames[..n])
    ensures forall stream :: AllTruthful(stream, frames) ==> AllTruthful(stream, frames[..n])
  {
    forall k | 0 <= k < n
      ensures Misleads(frames[..n], k) <==> Misleads(frames, k)
    {
      Earlier(frames, n, k);
    }
  }

  /** While no seed comes, none misleads the page either, and what was to be made good before
      was. */
  lemma ReseededBefore(frames: seq<Frame>, n: nat)
    requires n <= |frames| && Reseeded(frames) && forall j :: n <= j < |frames| ==> !Accepted(frames, j)
    ensures Reseeded(frames[..n]) && forall k :: n <= k < |frames| ==> !Misleads(frames, k)
  {
    forall k | 0 <= k < n && Misleads(frames[..n], k)
      ensures exists j :: k < j < n && Accepted(frames[..n], j)
    {
      Earlier(frames, n, k);
      var j :| k < j < |frames| && Accepted(frames, j);
      Earlier(frames, n, j);
    }
  }

  // ---- output since the last seed ---------------------------------------------------------

  ghost predicate Placed(s: State, stream: Bytes)
  {
    && (s.end.Some? ==> s.base <= s.end.value <= |stream| && s.drawn == stream[s.base..s.end.value])
    && (s.end.None? ==> s.drawn == [])
    && s.gaps == (if s.resyncing then 1 else 0)
  }

  lemma OutputKeeps(s: State, stream: Bytes, d: Bytes, off: nat)
    requires Placed(s, stream) && |d| <= off <= |stream| && d == stream[off - |d|..off]
    ensures Placed(OnOutput(s, d, off), stream)
  {
    var start := off - |d|;
    if s.end.Some? && start <= s.end.value < off {
      assert d[s.end.value - start..] == stream[s.end.value..off];
      assert stream[s.base..off] == stream[s.base..s.end.value] + stream[s.end.value..off];
    }
  }

  lemma StepPlaces(s: State, stream: string -> Bytes, f: Frame)
    requires Placed(s, stream(s.terminal)) && Truthful(stream, f)
    requires f.Ready? ==> CanShow(s, f.id)
    ensures Placed(Step(s, f), stream(Step(s, f).terminal))
  {
    if f.Output? && f.id == s.terminal {
      OutputKeeps(s, stream(s.terminal), f.chunk, f.upTo);
    }
  }

  /** A seed puts the page right whatever it was before, and so does one that clears the
      terminal the screen. */
  lemma SeedRepairs(s: State, stream: string -> Bytes, f: Frame)
    requires f.Seed? && f.id == s.terminal && Truthful(stream, f)
    ensures Placed(Step(s, f), stream(f.id))
    ensures f.clear ==> Faithful(Step(s, f), stream(f.id))
  {
    if f.off.Some? {
      assert stream(f.id)[f.off.value..f.off.value] == [];
    }
  }

  /** For any schedule of truthful chunks, lost, repeated, overlapping or out of order, in which
      a seed follows every switch in the middle of a terminal's output: what was drawn since the
      last seed is exactly the host's output from that seed's end to `end`, and no more than one
      subscription for a gap is unanswered. */
  lemma {:induction false} DrawnIsTheStream(stream: string -> Bytes, frames: seq<Frame>)
    requires Reseeded(frames) && AllTruthful(stream, frames)
    ensures var s := Run(frames);
      && (s.end.Some? ==>
            s.base <= s.end.value <= |stream(s.terminal)| && s.drawn == stream(s.terminal)[s.base..s.end.value])
      && (s.end.None? ==> s.drawn == [])
      && s.gaps == (if s.resyncing then 1 else 0)
  {
    if frames != [] {
      var n := |frames| - 1;
      var s := Run(frames[..n]);
      if Accepted(frames, n) {
        SeedRepairs(s, stream, frames[n]);
      } else {
        FirstFrames(frames, n);
        ReseededBefore(frames, n);
        DrawnIsTheStream(stream, frames[..n]);
        assert !Misleads(frames, n);
        StepPlaces(s, stream, frames[n]);
      }
    }
  }

  /** Between seeds `end` never goes back, and once drawn a byte is never drawn again. */
  lemma EndNeverGoesBack(s: State, f: Frame)
    requires !f.Seed?
    ensures var t := Step(s, f);
      && t.base == s.base && s.drawn <= t.drawn
      && (s.end.None? <==> t.end.None?)
      && (s.end.Some? ==> t.end.value >= s.end.value)
  {
  }

  lemma RunOne(frames: seq<Frame>, f: Frame)
    ensures Run(frames + [f]) == Step(Run(frames), f)
  {
    assert (frames + [f])[..|frames|] == frames;
  }

  /** A `ready` for another terminal keeps the page right exactly when that terminal's output is
      the same where the page has drawn the first one's. */
  lemma SwitchNeedsSameOutput(stream: string -> Bytes, frames: seq<Frame>, id: string)
    requires Reseeded(frames) && AllTruthful(stream, frames) && Run(frames).end.Some?
    ensures var s := Run(frames);
      var e, shown := s.end.value, stream(s.terminal);
      Placed(Run(frames + [Ready(id)]), stream(id))
      <==> e <= |stream(id)| && s.base <= e <= |shown| && stream(id)[s.base..e] == shown[s.base..e]
  {
    RunOne(frames, Ready(id));
    DrawnIsTheStream(stream, frames);
  }

  predicate Names(f: Frame, id: string) { (f.Seed? || f.Output?) && f.id == id }

  /** The same outputs, with nothing yet from one terminal. */
  function Silent(stream: string -> Bytes, id: string): string -> Bytes
  {
    (t: string) => if t == id then [] else stream(t)
  }

  lemma SilentIsTruthful(stream: string -> Bytes, id: string, frames: seq<Frame>)
    requires AllTruthful(stream, frames) && forall k :: 0 <= k < |frames| ==> !Names(frames[k], id)
    ensures AllTruthful(Silent(stream, id), frames)
  {
    forall k | 0 <= k < |frames|
      ensures Truthful(Silent(stream, id), frames[k])
    {
      var f := frames[k];
      assert Truthful(stream, f) && !Names(f, id);
      if f.Seed? || f.Output? {
        assert Silent(stream, id)(f.id) == stream(f.id);
      }
    }
  }

  lemma ReadyIsTruthful(stream: string -> Bytes, frames: seq<Frame>, id: string)
    ensures AllTruthful(stream, frames + [Ready(id)]) <==> AllTruthful(stream, frames)
  {
    var more := frames + [Ready(id)];
    assert forall k :: 0 <= k < |frames| ==> more[k] == frames[k];
    if AllTruthful(stream, more) {
      forall k | 0 <= k < |frames|
        ensures Truthful(stream, frames[k])
      {
        assert Truthful(stream, more[k]);
      }
    }
  }

  lemma SafeSwitch(stream: string -> Bytes, frames: seq<Frame>, id: string)
    requires Reseeded(frames) && AllTruthful(stream, frames) && CanShow(Run(frames), id)
    ensures Placed(Run(frames + [Ready(id)]), stream(id))
  {
    RunOne(frames, Ready(id));
    DrawnIsTheStream(stream, frames);
    StepPlaces(Run(frames), stream, Ready(id));
  }

  ghost predicate SwitchAlwaysSafe(frames: seq<Frame>, id: string)
  {
    forall stream: string -> Bytes ::
      AllTruthful(stream, frames + [Ready(id)]) ==> Placed(Run(frames + [Ready(id)]), stream(id))
  }

  /** Whatever the terminals put out, a `ready` keeps the page right exactly when it can go on to
      its terminal as it stands; otherwise some output of a terminal nothing was said of yet
      makes it wrong. */
  lemma SwitchMixes(stream: string -> Bytes, frames: seq<Frame>, id: string)
    requires Reseeded(frames) && AllTruthful(stream, frames)
    requires id != Run(frames).terminal ==> forall k :: 0 <= k < |frames| ==> !Names(frames[k], id)
    ensures SwitchAlwaysSafe(frames, id) <==> CanShow(Run(frames), id)
  {
    if CanShow(Run(frames), id) {
      forall other: string -> Bytes | AllTruthful(other, frames + [Ready(id)])
        ensures Placed(Run(frames + [Ready(id)]), other(id))
      {
        ReadyIsTruthful(other, frames, id);
        SafeSwitch(other, frames, id);
      }
    } else {
      var other := Silent(stream, id);
      SilentIsTruthful(stream, id, frames);
      ReadyIsTruthful(other, frames, id);
      RunOne(frames, Ready(id));
      assert other(id) == [];
      assert !Placed(Run(frames + [Ready(id)]), other(id));
    }
  }

  // ---- the whole screen -----------------------------------------------------------------------

  /** The screen shows what it was last filled with and then the host's output up to `end`. */
  ghost predicate Faithful(s: State, stream: Bytes)
  {
    s.end.Some? ==>
      s.origin <= s.end.value <= |stream| && s.screen == s.snapshot + stream[s.origin..s.end.value]
  }

  lemma OutputStaysFaithful(s: State, stream: Bytes, d: Bytes, off: nat)
    requires Faithful(s, stream) && |d| <= off <= |stream| && d == stream[off - |d|..off]
    ensures Faithful(OnOutput(s, d, off), stream)
  {
    var start := off - |d|;
    if s.end.Some? && start <= s.end.value < off {
      var more := d[s.end.value - start..];
      assert more == stream[s.end.value..off];
      assert stream[s.origin..off] == stream[s.origin..s.end.value] + more;
      assert s.snapshot + stream[s.origin..s.end.value] + more == s.snapshot + (stream[s.origin..s.end.value] + more);
    }
  }

  /** A seed keeps the screen right but for one case, in which it does exactly when it goes on
      from where the page is: it does not clear the terminal, and both have an offset. */
  lemma SeedIsFaithful(s: State, stream: string -> Bytes, f: Frame)
    requires f.Seed? && Truthful(stream, f) && f.id == s.terminal
    requires Faithful(s, stream(f.id))
    ensures f.clear || f.off.None? || s.end.None? ==> Faithful(Step(s, f), stream(f.id))
    ensures !f.clear && f.off.Some? && s.end.Some? ==>
              (Faithful(Step(s, f), stream(f.id)) <==> f.from == s.end.value)
  {
    var t, whole := Step(s, f), stream(f.id);
    if f.clear {
      SeedRepairs(s, stream, f);
    } else if f.off.Some? && s.end.Some? {
      var e, o := s.end.value, f.off.value;
      if f.from == e {
        assert whole[s.origin..o] == whole[s.origin..e] + whole[e..o];
        assert s.snapshot + whole[s.origin..e] + whole[e..o] == s.snapshot + (whole[s.origin..e] + whole[e..o]);
      } else {
        assert |t.screen| == |s.snapshot| + (e - s.origin) + (o - f.from);
      }
    }
  }

  /** Frame `k`, if it is an accepted seed with an offset that does not clear, goes on from where
      the page is, should it have an offset. */
  predicate GoesOn(frames: seq<Frame>, k: nat)
    requires k < |frames|
  {
    var s, f := Run(frames[..k]), frames[k];
    Accepted(frames, k) && !f.clear && f.off.Some? && s.end.Some? ==> s.end.value == f.from
  }

  /** What makes the screen wrong: a switch in the middle of a terminal's output, or a seed that
      does not go on from where the page is. */
  predicate Spoils(frames: seq<Frame>, k: nat)
    requires k < |frames|
  {
    Misleads(frames, k) || !GoesOn(frames, k)
  }

  /** A seed that clears the terminal comes after everything that does. */
  ghost predicate Refilled(frames: seq<Frame>)
  {
    forall k :: 0 <= k < |frames| && Spoils(frames, k) ==>
      exists j :: k < j < |frames| && Accepted(frames, j) && frames[j].clear
  }

  lemma RefilledBefore(frames: seq<Frame>)
    requires frames != [] && Refilled(frames)
    requires var n := |frames| - 1; !(Accepted(frames, n) && frames[n].clear)
    ensures Refilled(frames[..|frames| - 1]) && !Spoils(frames, |frames| - 1)
  {
    var n := |frames| - 1;
    forall k | 0 <= k < n && Spoils(frames[..n], k)
      ensures exists j :: k < j < n && Accepted(frames[..n], j) && frames[..n][j].clear
    {
      Earlier(frames, n, k);
      assert frames[..n][..k] == frames[..k];
      assert Spoils(frames, k);
      var j :| k < j < |frames| && Accepted(frames, j) && frames[j].clear;
      Earlier(frames, n, j);
    }
  }

  lemma StepFaithful(s: State, stream: string -> Bytes, f: Frame)
    requires Faithful(s, stream(s.terminal)) && Truthful(stream, f)
    requires f.Ready? ==> CanShow(s, f.id)
    requires f.Seed? && f.id == s.terminal && !f.clear && f.off.Some? && s.end.Some? ==> s.end.value == f.from
    ensures Faithful(Step(s, f), stream(Step(s, f).terminal))
  {
    if f.Output? && f.id == s.terminal {
      OutputStaysFaithful(s, stream(s.terminal), f.chunk, f.upTo);
    } else if f.Seed? && f.id == s.terminal {
      SeedIsFaithful(s, stream, f);
    }
  }

  /** Over every run in which a clearing seed follows every switch in the middle of a terminal's
      output and every seed that does not go on from where the page is: the screen is what was
      there when the page began to follow the output, and then the host's output up to `end`. */
  lemma {:induction false} ScreenIsFaithful(stream: string -> Bytes, frames: seq<Frame>)
    requires Refilled(frames) && AllTruthful(stream, frames)
    ensures Faithful(Run(frames), stream(Run(frames).terminal))
  {
    if frames != [] {
      var n := |frames| - 1;
      var s := Run(frames[..n]);
      if Accepted(frames, n) && frames[n].clear {
        SeedRepairs(s, stream, frames[n]);
      } else {
        FirstFrames(frames, n);
        RefilledBefore(frames);
        ScreenIsFaithful(stream, frames[..n]);
        assert GoesOn(frames, n) && !Misleads(frames, n);
        StepFaithful(s, stream, frames[n]);
      }
    }
  }

  ghost predicate AlwaysFaithful(stream: string -> Bytes, frames: seq<Frame>)
  {
    forall n :: 0 <= n <= |frames| ==> Faithful(Run(frames[..n]), stream(Run(frames[..n]).terminal))
  }

  lemma GoesOnBefore(frames: seq<Frame>, n: nat)
    requires n <= |frames| && NoSwitch(frames) && forall k :: 0 <= k < |frames| ==> GoesOn(frames, k)
    ensures Refilled(frames[..n])
  {
    forall k | 0 <= k < n
      ensures !Spoils(frames[..n], k)
    {
      Earlier(frames, n, k);
      assert frames[..n][..k] == frames[..k] && GoesOn(frames, k);
    }
  }

  /** Without such a switch the screen is right at every moment exactly when every seed goes on
      from where the page is. */
  lemma FaithfulExactlyWhen(stream: string -> Bytes, frames: seq<Frame>)
    requires NoSwitch(frames) && AllTruthful(stream, frames)
    ensures AlwaysFaithful(stream, frames) <==> forall k :: 0 <= k < |frames| ==> GoesOn(frames, k)
  {
    if forall k :: 0 <= k < |frames| ==> GoesOn(frames, k) {
      forall n | 0 <= n <= |frames|
        ensures Faithful(Run(frames[..n]), stream(Run(frames[..n]).terminal))
      {
        FirstFrames(frames, n);
        GoesOnBefore(frames, n);
        ScreenIsFaithful(stream, frames[..n]);
      }
    }
    if AlwaysFaithful(stream, frames) {
      forall k | 0 <= k < |frames|
        ensures GoesOn(frames, k)
      {
        if Accepted(frames, k) {
          OneMoreFrame(frames, k);
          var s := Run(frames[..k]);
          assert Faithful(s, stream(s.terminal));
          assert Faithful(Run(frames[..k + 1]), stream(Run(frames[..k + 1]).terminal));
          SeedIsFaithful(s, stream, frames[k]);
        }
      }
    }
  }

  lemma OneMoreFrame(frames: seq<Frame>, k: nat)
    requires k < |frames|
    ensures Run(frames[..k + 1]) == Step(Run(frames[..k]), frames[k])
  {
    assert frames[..k + 1][..k] == frames[..k];
  }

  // ---- seeds that answer a subscription ---------------------------------------------------------

  /** The last of the frames made the page subscribe from `from` on. */
  ghost predicate Asked(frames: seq<Frame>, from: nat)
  {
    && frames != []
    && Run(frames).asked == Run(frames[..|frames| - 1]).asked + [Some(from)]
  }

  ghost predicate NoSeed(a: seq<Frame>, b: seq<Frame>)
  {
    forall k :: |a| <= k < |a + b| ==> !Accepted(a + b, k)
  }

  /** While no seed comes, what was drawn only grows. */
  lemma {:induction false} DrawnGrows(a: seq<Frame>, b: seq<Frame>)
    requires NoSeed(a, b)
    ensures Run(a + b).base == Run(a).base && Run(a).drawn <= Run(a + b).drawn
    ensures Run(a).end.Some? <==> Run(a + b).end.Some?
    decreases |b|
  {
    if b == [] {
      assert a + b == a;
    } else {
      var n := |a + b| - 1;
      var init := b[..|b| - 1];
      assert (a + b)[..n] == a + init && (a + b)[..n + 1] == a + b;
      forall k | |a| <= k < n
        ensures !Accepted(a + init, k)
      {
        Earlier(a + b, n, k);
      }
      DrawnGrows(a, init);
      OneMoreFrame(a + b, n);
      var s, f := Run(a + init), (a + b)[n];
      assert !Accepted(a + b, n);
      if !f.Seed? {
        EndNeverGoesBack(s, f);
      }
    }
  }

  lemma LengthTells(s: State, t: State, first: Bytes, second: Bytes)
    requires Placed(s, first) && Placed(t, second) && s.base == t.base && s.drawn <= t.drawn
    requires s.end.Some? <==> t.end.Some?
    ensures t.end == s.end <==> t.drawn == s.drawn
  {
    if s.end.Some? {
      assert |s.drawn| == s.end.value - s.base && |t.drawn| == t.end.value - s.base;
    }
  }

  /** While no seed comes, `end` moves exactly when something is drawn. */
  lemma EndTellsDrawing(stream: string -> Bytes, a: seq<Frame>, b: seq<Frame>)
    requires Reseeded(a + b) && AllTruthful(stream, a + b) && NoSeed(a, b)
    ensures Run(a + b).end == Run(a).end <==> Run(a + b).drawn == Run(a).drawn
  {
    DrawnGrows(a, b);
    assert (a + b)[..|a|] == a;
    FirstFrames(a + b, |a|);
    ReseededBefore(a + b, |a|);
    var s, t := Run(a), Run(a + b);
    DrawnIsTheStream(stream, a);
    assert Placed(s, stream(s.terminal));
    DrawnIsTheStream(stream, a + b);
    LengthTells(s, t, stream(s.terminal), stream(t.terminal));
  }

  /** A subscription names where the page is. */
  lemma AskedIsEnd(frames: seq<Frame>, from: nat)
    requires Asked(frames, from)
    ensures Run(frames).end == Some(from)
  {
    var s, f := Run(frames[..|frames| - 1]), frames[|frames| - 1];
    var t := Run(frames);
    assert t.asked[|s.asked|] == Some(from);
  }

  /** A seed that goes on from where a subscription asked, with no seed since, keeps the screen
      right exactly when nothing was drawn since the subscription was sent. */
  lemma AnswerIsFaithful(stream: string -> Bytes, a: seq<Frame>, b: seq<Frame>, f: Frame)
    requires Reseeded(a + b) && AllTruthful(stream, a + b) && NoSeed(a, b)
    requires Faithful(Run(a + b), stream(Run(a + b).terminal))
    requires f.Seed? && !f.clear && f.off.Some? && Truthful(stream, f) && f.id == Run(a + b).terminal && Asked(a, f.from)
    ensures Faithful(Run(a + b + [f]), stream(f.id)) <==> Run(a + b).drawn == Run(a).drawn
  {
    RunOne(a + b, f);
    AskedIsEnd(a, f.from);
    DrawnGrows(a, b);
    EndTellsDrawing(stream, a, b);
    SeedIsFaithful(Run(a + b), stream, f);
  }

  const FIRST := Ready("a")
  const FILLED := Seed("a", [1], Some(1), true, 0)
  const AHEAD := Output("a", [4], 4)
  const BEFORE := [FIRST, FILLED, AHEAD]
  const LATE := Output("a", [2], 2)
  const ANSWER := Seed("a", [2, 3, 4], Some(4), false, 1)

  /** The page once it is filled, and once it has asked for what is missing. */
  const SHOWN := State("a", Some(1), false, 1, [], [1], 1, [1], [None], 0)
  const ASKING := State("a", Some(1), true, 1, [], [1], 1, [1], [None, Some(1)], 1)

  lemma FirstStep()
    ensures Run([FIRST]) == START.(terminal := "a", asked := [None])
  {
    RunOne([], FIRST);
    assert [] + [FIRST] == [FIRST];
    assert Subscribe(START.(terminal := "a")).asked == [None];
  }

  lemma SecondStep()
    ensures Step(START.(terminal := "a", asked := [None]), FILLED) == SHOWN
  {
    var s := START.(terminal := "a", asked := [None]);
    assert Step(s, FILLED) == OnSeed(s, [1], Some(1), true, 0);
  }

  lemma FilledIsShown()
    ensures Run([FIRST, FILLED]) == SHOWN
  {
    FirstStep();
    SecondStep();
    RunOne([FIRST], FILLED);
    assert [FIRST] + [FILLED] == [FIRST, FILLED];
  }

  lemma SubscribedForGap()
    ensures Run(BEFORE) == ASKING && Asked(BEFORE, 1) && NoSwitch(BEFORE)
  {
    FilledIsShown();
    RunOne([FIRST, FILLED], AHEAD);
    assert [FIRST, FILLED] + [AHEAD] == BEFORE;
    assert BEFORE[..2] == [FIRST, FILLED] && BEFORE[..0] == [];
    assert OnOutput(SHOWN, [4], 4) == ASKING;
  }

  const CAUGHT_UP := State("a", Some(2), true, 1, [2], [1], 1, [1, 2], [None, Some(1)], 1)

  lemma LateIsDrawn()
    ensures Run(BEFORE + [LATE]) == CAUGHT_UP
  {
    SubscribedForGap();
    RunOne(BEFORE, LATE);
    assert OnOutput(ASKING, [2], 2) == CAUGHT_UP;
  }

  lemma TheseAreTruthful(stream: string -> Bytes)
    requires stream("a") == [1, 2, 3, 4]
    ensures Truthful(stream, ANSWER) && AllTruthful(stream, BEFORE + [LATE])
  {
    var whole := stream("a");
    assert whole[1..2] == [2] && whole[3..4] == [4] && whole[1..4] == [2, 3, 4];
    assert Truthful(stream, FILLED) && Truthful(stream, AHEAD) && Truthful(stream, LATE);
  }

  /** It does happen: a piece that was thought lost comes after the subscription for it, is
      drawn, and is drawn again by the seed. */
  lemma LatePieceIsDrawnTwice(stream: string -> Bytes)
    requires stream("a") == [1, 2, 3, 4]
    ensures var b := [LATE];
      && NoSwitch(BEFORE + b) && AllTruthful(stream, BEFORE + b + [ANSWER]) && NoSeed(BEFORE, b) && Asked(BEFORE, 1)
      && Faithful(Run(BEFORE + b), stream("a")) && !Faithful(Run(BEFORE + b + [ANSWER]), stream("a"))
  {
    SubscribedForGap();
    LateIsDrawn();
    TheseAreTruthful(stream);
    RunOne(BEFORE + [LATE], ANSWER);
    assert stream("a")[1..2] == [2];
    assert |Run(BEFORE + [LATE] + [ANSWER]).screen| == 5;
    assert (BEFORE + [LATE])[..0] == [];
  }

  /** A page taken to another terminal then goes on to hold the first one's output for it. */
  lemma AnotherTerminalMixes(stream: string -> Bytes)
    requires stream("a") == [1, 2, 3, 4] && stream("b") == [9, 9]
    ensures var frames := BEFORE + [LATE] + [Ready("b")];
      AllTruthful(stream, frames) && Run(frames).terminal == "b" && !Placed(Run(frames), stream("b"))
  {
    LateIsDrawn();
    TheseAreTruthful(stream);
    ReadyIsTruthful(stream, BEFORE + [LATE], "b");
    RunOne(BEFORE + [LATE], Ready("b"));
    assert stream("b")[1..2] == [9];
  }

  // ---- the page itself --------------------------------------------------------------------------

  class Page {
    var terminal: string
    var end: Option<nat>
    var resyncing: bool
    /** What was sent and written, and where the last seeds ended. */
    var asked: seq<Option<nat>>
    var gaps: nat
    var base: nat
    var drawn: Bytes
    var snapshot: Bytes
    var origin: nat
    var screen: Bytes

    ghost function View(): State
      reads this
    {
      State(terminal, end, resyncing, base, drawn, snapshot, origin, screen, asked, gaps)
    }

    constructor ()
      ensures View() == START
    {
      terminal, end, resyncing := "", None, false;
      asked, gaps, base, origin := [], 0, 0, 0;
      drawn, snapshot, screen := [], [], [];
    }

    method SendSubscription()
      modifies this`asked
      ensures asked == old(asked) + [end]
    {
      asked := asked + [end];
    }

    method TermWrite(d: Bytes)
      modifies this`drawn, this`screen
      ensures drawn == old(drawn) + d && screen == old(screen) + d
    {
      drawn := drawn + d;
      screen := screen + d;
    }

    method OutputChunk(d: Bytes, off: nat)
      modifies this
      ensures View() == OnOutput(old(View()), d, off)
    {
      var start: int := off - |d|;
      if end.None? || off <= end.value {
        return;
      }
      if start > end.value {
        if !resyncing {
          resyncing := true;
          gaps := gaps + 1;
          SendSubscription();
        }
        return;
      }
      TermWrite(if start == end.value then d else d[end.value - start..]);
      end := Some(off);
    }

    method Seeded(d: Bytes, off: Option<nat>, clear: bool, from: nat)
      modifies this
      ensures View() == OnSeed(old(View()), d, off, clear, from)
    {
      resyncing := false;
      gaps := 0;
      if clear {
        screen := [];
        snapshot := d;
        if off.Some? {
          origin := off.value;
        }
      } else if end.None? {
        snapshot, origin := screen, from;
      }
      TermWrite(d);
      drawn := [];
      base := if off.Some? then off.value else 0;
      end := off;
    }

    method OnLive(f: Frame)
      modifies this
      ensures View() == Step(old(View()), f)
    {
      match f
      case Ready(id) =>
        terminal := id;
        SendSubscription();
      case Seed(id, d, off, clear, from) =>
        if id == terminal {
          Seeded(d, off, clear, from);
        }
      case Output(id, d, off) =>
        if id == terminal {
          OutputChunk(d, off);
        }
      case Unrelated =>
    }
  }
}
