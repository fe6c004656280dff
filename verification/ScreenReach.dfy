/** How far a page comes, and when it asks again, told from the frames alone. */
module ScreenReach {
  import opened Hex
  import opened Screen

  /** A chunk of the terminal the page is showing. */
  predicate Shown(frames: seq<Frame>, k: nat)
    requires k < |frames|
  {
    frames[k].Output? && frames[k].id == Run(frames[..k]).terminal
  }

  function StartOf(f: Frame): int
    requires f.Output?
  {
    f.upTo - |f.chunk|
  }

  /** A chunk that begins past what the page has. */
  predicate Gap(frames: seq<Frame>, k: nat)
    requires k < |frames|
  {
    && Shown(frames, k) && Run(frames[..k]).end.Some?
    && frames[k].upTo > Run(frames[..k]).end.value && StartOf(frames[k]) > Run(frames[..k]).end.value
  }

  /** Chunks among frames `n` to `m`, in order, each of which begins no later than those before
      it, or `from`, end: together they come as far as `to`. */
  ghost predicate Reaches(frames: seq<Frame>, n: nat, m: nat, from: nat, to: int)
    requires m <= |frames|
    decreases m
  {
    || to <= from
    || exists k: nat :: n <= k < m && Shown(frames, k) && to <= frames[k].upTo
                        && Reaches(frames, n, k, from, StartOf(frames[k]))
  }

  ghost predicate Unseeded(frames: seq<Frame>, n: nat, m: nat)
    requires n <= m <= |frames|
  {
    forall k: nat :: n <= k < m ==> !Accepted(frames, k)
  }

  lemma ReachesMore(frames: seq<Frame>, n: nat, m: nat, from: nat, to: int)
    requires n <= m < |frames|
    ensures Reaches(frames, n, m + 1, from, to)
       <==> || Reaches(frames, n, m, from, to)
            || (Shown(frames, m) && to <= frames[m].upTo && Reaches(frames, n, m, from, StartOf(frames[m])))
  {
  }

  /** One frame: the end moves to where a shown chunk ends exactly when the chunk goes past it and
      leaves nothing out. */
  lemma EndMoves(frames: seq<Frame>, k: nat)
    requires k < |frames| && !Accepted(frames, k) && Run(frames[..k]).end.Some?
    ensures var e, t := Run(frames[..k]).end.value, Run(frames[..k + 1]);
      t.end == Some(if Shown(frames, k) && StartOf(frames[k]) <= e < frames[k].upTo then frames[k].upTo else e)
  {
    OneMoreFrame(frames, k);
  }

  /** Between seeds, the page's end is exactly as far as the chunks it was sent reach in a chain
      without a gap, from where it was. */
  lemma {:induction false} EndIsReached(frames: seq<Frame>, n: nat, m: nat, to: int)
    requires n <= m <= |frames| && Unseeded(frames, n, m) && Run(frames[..n]).end.Some?
    ensures Run(frames[..m]).end.Some?
    ensures to <= Run(frames[..m]).end.value <==> Reaches(frames, n, m, Run(frames[..n]).end.value, to)
    decreases m
  {
    if m > n {
      var k, from := m - 1, Run(frames[..n]).end.value;
      EndIsReached(frames, n, k, to);
      if Shown(frames, k) {
        EndIsReached(frames, n, k, StartOf(frames[k]));
      }
      EndMoves(frames, k);
      ReachesMore(frames, n, k, from, to);
    }
  }

  ghost predicate SomeGap(frames: seq<Frame>, n: nat, m: nat)
    requires m <= |frames|
  {
    exists k: nat :: n <= k < m && Gap(frames, k)
  }

  lemma GapGrows(frames: seq<Frame>, n: nat, m: nat)
    requires n <= m < |frames|
    ensures SomeGap(frames, n, m + 1) <==> SomeGap(frames, n, m) || Gap(frames, m)
  {
  }

  /** A page asks where to go on from with every `ready`, and with a gap while it waits for no
      answer to another one; it names where it is. */
  lemma AsksExactlyWhen(frames: seq<Frame>, k: nat)
    requires k < |frames|
    ensures var s, t := Run(frames[..k]), Run(frames[..k + 1]);
      && t.asked == s.asked + (if frames[k].Ready? || (Gap(frames, k) && !s.resyncing) then [s.end] else [])
      && t.resyncing == (if Accepted(frames, k) then false else s.resyncing || Gap(frames, k))
      && t.terminal == (if frames[k].Ready? then frames[k].id else s.terminal)
  {
    OneMoreFrame(frames, k);
  }

  /** The page waits for an answer exactly when some chunk left a gap. */
  ghost predicate WaitsForGap(frames: seq<Frame>, n: nat, m: nat)
    requires m <= |frames|
  {
    Run(frames[..m]).resyncing <==> SomeGap(frames, n, m)
  }

  lemma WaitsOn(frames: seq<Frame>, n: nat, k: nat)
    requires n <= k < |frames| && !Accepted(frames, k) && WaitsForGap(frames, n, k)
    ensures WaitsForGap(frames, n, k + 1)
  {
    AsksExactlyWhen(frames, k);
    GapGrows(frames, n, k);
  }

  lemma WaitsForNone(frames: seq<Frame>, n: nat)
    requires 0 < n <= |frames| && Accepted(frames, n - 1)
    ensures WaitsForGap(frames, n, n)
  {
    AsksExactlyWhen(frames, n - 1);
  }

  /** So it is since the last seed. */
  lemma {:induction false} WaitsAfterGap(frames: seq<Frame>, n: nat, m: nat)
    requires 0 < n <= m <= |frames| && Accepted(frames, n - 1) && Unseeded(frames, n, m)
    ensures WaitsForGap(frames, n, m)
    decreases m
  {
    if m > n {
      WaitsAfterGap(frames, n, m - 1);
      WaitsOn(frames, n, m - 1);
    } else {
      WaitsForNone(frames, n);
    }
  }

  /** What a seed the page accepts sets. */
  lemma SeedSets(frames: seq<Frame>, k: nat)
    requires k < |frames| && Accepted(frames, k)
    ensures var s, t, f := Run(frames[..k]), Run(frames[..k + 1]), frames[k];
      t.end == f.off && t.drawn == [] && t.screen == if f.clear then f.d else s.screen + f.d
  {
    OneMoreFrame(frames, k);
  }

  lemma DrawnShows(frames: seq<Frame>, k: nat)
    requires k < |frames| && !Accepted(frames, k)
    ensures var s, t := Run(frames[..k]), Run(frames[..k + 1]);
      exists more :: t.drawn == s.drawn + more && t.screen == s.screen + more
  {
    OneMoreFrame(frames, k);
    var s, t := Run(frames[..k]), Run(frames[..k + 1]);
    if Shown(frames, k) && t.end != s.end {
      var more := frames[k].chunk[s.end.value - StartOf(frames[k])..];
      assert t.drawn == s.drawn + more && t.screen == s.screen + more;
    } else {
      assert t.drawn == s.drawn + [] && t.screen == s.screen + [];
    }
  }

  lemma Regroup(a: Bytes, b: Bytes, c: Bytes)
    ensures a + b + c == a + (b + c)
  {
  }

  ghost predicate ShowsAfter(frames: seq<Frame>, first: Bytes, m: nat)
    requires m <= |frames|
  {
    Run(frames[..m]).screen == first + Run(frames[..m]).drawn
  }

  lemma ShowsMore(frames: seq<Frame>, first: Bytes, k: nat)
    requires k < |frames| && !Accepted(frames, k) && ShowsAfter(frames, first, k)
    ensures ShowsAfter(frames, first, k + 1)
  {
    DrawnShows(frames, k);
    var s, t := Run(frames[..k]), Run(frames[..k + 1]);
    var more :| t.drawn == s.drawn + more && t.screen == s.screen + more;
    Regroup(first, s.drawn, more);
  }

  lemma {:induction false} ShowsSince(frames: seq<Frame>, first: Bytes, n: nat, m: nat)
    requires n <= m <= |frames| && Unseeded(frames, n, m) && ShowsAfter(frames, first, n)
    ensures ShowsAfter(frames, first, m)
    decreases m
  {
    if m > n {
      ShowsSince(frames, first, n, m - 1);
      ShowsMore(frames, first, m - 1);
    }
  }

  /** The screen is what the last seed wrote, on a cleared terminal or after what was there, and
      then what was drawn since. */
  lemma ScreenSinceSeed(frames: seq<Frame>, n: nat, m: nat)
    requires 0 < n <= m <= |frames| && Accepted(frames, n - 1) && Unseeded(frames, n, m)
    ensures Run(frames[..m]).screen
         == (if frames[n - 1].clear then [] else Run(frames[..n - 1]).screen) + frames[n - 1].d + Run(frames[..m]).drawn
  {
    var first := (if frames[n - 1].clear then [] else Run(frames[..n - 1]).screen) + frames[n - 1].d;
    SeedSets(frames, n - 1);
    assert first + [] == first;
    ShowsSince(frames, first, n, m);
  }

  /** Before the first seed nothing is drawn. */
  lemma {:induction false} NothingBeforeSeed(frames: seq<Frame>)
    requires Unseeded(frames, 0, |frames|)
    ensures Run(frames).end.None? && Run(frames).screen == []
  {
    if frames != [] {
      var n := |frames| - 1;
      forall k: nat | k < n
        ensures !Accepted(frames[..n], k)
      {
        Earlier(frames, n, k);
      }
      NothingBeforeSeed(frames[..n]);
      assert !Accepted(frames, n);
    }
  }
}
