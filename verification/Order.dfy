/** The order actions and terminals are listed in (cli/src/config.rs): by position, those
    without one last, and by name where that decides nothing. */
module Order {
  import opened Hex

  /** Names compare character by character. */
  predicate Less(a: string, b: string)
  {
    if b == "" then false
    else if a == "" then true
    else a[0] < b[0] || (a[0] == b[0] && Less(a[1..], b[1..]))
  }

  lemma {:induction false} LessIsStrict(a: string, b: string)
    ensures !(Less(a, b) && Less(b, a)) && (a != b ==> Less(a, b) || Less(b, a))
    ensures a == b ==> !Less(a, b)
  {
    if a != "" && b != "" && a[0] == b[0] {
      assert a == [a[0]] + a[1..] && b == [b[0]] + b[1..];
      LessIsStrict(a[1..], b[1..]);
    }
  }

  lemma {:induction false} LessIsTransitive(a: string, b: string, c: string)
    requires Less(a, b) && Less(b, c)
    ensures Less(a, c)
  {
    if a != "" && a[0] == b[0] == c[0] {
      LessIsTransitive(a[1..], b[1..], c[1..]);
    }
  }

  type Positions = map<string, Option<real>>

  function PositionOf(p: Positions, name: string): Option<real> { if name in p then p[name] else None }

  predicate Before(p: Positions, a: string, b: string)
  {
    match (PositionOf(p, a), PositionOf(p, b))
    case (Some(x), Some(y)) => x < y || (x == y && Less(a, b))
    case (Some(_), None) => true
    case (None, Some(_)) => false
    case (None, None) => Less(a, b)
  }

  lemma BeforeIsStrict(p: Positions, a: string, b: string)
    ensures !(Before(p, a, b) && Before(p, b, a)) && (a != b ==> Before(p, a, b) || Before(p, b, a))
    ensures a == b ==> !Before(p, a, b)
  {
    LessIsStrict(a, b);
  }

  lemma BeforeIsTransitive(p: Positions, a: string, b: string, c: string)
    requires Before(p, a, b) && Before(p, b, c)
    ensures Before(p, a, c)
  {
    if Less(a, b) && Less(b, c) {
      LessIsTransitive(a, b, c);
    }
  }

  ghost predicate Sorted(p: Positions, s: seq<string>)
  {
    forall i, j :: 0 <= i < j < |s| ==> Before(p, s[i], s[j])
  }

  /** Names compare at the first character they differ in; one that ends before comes first. */
  lemma {:induction false} LessIsLexicographic(a: string, b: string)
    ensures Less(a, b) <==> exists k: nat :: DiffersAt(a, b, k)
  {
    if a == "" || b == "" || a[0] != b[0] {
      assert a[..0] == b[..0];
      if b != "" && (a == "" || a[0] < b[0]) {
        assert DiffersAt(a, b, 0);
      }
      if k: nat :| DiffersAt(a, b, k) {
        AlikeBefore(a, b, k);
      }
    } else {
      LessIsLexicographic(a[1..], b[1..]);
      forall k: nat
        ensures DiffersAt(a[1..], b[1..], k) <==> DiffersAt(a, b, k + 1)
      {
        DiffersLater(a, b, k);
      }
      if k: nat :| DiffersAt(a, b, k) {
        assert DiffersAt(a[1..], b[1..], k - 1);
      }
    }
  }

  predicate DiffersAt(a: string, b: string, k: nat)
  {
    && k <= |a| && k <= |b| && a[..k] == b[..k]
    && k < |b| && (k == |a| || a[k] < b[k])
  }

  lemma AlikeBefore(a: string, b: string, k: nat)
    requires DiffersAt(a, b, k)
    ensures k == 0 || (a != "" && b != "" && a[0] == b[0])
  {
    if k > 0 {
      assert a[..k][0] == b[..k][0];
    }
  }

  lemma DiffersLater(a: string, b: string, k: nat)
    requires a != "" && b != "" && a[0] == b[0]
    ensures DiffersAt(a[1..], b[1..], k) <==> DiffersAt(a, b, k + 1)
  {
    if k < |a| && k < |b| {
      assert a[..k + 1] == [a[0]] + a[1..][..k] && b[..k + 1] == [b[0]] + b[1..][..k];
      assert a[..k + 1][1..] == a[1..][..k] && b[..k + 1][1..] == b[1..][..k];
    }
  }

  predicate HasPosition(p: Positions, a: string) { a in p && p[a].Some? }

  predicate Tie(p: Positions, a: string, b: string)
  {
    if HasPosition(p, a) then HasPosition(p, b) && p[a].value == p[b].value else !HasPosition(p, b)
  }

  /** In a sorted list positions do not fall, names with one come before those without, and where
      that decides nothing they go by name. */
  lemma PositionsDoNotFall(p: Positions, names: set<string>, i: nat, j: nat)
    requires i < j < |InOrder(p, names)|
    ensures var a, b := InOrder(p, names)[i], InOrder(p, names)[j];
      && (HasPosition(p, b) ==> HasPosition(p, a) && p[a].value <= p[b].value)
      && (Tie(p, a, b) ==> Less(a, b))
  {
    assert Before(p, InOrder(p, names)[i], InOrder(p, names)[j]);
  }

  lemma InTail(s: seq<string>, n: string)
    requires s != []
    ensures n in s <==> n == s[0] || n in s[1..]
  {
    assert s == [s[0]] + s[1..];
  }

  lemma HeadIsNotInTail(p: Positions, s: seq<string>)
    requires s != [] && Sorted(p, s)
    ensures s[0] !in s[1..]
  {
    forall k | 1 <= k < |s|
      ensures s[k] != s[0]
    {
      assert Before(p, s[0], s[k]);
      BeforeIsStrict(p, s[0], s[k]);
    }
  }

  lemma HasNoneIffEmpty(s: seq<string>)
    ensures s == [] <==> forall n :: n !in s
  {
    if s != [] {
      assert s[0] in s;
    }
  }

  /** There is one way to list names in order, so what sorts them does not matter. */
  lemma {:induction false} SortedIsUnique(p: Positions, a: seq<string>, b: seq<string>)
    requires Sorted(p, a) && Sorted(p, b) && forall n :: n in a <==> n in b
    ensures a == b
  {
    HasNoneIffEmpty(a);
    HasNoneIffEmpty(b);
    if a != [] {
      assert a[0] in b && b[0] in a;
      var i :| 0 <= i < |b| && b[i] == a[0];
      var j :| 0 <= j < |a| && a[j] == b[0];
      BeforeIsStrict(p, a[0], b[0]);
      assert a[0] == b[0];
      HeadIsNotInTail(p, a);
      HeadIsNotInTail(p, b);
      forall n
        ensures n in a[1..] <==> n in b[1..]
      {
        InTail(a, n);
        InTail(b, n);
      }
      SortedIsUnique(p, a[1..], b[1..]);
      assert a == [a[0]] + a[1..] && b == [b[0]] + b[1..];
    }
  }

  /** The name that comes first. */
  lemma {:induction false} FirstExists(p: Positions, names: set<string>) returns (first: string)
    requires names != {}
    ensures first in names && forall n :: n in names && n != first ==> Before(p, first, n)
    decreases |names|
  {
    var n :| n in names;
    var rest := names - {n};
    assert forall m :: m in names ==> m == n || m in rest;
    if rest == {} {
      first := n;
    } else {
      first := FirstExists(p, rest);
      BeforeIsStrict(p, first, n);
      if Before(p, n, first) {
        forall m | m in names && m != n
          ensures Before(p, n, m)
        {
          if m != first {
            BeforeIsTransitive(p, n, first, m);
          }
        }
        first := n;
      }
    }
  }

  ghost predicate IsFirst(p: Positions, names: set<string>, first: string)
  {
    first in names && forall n :: n in names && n != first ==> Before(p, first, n)
  }

  lemma SortedCons(p: Positions, names: set<string>, first: string, rest: seq<string>)
    requires IsFirst(p, names, first) && Sorted(p, rest) && forall n :: n in rest <==> n in names && n != first
    ensures Sorted(p, [first] + rest) && forall n :: n in [first] + rest <==> n in names
  {
    assert forall n :: n in [first] + rest <==> n == first || n in rest;
  }

  /** The names in order. */
  ghost function InOrder(p: Positions, names: set<string>): (r: seq<string>)
    ensures Sorted(p, r) && forall n :: n in r <==> n in names
    decreases |names|
  {
    if names == {} then []
    else
      assert exists f :: IsFirst(p, names, f) by {
        var f := FirstExists(p, names);
        assert IsFirst(p, names, f);
      }
      var first :| IsFirst(p, names, first);
      SortedCons(p, names, first, InOrder(p, names - {first}));
      [first] + InOrder(p, names - {first})
  }

  method Insert(p: Positions, s: seq<string>, name: string) returns (r: seq<string>)
    requires Sorted(p, s) && name !in s
    ensures Sorted(p, r) && forall n :: n in r <==> n in s || n == name
  {
    var k := 0;
    while k < |s| && Before(p, s[k], name)
      invariant 0 <= k <= |s|
      invariant forall j :: 0 <= j < k ==> Before(p, s[j], name)
    {
      k := k + 1;
    }
    forall j | k <= j < |s|
      ensures Before(p, name, s[j])
    {
      BeforeIsStrict(p, s[k], name);
      if j > k {
        BeforeIsTransitive(p, name, s[k], s[j]);
      }
    }
    r := s[..k] + [name] + s[k..];
    assert s == s[..k] + s[k..];
  }

  /** Sorts the listed names where the program calls its library's sort: any sort by the same
      order comes out the same. */
  method SortByPosition(p: Positions, names: seq<string>) returns (r: seq<string>)
    requires forall i, j :: 0 <= i < j < |names| ==> names[i] != names[j]
    ensures r == InOrder(p, set n | n in names)
  {
    r := [];
    var i := 0;
    while i < |names|
      invariant 0 <= i <= |names|
      invariant Sorted(p, r) && forall n :: n in r <==> n in names[..i]
    {
      assert names[i] !in names[..i];
      r := Insert(p, r, names[i]);
      assert names[..i + 1] == names[..i] + [names[i]];
      i := i + 1;
    }
    assert names[..|names|] == names;
    SortedIsUnique(p, r, InOrder(p, set n | n in names));
  }
}
