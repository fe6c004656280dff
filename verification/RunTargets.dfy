/** What `lpm run` can run, and how a word picks one of them (cli/src/run.rs).

    `lower` stands for lower-casing a text. */
module RunTargets {
  import opened Hex
  import opened Layers
  import opened ActionTree
  import Order

  datatype Target = Target(id: string, title: string)

  // ---- ids ------------------------------------------------------------------------------------

  function ComposeId(prefix: string, name: string): string
  {
    if prefix == "" then name else prefix + ":" + name
  }

  /** The part of an id after its last colon. */
  function LeafKey(id: string): string
  {
    if id == "" || id[|id| - 1] == ':' then "" else LeafKey(id[..|id| - 1]) + [id[|id| - 1]]
  }

  /** An entry and all below it, parents first. */
  function Walked(a: Resolved, prefix: string): seq<Target>
    decreases a
  {
    var id := ComposeId(prefix, a.name);
    [Target(id, a.title)] + WalkedAll(a.children, id)
  }

  function WalkedAll(entries: seq<Resolved>, prefix: string): seq<Target>
    decreases entries
  {
    if entries == [] then [] else Walked(entries[0], prefix) + WalkedAll(entries[1..], prefix)
  }

  lemma {:induction false} WalkedAllAppend(entries: seq<Resolved>, a: Resolved, prefix: string)
    ensures WalkedAll(entries + [a], prefix) == WalkedAll(entries, prefix) + Walked(a, prefix)
  {
    if entries == [] {
      assert [a][1..] == [];
    } else {
      assert (entries + [a])[1..] == entries[1..] + [a];
      WalkedAllAppend(entries[1..], a, prefix);
    }
  }

  lemma WalkStep(before: seq<Target>, own: seq<Target>, entries: seq<Resolved>, i: nat, id: string)
    requires i < |entries|
    ensures before + (own + WalkedAll(entries[..i], id)) + Walked(entries[i], id)
         == before + (own + WalkedAll(entries[..i + 1], id))
  {
    var some, more := WalkedAll(entries[..i], id), Walked(entries[i], id);
    WalkedAllAppend(entries[..i], entries[i], id);
    assert entries[..i + 1] == entries[..i] + [entries[i]];
    Regroup(before, own, some, more);
  }

  lemma Regroup<T>(a: seq<T>, b: seq<T>, c: seq<T>, d: seq<T>)
    ensures a + (b + c) + d == a + (b + (c + d))
  {
  }

  /** `walk_run_targets`: appends to the list as it goes down. */
  method Walk(a: Resolved, prefix: string, before: seq<Target>) returns (out: seq<Target>)
    ensures out == before + Walked(a, prefix)
    decreases a
  {
    var id := ComposeId(prefix, a.name);
    ghost var own := [Target(id, a.title)];
    out := before + [Target(id, a.title)];
    var i := 0;
    while i < |a.children|
      invariant 0 <= i <= |a.children|
      invariant out == before + (own + WalkedAll(a.children[..i], id))
    {
      WalkStep(before, own, a.children, i, id);
      out := Walk(a.children[i], id, out);
      i := i + 1;
    }
    assert a.children[..i] == a.children;
  }

  method CollectRunTargets(terminals: seq<Resolved>, actions: seq<Resolved>) returns (out: seq<Target>)
    ensures out == WalkedAll(terminals + actions, "")
  {
    out := [];
    var all := terminals + actions;
    var i := 0;
    while i < |all|
      invariant 0 <= i <= |all|
      invariant out == WalkedAll(all[..i], "")
    {
      WalkedAllAppend(all[..i], all[i], "");
      assert all[..i + 1] == all[..i] + [all[i]];
      out := Walk(all[i], "", out);
      i := i + 1;
    }
    assert all[..i] == all;
  }

  // ---- every entry has an id of its own ------------------------------------------------------------

  predicate Plain(key: string) { ':' !in key }

  /** No key, at any level, holds a colon. */
  ghost predicate PlainKeys(entries: seq<Resolved>)
  {
    forall a :: a in entries ==> Plain(a.name) && PlainKeys(a.children)
  }

  /** No two entries beside each other share a name, at any level. */
  ghost predicate Apart(entries: seq<Resolved>)
  {
    && (forall i, j :: 0 <= i < j < |entries| ==> entries[i].name != entries[j].name)
    && forall a :: a in entries ==> Apart(a.children)
  }

  /** The id is the given one or below it. */
  predicate Below(id: string, top: string)
  {
    id == top || (|id| > |top| && id[..|top|] == top && id[|top|] == ':')
  }

  ghost predicate AllBelow(targets: seq<Target>, top: string)
  {
    forall t :: t in targets ==> Below(t.id, top)
  }

  ghost predicate Distinct(targets: seq<Target>)
  {
    forall i, j :: 0 <= i < j < |targets| ==> targets[i].id != targets[j].id
  }

  lemma BelowChild(id: string, top: string, name: string)
    requires top != "" && Below(id, ComposeId(top, name))
    ensures Below(id, top) && id != top
  {
    var child := top + ":" + name;
    assert child[..|top|] == top && child[|top|] == ':';
    assert id[..|child|] == child;
    assert id[..|top|] == id[..|child|][..|top|];
    assert id[|top|] == id[..|child|][|top|];
  }

  lemma LongerBranch(id: string, prefix: string, a: string, b: string)
    requires Below(id, ComposeId(prefix, a)) && Below(id, ComposeId(prefix, b)) && |a| < |b|
    ensures b[|a|] == ':'
  {
    var p, q := ComposeId(prefix, a), ComposeId(prefix, b);
    var k := |q| - |b|;
    assert id[..|q|] == q && |p| == k + |a|;
    assert q[k + |a|] == b[|a|];
    assert id[|p|] == id[..|q|][|p|];
  }

  /** An id cannot be below two entries beside each other. */
  lemma OneBranch(id: string, prefix: string, a: string, b: string)
    requires Plain(a) && Plain(b)
    requires Below(id, ComposeId(prefix, a)) && Below(id, ComposeId(prefix, b))
    ensures a == b
  {
    if |a| < |b| {
      LongerBranch(id, prefix, a, b);
    } else if |b| < |a| {
      LongerBranch(id, prefix, b, a);
    }
    var p, q := ComposeId(prefix, a), ComposeId(prefix, b);
    var k := |p| - |a|;
    assert id[..|p|] == p && id[..|q|] == q;
    assert p[k..] == a && q[k..] == b;
  }

  /** None of these entries has an empty id: there is a prefix, or no key is empty. */
  ghost predicate NamedAt(entries: seq<Resolved>, prefix: string)
  {
    prefix != "" || forall a :: a in entries ==> a.name != ""
  }

  /** Every id is below the entry of the list it came from. */
  ghost predicate Spread(targets: seq<Target>, entries: seq<Resolved>, prefix: string)
  {
    forall t :: t in targets ==> exists c :: c in entries && Below(t.id, ComposeId(prefix, c.name))
  }

  lemma {:induction false} WalkedBelow(a: Resolved, prefix: string)
    requires PlainKeys(a.children) && ComposeId(prefix, a.name) != ""
    ensures AllBelow(Walked(a, prefix), ComposeId(prefix, a.name))
    ensures forall i :: 0 < i < |Walked(a, prefix)| ==> Walked(a, prefix)[i].id != ComposeId(prefix, a.name)
    decreases a
  {
    var id := ComposeId(prefix, a.name);
    var rest := WalkedAll(a.children, id);
    WalkedSpread(a.children, id);
    forall t: Target | t in rest
      ensures Below(t.id, id) && t.id != id
    {
      var c :| c in a.children && Below(t.id, ComposeId(id, c.name));
      BelowChild(t.id, id, c.name);
    }
    forall i | 0 < i < |Walked(a, prefix)|
      ensures Walked(a, prefix)[i].id != id
    {
      assert Walked(a, prefix)[i] == rest[i - 1];
    }
  }

  lemma {:induction false} WalkedSpread(entries: seq<Resolved>, prefix: string)
    requires PlainKeys(entries) && NamedAt(entries, prefix)
    ensures Spread(WalkedAll(entries, prefix), entries, prefix)
    decreases entries
  {
    if entries != [] {
      var a := entries[0];
      WalkedBelow(a, prefix);
      WalkedSpread(entries[1..], prefix);
      forall t: Target | t in Walked(a, prefix)
        ensures exists c :: c in entries && Below(t.id, ComposeId(prefix, c.name))
      {
        assert a in entries && Below(t.id, ComposeId(prefix, a.name));
      }
    }
  }

  lemma DistinctConcat(s: seq<Target>, t: seq<Target>)
    requires Distinct(s) && Distinct(t)
    requires forall x: Target, y: Target :: x in s && y in t ==> x.id != y.id
    ensures Distinct(s + t)
  {
    forall i, j | 0 <= i < j < |s + t|
      ensures (s + t)[i].id != (s + t)[j].id
    {
      if i < |s| <= j {
        assert s[i] in s && t[j - |s|] in t;
      }
    }
  }

  lemma {:induction false} WalkedDistinct(a: Resolved, prefix: string)
    requires PlainKeys(a.children) && Apart(a.children) && ComposeId(prefix, a.name) != ""
    ensures Distinct(Walked(a, prefix))
    decreases a
  {
    WalkedAllDistinct(a.children, ComposeId(prefix, a.name));
    WalkedBelow(a, prefix);
  }

  lemma {:induction false} WalkedAllDistinct(entries: seq<Resolved>, prefix: string)
    requires PlainKeys(entries) && Apart(entries) && NamedAt(entries, prefix)
    ensures Distinct(WalkedAll(entries, prefix))
    decreases entries
  {
    if entries != [] {
      var a, rest := entries[0], entries[1..];
      WalkedDistinct(a, prefix);
      WalkedAllDistinct(rest, prefix);
      WalkedBelow(a, prefix);
      WalkedSpread(rest, prefix);
      forall x: Target, y: Target | x in Walked(a, prefix) && y in WalkedAll(rest, prefix)
        ensures x.id != y.id
      {
        var c :| c in rest && Below(y.id, ComposeId(prefix, c.name));
        if x.id == y.id {
          OneBranch(x.id, prefix, a.name, c.name);
        }
      }
      DistinctConcat(Walked(a, prefix), WalkedAll(rest, prefix));
    }
  }

  // ---- the top of the forest ----------------------------------------------------------------------

  /** The keys an entry's ids are below: its own, and its children's too when it is empty. */
  function Roots(a: Resolved): set<string>
  {
    if a.name == "" then {""} + (set c | c in a.children :: c.name) else {a.name}
  }

  /** No child of an entry with the empty key is itself empty or named like an entry at the top. */
  ghost predicate Clear(entries: seq<Resolved>)
  {
    forall a, c, t :: a in entries && a.name == "" && c in a.children && t in entries ==> c.name != t.name
  }

  ghost predicate Rooted(targets: seq<Target>, roots: set<string>)
  {
    forall t :: t in targets ==> exists r :: r in roots && Plain(r) && Below(t.id, r)
  }

  lemma TopWalked(a: Resolved)
    requires Plain(a.name) && PlainKeys(a.children) && Apart(a.children)
    requires a.name == "" ==> forall c :: c in a.children ==> c.name != ""
    ensures Distinct(Walked(a, "")) && Rooted(Walked(a, ""), Roots(a))
  {
    if a.name != "" {
      WalkedDistinct(a, "");
      WalkedBelow(a, "");
    } else {
      var rest := WalkedAll(a.children, "");
      WalkedAllDistinct(a.children, "");
      WalkedSpread(a.children, "");
      forall t: Target | t in rest
        ensures t.id != "" && exists r :: r in Roots(a) && Plain(r) && Below(t.id, r)
      {
        var c :| c in a.children && Below(t.id, ComposeId("", c.name));
        assert c.name in Roots(a);
      }
      forall x: Target, y: Target | x in [Target("", a.title)] && y in rest
        ensures x.id != y.id
      {
      }
      DistinctConcat([Target("", a.title)], rest);
      assert "" in Roots(a) && Below("", "");
    }
  }

  lemma RootedApart(s: seq<Target>, t: seq<Target>, p: set<string>, q: set<string>)
    requires Rooted(s, p) && Rooted(t, q) && p !! q
    ensures forall x: Target, y: Target :: x in s && y in t ==> x.id != y.id
  {
    forall x: Target, y: Target | x in s && y in t
      ensures x.id != y.id
    {
      var a :| a in p && Plain(a) && Below(x.id, a);
      var b :| b in q && Plain(b) && Below(y.id, b);
      if x.id == y.id {
        OneBranch(x.id, "", a, b);
      }
    }
  }

  function AllRoots(entries: seq<Resolved>): set<string>
  {
    if entries == [] then {} else Roots(entries[0]) + AllRoots(entries[1..])
  }

  lemma TwoApart(a: Resolved, b: Resolved)
    requires a.name != b.name
    requires a.name == "" ==> forall c :: c in a.children ==> c.name != b.name
    requires b.name == "" ==> forall c :: c in b.children ==> c.name != a.name
    ensures Roots(a) !! Roots(b)
  {
  }

  lemma {:induction false} AllApart(a: Resolved, rest: seq<Resolved>)
    requires forall b :: b in rest ==> Roots(a) !! Roots(b)
    ensures Roots(a) !! AllRoots(rest)
  {
    if rest != [] {
      assert rest[0] in rest;
      AllApart(a, rest[1..]);
    }
  }

  lemma RootsApart(entries: seq<Resolved>)
    requires entries != [] && Apart(entries) && Clear(entries)
    ensures Roots(entries[0]) !! AllRoots(entries[1..])
  {
    var a, rest := entries[0], entries[1..];
    assert a in entries;
    forall b: Resolved | b in rest
      ensures Roots(a) !! Roots(b)
    {
      var j :| 0 <= j < |rest| && rest[j] == b;
      assert b == entries[j + 1] && b in entries;
      TwoApart(a, b);
    }
    AllApart(a, rest);
  }

  lemma RootedTogether(s: seq<Target>, t: seq<Target>, p: set<string>, q: set<string>)
    requires Rooted(s, p) && Rooted(t, q)
    ensures Rooted(s + t, p + q)
  {
    forall x: Target | x in s + t
      ensures exists r :: r in p + q && Plain(r) && Below(x.id, r)
    {
      if x in s {
        var r :| r in p && Plain(r) && Below(x.id, r);
        assert r in p + q;
      } else {
        var r :| r in q && Plain(r) && Below(x.id, r);
        assert r in p + q;
      }
    }
  }

  lemma RestIsForest(entries: seq<Resolved>)
    requires entries != [] && PlainKeys(entries) && Apart(entries) && Clear(entries)
    ensures PlainKeys(entries[1..]) && Apart(entries[1..]) && Clear(entries[1..])
    ensures var a := entries[0];
      Plain(a.name) && PlainKeys(a.children) && Apart(a.children)
      && (a.name == "" ==> forall c :: c in a.children ==> c.name != "")
  {
    var a := entries[0];
    assert a in entries && forall t :: t in entries[1..] ==> t in entries;
  }

  lemma {:induction false} TopDistinct(entries: seq<Resolved>)
    requires PlainKeys(entries) && Apart(entries) && Clear(entries)
    ensures Distinct(WalkedAll(entries, "")) && Rooted(WalkedAll(entries, ""), AllRoots(entries))
  {
    if entries != [] {
      var a, rest := entries[0], entries[1..];
      RestIsForest(entries);
      TopWalked(a);
      TopDistinct(rest);
      RootsApart(entries);
      RootedApart(Walked(a, ""), WalkedAll(rest, ""), Roots(a), AllRoots(rest));
      DistinctConcat(Walked(a, ""), WalkedAll(rest, ""));
      RootedTogether(Walked(a, ""), WalkedAll(rest, ""), Roots(a), AllRoots(rest));
    }
  }

  lemma DistinctParts(s: seq<Target>, t: seq<Target>)
    requires Distinct(s + t)
    ensures Distinct(s) && Distinct(t)
    ensures forall x: Target, y: Target :: x in s && y in t ==> x.id != y.id
  {
    var all := s + t;
    assert forall i :: 0 <= i < |s| ==> all[i] == s[i];
    assert forall j :: 0 <= j < |t| ==> all[|s| + j] == t[j];
    forall x: Target, y: Target | x in s && y in t
      ensures x.id != y.id
    {
      var i :| 0 <= i < |s| && s[i] == x;
      var j :| 0 <= j < |t| && t[j] == y;
      assert all[i].id != all[|s| + j].id;
    }
  }

  lemma {:induction false} HeadIsWalked(entries: seq<Resolved>, prefix: string, a: Resolved)
    requires a in entries
    ensures Target(ComposeId(prefix, a.name), a.title) in WalkedAll(entries, prefix)
  {
    if a != entries[0] {
      HeadIsWalked(entries[1..], prefix, a);
    }
  }

  /** In a forest of distinct ids, no id of one entry at the top is one of another's, and each
      entry's own are distinct. */
  lemma {:induction false} TopParts(entries: seq<Resolved>, a: Resolved, t: Resolved, x: Target, y: Target)
    requires Distinct(WalkedAll(entries, "")) && a in entries && t in entries
    requires x in Walked(a, "") && y in Walked(t, "")
    ensures Distinct(Walked(a, ""))
    ensures a != t ==> x.id != y.id
  {
    DistinctParts(Walked(entries[0], ""), WalkedAll(entries[1..], ""));
    if a != entries[0] && t != entries[0] {
      TopParts(entries[1..], a, t, x, y);
    } else if a == entries[0] && t != entries[0] {
      WalkedIsPart(entries[1..], t, y);
    } else if a != entries[0] {
      WalkedIsPart(entries[1..], a, x);
      TopParts(entries[1..], a, a, x, x);
    }
  }

  lemma {:induction false} WalkedIsPart(entries: seq<Resolved>, a: Resolved, x: Target)
    requires a in entries && x in Walked(a, "")
    ensures x in WalkedAll(entries, "")
  {
    if a != entries[0] {
      WalkedIsPart(entries[1..], a, x);
    }
  }

  lemma NotClearCollides(entries: seq<Resolved>, a: Resolved, c: Resolved, t: Resolved)
    requires a in entries && a.name == "" && c in a.children && t in entries && c.name == t.name
    ensures !Distinct(WalkedAll(entries, ""))
  {
    if Distinct(WalkedAll(entries, "")) {
      var x, y := Target(c.name, c.title), Target(t.name, t.title);
      HeadIsWalked(a.children, "", c);
      assert x in Walked(a, "") && y in Walked(t, "") by {
        assert Walked(a, "") == [Target("", a.title)] + WalkedAll(a.children, "");
      }
      TopParts(entries, a, t, x, y);
      if a == t {
        DistinctParts([Target("", a.title)], WalkedAll(a.children, ""));
      }
    }
  }

  /** With keys that hold no colon, ids are distinct, at every depth, exactly when no child of an
      entry with the empty key at the top is empty itself or named like an entry at the top. */
  lemma IdsAreDistinct(entries: seq<Resolved>)
    requires PlainKeys(entries) && Apart(entries)
    ensures Distinct(WalkedAll(entries, "")) <==> Clear(entries)
  {
    if Clear(entries) {
      TopDistinct(entries);
    } else {
      var a, c, t :| a in entries && a.name == "" && c in a.children && t in entries && c.name == t.name;
      NotClearCollides(entries, a, c, t);
    }
  }

  /** Names apart at every level is what a project's merged actions come with. */
  lemma {:induction false} ResolvedApart(name: string, parent: Option<Action>, a: Action)
    ensures Apart(Resolve(name, parent, a).children)
    decreases a
  {
    var r := Resolve(name, parent, a);
    var names := Order.InOrder(PositionsOf(a.children), a.children.Keys);
    forall i, j | 0 <= i < j < |r.children|
      ensures r.children[i].name != r.children[j].name
    {
      assert Order.Before(PositionsOf(a.children), names[i], names[j]);
      Order.BeforeIsStrict(PositionsOf(a.children), names[i], names[j]);
    }
    forall c | c in r.children
      ensures Apart(c.children)
    {
      var i :| 0 <= i < |r.children| && r.children[i] == c;
      assert names[i] in names;
      ResolvedApart(names[i], Some(Effective(parent, a)), a.children[names[i]]);
    }
  }

  /** An entry of either list is a merged one, and no list has a name twice. */
  lemma ListedEntry(m: map<string, Action>, terminals: bool, i: nat)
    requires i < |Listed(m, terminals)|
    ensures var r := Listed(m, terminals)[i];
      r.name in m && m[r.name].fromTerminals == terminals && r == Resolve(r.name, None, m[r.name])
  {
    ListsPartition(m, terminals);
    var names := Map(Listed(m, terminals), (r: Resolved) => r.name);
    assert names[i] in names;
  }

  lemma ListedDistinct(m: map<string, Action>, terminals: bool, i: nat, j: nat)
    requires i < j < |Listed(m, terminals)|
    ensures Listed(m, terminals)[i].name != Listed(m, terminals)[j].name
  {
    ListsPartition(m, terminals);
    var names := Map(Listed(m, terminals), (r: Resolved) => r.name);
    assert Order.Before(PositionsOf(m), names[i], names[j]);
    Order.BeforeIsStrict(PositionsOf(m), names[i], names[j]);
  }

  lemma ApartConcat(s: seq<Resolved>, t: seq<Resolved>)
    requires forall i, j :: 0 <= i < j < |s| ==> s[i].name != s[j].name
    requires forall i, j :: 0 <= i < j < |t| ==> t[i].name != t[j].name
    requires forall i, j :: 0 <= i < |s| && 0 <= j < |t| ==> s[i].name != t[j].name
    requires forall i :: 0 <= i < |s| ==> Apart(s[i].children)
    requires forall i :: 0 <= i < |t| ==> Apart(t[i].children)
    ensures Apart(s + t)
  {
    var all := s + t;
    forall i, j | 0 <= i < j < |all|
      ensures all[i].name != all[j].name
    {
      if i < |s| <= j {
        assert all[j] == t[j - |s|];
      }
    }
  }

  lemma ListedApart(m: map<string, Action>)
    ensures Apart(Listed(m, true) + Listed(m, false))
  {
    forall b: bool, i, j | 0 <= i < j < |Listed(m, b)|
      ensures Listed(m, b)[i].name != Listed(m, b)[j].name
    {
      ListedDistinct(m, b, i, j);
    }
    forall b: bool, i | 0 <= i < |Listed(m, b)|
      ensures Listed(m, b)[i].name in m && m[Listed(m, b)[i].name].fromTerminals == b
      ensures Apart(Listed(m, b)[i].children)
    {
      ListedEntry(m, b, i);
      var k := Listed(m, b)[i].name;
      ResolvedApart(k, None, m[k]);
    }
    ApartConcat(Listed(m, true), Listed(m, false));
  }

  // ---- the ids of a project's merged actions -----------------------------------------------------------

  ghost function AllListed(m: map<string, Action>): seq<Resolved> { Listed(m, true) + Listed(m, false) }

  predicate PlainAction(a: Action)
  {
    forall k :: k in a.children ==> Plain(k) && PlainAction(a.children[k])
  }

  predicate PlainMap(m: map<string, Action>) { forall k :: k in m ==> Plain(k) && PlainAction(m[k]) }

  lemma {:induction false} ResolvedPlain(name: string, parent: Option<Action>, a: Action)
    requires PlainAction(a)
    ensures PlainKeys(Resolve(name, parent, a).children)
    decreases a
  {
    var r := Resolve(name, parent, a);
    forall c | c in r.children
      ensures Plain(c.name) && PlainKeys(c.children)
    {
      var i: nat :| i < |r.children| && r.children[i] == c;
      ChildAt(name, parent, a, i);
      ResolvedPlain(c.name, Some(Effective(parent, a)), a.children[c.name]);
    }
  }

  /** The entries at the top are the merged ones. */
  lemma TopIs(m: map<string, Action>, a: Resolved)
    ensures a in AllListed(m) <==> a.name in m && a == Resolve(a.name, None, m[a.name])
  {
    if a in AllListed(m) {
      var b :| a in Listed(m, b);
      var i: nat :| i < |Listed(m, b)| && Listed(m, b)[i] == a;
      ListedEntry(m, b, i);
    }
    if a.name in m && a == Resolve(a.name, None, m[a.name]) {
      var b := m[a.name].fromTerminals;
      ListsPartition(m, b);
      var names := Map(Listed(m, b), (r: Resolved) => r.name);
      assert a.name in names;
      var i :| 0 <= i < |names| && names[i] == a.name;
      assert Listed(m, b)[i] == a;
    }
  }

  lemma TopNamed(m: map<string, Action>, k: string)
    requires k in m
    ensures Resolve(k, None, m[k]) in AllListed(m) && Resolve(k, None, m[k]).name == k
  {
    TopIs(m, Resolve(k, None, m[k]));
  }

  lemma ListedPlain(m: map<string, Action>)
    requires PlainMap(m)
    ensures PlainKeys(AllListed(m))
  {
    forall a | a in AllListed(m)
      ensures Plain(a.name) && PlainKeys(a.children)
    {
      TopIs(m, a);
      ResolvedPlain(a.name, None, m[a.name]);
    }
  }

  /** No entry under the empty key has a key of the top level, the empty one included. */
  predicate ClearMap(m: map<string, Action>) { "" in m ==> forall k :: k in m[""].children ==> k !in m }

  lemma UnclearListed(m: map<string, Action>, k: string)
    requires "" in m && k in m[""].children && k in m
    ensures !Clear(AllListed(m))
  {
    TopNamed(m, "");
    TopNamed(m, k);
    var a := Resolve("", None, m[""]);
    var i := ChildNamed("", None, m[""], k);
    assert a.children[i] in a.children;
  }

  lemma ClearListed(m: map<string, Action>)
    ensures Clear(AllListed(m)) <==> ClearMap(m)
  {
    var all := AllListed(m);
    if !ClearMap(m) {
      var k :| k in m[""].children && k in m;
      UnclearListed(m, k);
    } else {
      forall a, c, t | a in all && a.name == "" && c in a.children && t in all
        ensures c.name != t.name
      {
        TopIs(m, a);
        TopIs(m, t);
        var i: nat :| i < |a.children| && a.children[i] == c;
        ChildAt("", None, m[""], i);
      }
    }
  }

  ghost predicate OwnIds(m: map<string, Action>) { Distinct(WalkedAll(AllListed(m), "")) }

  /** With keys that hold no colon, each of a project's merged actions has an id of its own
      exactly when no entry under the empty key has a key of the top level. */
  lemma OwnIdsExactlyWhen(m: map<string, Action>)
    requires PlainMap(m)
    ensures OwnIds(m) <==> ClearMap(m)
  {
    ListedApart(m);
    ListedPlain(m);
    ClearListed(m);
    IdsAreDistinct(AllListed(m));
  }

  /** A key with a colon that spells the way to another entry takes its id. */
  lemma ColonKeyCollides(m: map<string, Action>, k: string, c: string)
    requires k in m && k != "" && c in m[k].children && k + ":" + c in m
    ensures !OwnIds(m)
  {
    var all, name := AllListed(m), k + ":" + c;
    TopNamed(m, k);
    TopNamed(m, name);
    var a, t := Resolve(k, None, m[k]), Resolve(name, None, m[name]);
    var i := ChildNamed(k, None, m[k], c);
    var child := a.children[i];
    HeadIsWalked(a.children, k, child);
    var x, y := Target(name, child.title), Target(name, t.title);
    assert x in Walked(a, "") by {
      assert Walked(a, "") == [Target(k, a.title)] + WalkedAll(a.children, k);
    }
    assert y in Walked(t, "");
    if Distinct(WalkedAll(all, "")) {
      TopParts(all, a, t, x, y);
    }
  }

  const LEAF := Action("run", "", "", "", "", [], "", map[], false, "", "", false, "", None, map[], false)

  lemma EmptyKeyMap()
    ensures exists m :: PlainMap(m) && !ClearMap(m)
  {
    var m := map["" := LEAF.(children := map["b" := LEAF]), "b" := LEAF];
    assert PlainAction(LEAF) && PlainAction(m[""]);
    assert "b" in m[""].children && "b" in m;
    assert PlainMap(m) && !ClearMap(m);
  }

  lemma ColonKeyMap()
    ensures exists m: map<string, Action> :: ClearMap(m) && "a" in m && "b" in m["a"].children && "a" + ":" + "b" in m
  {
    var m := map["a" := LEAF.(children := map["b" := LEAF]), "a:b" := LEAF];
    assert "a" + ":" + "b" == "a:b";
    assert ClearMap(m) && "a" in m && "b" in m["a"].children && "a" + ":" + "b" in m;
  }

  /** Both kinds of key do collide in some project: an empty one without any colon, and a colon
      without any empty key. */
  lemma SomeKeysCollide()
    ensures exists m :: PlainMap(m) && !OwnIds(m)
    ensures exists m :: ClearMap(m) && !OwnIds(m)
  {
    EmptyKeyMap();
    var m :| PlainMap(m) && !ClearMap(m);
    OwnIdsExactlyWhen(m);
    ColonKeyMap();
    var n: map<string, Action> :| ClearMap(n) && "a" in n && "b" in n["a"].children && "a" + ":" + "b" in n;
    ColonKeyCollides(n, "a", "b");
  }

  lemma {:induction false} LeafKeyAppend(prefix: string, name: string)
    requires ':' !in name
    ensures LeafKey(prefix + ":" + name) == name
    decreases |name|
  {
    var id := prefix + ":" + name;
    if name != "" {
      var init := name[..|name| - 1];
      assert id[..|id| - 1] == prefix + ":" + init;
      assert id[|id| - 1] == name[|name| - 1];
      LeafKeyAppend(prefix, init);
    }
  }

  /** The last part of an entry's id is its own key, so a bare key finds it at any depth. */
  lemma {:induction false} LeafKeyIsName(prefix: string, name: string)
    requires ':' !in name
    ensures LeafKey(ComposeId(prefix, name)) == name
    decreases |name|
  {
    if prefix != "" {
      LeafKeyAppend(prefix, name);
    } else if name != "" {
      LeafKeyIsName("", name[..|name| - 1]);
    }
  }

  // ---- picking one ------------------------------------------------------------------------------------

  datatype Answer = Found(id: string) | Ambiguous(ids: seq<string>) | NoMatch

  const TIERS := 5

  /** The five ways a target can match, the first that matches anything deciding. */
  predicate Matches(tier: nat, t: Target, query: string, lower: string -> string)
  {
    match tier
    case 0 => t.id == query
    case 1 => LeafKey(t.id) == query
    case 2 => query <= t.id
    case 3 => lower(t.id) == lower(query) || lower(LeafKey(t.id)) == lower(query)
    case 4 => lower(t.title) == lower(query)
    case _ => false
  }

  function Matching(tier: nat, targets: seq<Target>, query: string, lower: string -> string): seq<Target>
  {
    if targets == [] then []
    else (if Matches(tier, targets[0], query, lower) then [targets[0]] else [])
         + Matching(tier, targets[1..], query, lower)
  }

  function Ids(targets: seq<Target>): seq<string> { Map(targets, (t: Target) => t.id) }

  function FromTier(tier: nat, targets: seq<Target>, query: string, lower: string -> string): Answer
    decreases TIERS - tier
  {
    if tier >= TIERS then NoMatch
    else
      var hits := Matching(tier, targets, query, lower);
      if |hits| == 1 then Found(hits[0].id)
      else if hits == [] then FromTier(tier + 1, targets, query, lower)
      else Ambiguous(Ids(hits))
  }

  /** `resolve_run_target`: the first target with exactly that id, or else tier by tier. */
  function ResolveTarget(targets: seq<Target>, query: string, lower: string -> string): Answer
  {
    var exact := Matching(0, targets, query, lower);
    if exact != [] then Found(exact[0].id) else FromTier(1, targets, query, lower)
  }

  ghost predicate Hit(tier: nat, targets: seq<Target>, query: string, lower: string -> string, i: int)
  {
    0 <= i < |targets| && Matches(tier, targets[i], query, lower)
  }

  ghost predicate NoHit(tier: nat, targets: seq<Target>, query: string, lower: string -> string)
  {
    forall i :: !Hit(tier, targets, query, lower, i)
  }

  /** The first tier to match anything. */
  ghost predicate Decides(tier: nat, targets: seq<Target>, query: string, lower: string -> string)
  {
    && tier < TIERS && !NoHit(tier, targets, query, lower)
    && forall k: nat :: k < tier ==> NoHit(k, targets, query, lower)
  }

  ghost predicate Only(tier: nat, targets: seq<Target>, query: string, lower: string -> string, i: int)
  {
    Hit(tier, targets, query, lower, i) && forall j :: Hit(tier, targets, query, lower, j) ==> j == i
  }

  lemma HitShifts(tier: nat, targets: seq<Target>, query: string, lower: string -> string, i: int)
    requires targets != [] && i > 0
    ensures Hit(tier, targets, query, lower, i) <==> Hit(tier, targets[1..], query, lower, i - 1)
  {
  }

  lemma {:induction false} NoneMatches(tier: nat, targets: seq<Target>, query: string, lower: string -> string)
    ensures Matching(tier, targets, query, lower) == [] <==> NoHit(tier, targets, query, lower)
  {
    if targets != [] {
      NoneMatches(tier, targets[1..], query, lower);
      assert Hit(tier, targets, query, lower, 0) <==> Matches(tier, targets[0], query, lower);
      if i :| i > 0 && Hit(tier, targets, query, lower, i) {
        HitShifts(tier, targets, query, lower, i);
      }
      if i :| Hit(tier, targets[1..], query, lower, i) {
        HitShifts(tier, targets, query, lower, i + 1);
      }
    }
  }

  lemma {:induction false} FirstMatch(tier: nat, targets: seq<Target>, query: string, lower: string -> string)
      returns (i: int)
    requires Matching(tier, targets, query, lower) != []
    ensures Hit(tier, targets, query, lower, i) && targets[i] == Matching(tier, targets, query, lower)[0]
  {
    if Matches(tier, targets[0], query, lower) {
      return 0;
    }
    i := FirstMatch(tier, targets[1..], query, lower);
    i := i + 1;
  }

  lemma {:induction false} OneMatch(tier: nat, targets: seq<Target>, query: string, lower: string -> string)
      returns (i: int)
    requires |Matching(tier, targets, query, lower)| == 1
    ensures Only(tier, targets, query, lower, i) && targets[i] == Matching(tier, targets, query, lower)[0]
  {
    if Matches(tier, targets[0], query, lower) {
      i := 0;
      NoneMatches(tier, targets[1..], query, lower);
    } else {
      i := OneMatch(tier, targets[1..], query, lower);
      i := i + 1;
    }
    forall j | Hit(tier, targets, query, lower, j)
      ensures j == i
    {
      if j > 0 {
        HitShifts(tier, targets, query, lower, j);
      }
    }
  }

  lemma {:induction false} TwoMatch(tier: nat, targets: seq<Target>, query: string, lower: string -> string)
      returns (i: int, j: int)
    requires |Matching(tier, targets, query, lower)| >= 2
    ensures i < j && Hit(tier, targets, query, lower, i) && Hit(tier, targets, query, lower, j)
  {
    if Matches(tier, targets[0], query, lower) {
      i := 0;
      j := FirstMatch(tier, targets[1..], query, lower);
    } else {
      i, j := TwoMatch(tier, targets[1..], query, lower);
      i := i + 1;
    }
    j := j + 1;
  }

  lemma OneTier(tier: nat, targets: seq<Target>, query: string, lower: string -> string)
    ensures var hits := Matching(tier, targets, query, lower);
      && (hits == [] <==> NoHit(tier, targets, query, lower))
      && (hits != [] ==> exists i :: Hit(tier, targets, query, lower, i) && targets[i] == hits[0])
      && (|hits| == 1 ==> exists i :: Only(tier, targets, query, lower, i) && targets[i] == hits[0])
      && (|hits| >= 2 ==> NoneAlone(tier, targets, query, lower))
  {
    var hits := Matching(tier, targets, query, lower);
    NoneMatches(tier, targets, query, lower);
    if hits != [] {
      var i := FirstMatch(tier, targets, query, lower);
    }
    if |hits| == 1 {
      var i := OneMatch(tier, targets, query, lower);
    } else if |hits| >= 2 {
      var i, j := TwoMatch(tier, targets, query, lower);
    }
  }

  /** No target is the only one its tier matches. */
  ghost predicate NoneAlone(tier: nat, targets: seq<Target>, query: string, lower: string -> string)
  {
    forall i :: !Only(tier, targets, query, lower, i)
  }

  ghost predicate FitsAt(tier: nat, answer: Answer, targets: seq<Target>, query: string, lower: string -> string)
  {
    && Decides(tier, targets, query, lower)
    && match answer
       case Found(id) => exists i :: Only(tier, targets, query, lower, i) && targets[i].id == id
       case Ambiguous(ids) => NoneAlone(tier, targets, query, lower) && ids == Ids(Matching(tier, targets, query, lower))
       case NoMatch => false
  }

  /** The answer is the only target the deciding tier matches, or ambiguous when that tier
      matches more, or none when no tier matches anything. */
  ghost predicate Fits(answer: Answer, targets: seq<Target>, query: string, lower: string -> string)
  {
    if answer.NoMatch? then forall t: nat :: t < TIERS ==> NoHit(t, targets, query, lower)
    else exists t: nat :: FitsAt(t, answer, targets, query, lower)
  }

  lemma {:induction false} FromTierSays(tier: nat, targets: seq<Target>, query: string, lower: string -> string)
    requires tier <= TIERS && forall k: nat :: k < tier ==> NoHit(k, targets, query, lower)
    ensures Fits(FromTier(tier, targets, query, lower), targets, query, lower)
    decreases TIERS - tier
  {
    if tier < TIERS {
      OneTier(tier, targets, query, lower);
      if Matching(tier, targets, query, lower) == [] {
        FromTierSays(tier + 1, targets, query, lower);
      } else {
        assert FitsAt(tier, FromTier(tier, targets, query, lower), targets, query, lower);
      }
    }
  }

  /** An id always stands for itself. */
  lemma IdResolvesToItself(targets: seq<Target>, lower: string -> string, i: nat)
    requires i < |targets|
    ensures ResolveTarget(targets, targets[i].id, lower) == Found(targets[i].id)
  {
    var query := targets[i].id;
    OneTier(0, targets, query, lower);
    assert Hit(0, targets, query, lower, i);
    var j :| Hit(0, targets, query, lower, j) && targets[j] == Matching(0, targets, query, lower)[0];
  }

  /** No two targets have the query as their id. */
  ghost predicate NotShared(targets: seq<Target>, query: string)
  {
    forall i, j :: 0 <= i < j < |targets| && targets[i].id == query ==> targets[j].id != query
  }

  lemma SharedDoesNotFit(targets: seq<Target>, query: string, lower: string -> string, i: nat, j: nat)
    requires i < j < |targets| && targets[i].id == query && targets[j].id == query
    ensures !Fits(ResolveTarget(targets, query, lower), targets, query, lower)
  {
    IdResolvesToItself(targets, lower, i);
    assert Hit(0, targets, query, lower, i) && Hit(0, targets, query, lower, j);
    assert !NoHit(0, targets, query, lower);
    assert forall t: nat :: t > 0 ==> !Decides(t, targets, query, lower);
    assert NoneAlone(0, targets, query, lower);
  }

  lemma UnsharedIdFits(targets: seq<Target>, query: string, lower: string -> string)
    requires NotShared(targets, query) && Matching(0, targets, query, lower) != []
    ensures Fits(ResolveTarget(targets, query, lower), targets, query, lower)
  {
    OneTier(0, targets, query, lower);
    var i :| Hit(0, targets, query, lower, i) && targets[i] == Matching(0, targets, query, lower)[0];
    forall j | Hit(0, targets, query, lower, j)
      ensures j == i
    {
      assert targets[i].id == query && targets[j].id == query;
      assert !(i < j) && !(j < i);
    }
    assert Only(0, targets, query, lower, i);
    assert FitsAt(0, ResolveTarget(targets, query, lower), targets, query, lower);
  }

  /** The first tier with any match decides a query, exactly when no two targets have the query
      itself as their id. */
  lemma QueryIsDecided(targets: seq<Target>, query: string, lower: string -> string)
    ensures Fits(ResolveTarget(targets, query, lower), targets, query, lower) <==> NotShared(targets, query)
  {
    if i: nat, j: nat :| i < j < |targets| && targets[i].id == query && targets[j].id == query {
      SharedDoesNotFit(targets, query, lower, i, j);
    } else {
      OneTier(0, targets, query, lower);
      if Matching(0, targets, query, lower) == [] {
        FromTierSays(1, targets, query, lower);
      } else {
        UnsharedIdFits(targets, query, lower);
      }
    }
  }

  /** And only one answer fits. */
  lemma OneAnswerFits(targets: seq<Target>, query: string, lower: string -> string, a: Answer, b: Answer)
    requires Fits(a, targets, query, lower) && Fits(b, targets, query, lower)
    ensures a == b
  {
    if !a.NoMatch? && !b.NoMatch? {
      var s: nat :| FitsAt(s, a, targets, query, lower);
      var t: nat :| FitsAt(t, b, targets, query, lower);
      assert !(s < t) && !(t < s);
    }
  }

  /** A bare key that names one entry finds it, unless it is an id itself: no longer id that
      starts with it stands in the way. */
  lemma BareKeyFinds(targets: seq<Target>, query: string, lower: string -> string, i: nat)
    requires NoHit(0, targets, query, lower) && Only(1, targets, query, lower, i)
    ensures ResolveTarget(targets, query, lower) == Found(targets[i].id)
  {
    OneTier(0, targets, query, lower);
    OneTier(1, targets, query, lower);
    assert !NoHit(1, targets, query, lower);
    if |Matching(1, targets, query, lower)| == 1 {
      var j :| Only(1, targets, query, lower, j) && targets[j] == Matching(1, targets, query, lower)[0];
    }
  }

  /** A project's merged actions, with keys that hold no colon: each has an id of its own exactly
      when no entry under the empty key has a key of the top level, and every id, its own or
      not, picks that id. */
  lemma EveryEntryCanBeRun(m: map<string, Action>, lower: string -> string)
    requires PlainMap(m)
    ensures var targets := WalkedAll(AllListed(m), "");
      && (Distinct(targets) <==> ClearMap(m))
      && forall i :: 0 <= i < |targets| ==> ResolveTarget(targets, targets[i].id, lower) == Found(targets[i].id)
  {
    OwnIdsExactlyWhen(m);
    var targets := WalkedAll(AllListed(m), "");
    forall i | 0 <= i < |targets|
      ensures ResolveTarget(targets, targets[i].id, lower) == Found(targets[i].id)
    {
      IdResolvesToItself(targets, lower, i);
    }
  }

  // ---- the five ways, one after the other -----------------------------------------------------------

  ghost predicate NoneIs(targets: seq<Target>, matched: Target -> bool)
  {
    forall i :: 0 <= i < |targets| ==> !matched(targets[i])
  }

  ghost predicate OnlyOneIs(targets: seq<Target>, matched: Target -> bool, i: int)
  {
    0 <= i < |targets| && matched(targets[i]) && forall j :: 0 <= j < |targets| && matched(targets[j]) ==> j == i
  }

  /** What one way of matching makes of a query: the one target it matches, all it matches when
      they are more, and otherwise the next way's answer. */
  ghost predicate ThisWay(targets: seq<Target>, matched: Target -> bool, answer: Answer, next: bool)
  {
    && (NoneIs(targets, matched) ==> next)
    && (forall i :: OnlyOneIs(targets, matched, i) ==> answer == Found(targets[i].id))
    && (!NoneIs(targets, matched) && (forall i :: !OnlyOneIs(targets, matched, i)) ==>
          answer == Ambiguous(IdsOf(targets, matched)))
  }

  function IdsOf(targets: seq<Target>, matched: Target -> bool): seq<string>
  {
    if targets == [] then [] else (if matched(targets[0]) then [targets[0].id] else []) + IdsOf(targets[1..], matched)
  }

  lemma {:induction false} IdsOfMatching(tier: nat, targets: seq<Target>, query: string, lower: string -> string,
                                         matched: Target -> bool)
    requires forall t :: matched(t) <==> Matches(tier, t, query, lower)
    ensures IdsOf(targets, matched) == Ids(Matching(tier, targets, query, lower))
  {
    if targets != [] {
      IdsOfMatching(tier, targets[1..], query, lower, matched);
    }
  }

  lemma TierIs(tier: nat, targets: seq<Target>, query: string, lower: string -> string, matched: Target -> bool)
    requires tier < TIERS && forall t :: matched(t) <==> Matches(tier, t, query, lower)
    ensures ThisWay(targets, matched, FromTier(tier, targets, query, lower),
                    FromTier(tier, targets, query, lower) == FromTier(tier + 1, targets, query, lower))
  {
    IdsOfMatching(tier, targets, query, lower, matched);
    OneTier(tier, targets, query, lower);
    forall i
      ensures Hit(tier, targets, query, lower, i) <==> 0 <= i < |targets| && matched(targets[i])
    {
    }
    assert NoneIs(targets, matched) <==> NoHit(tier, targets, query, lower);
    forall i
      ensures Only(tier, targets, query, lower, i) <==> OnlyOneIs(targets, matched, i)
    {
    }
  }

  ghost predicate ByTitle(targets: seq<Target>, query: string, lower: string -> string, answer: Answer)
  {
    ThisWay(targets, (t: Target) => lower(t.title) == lower(query), answer, answer == NoMatch)
  }

  ghost predicate ByAnyCase(targets: seq<Target>, query: string, lower: string -> string, answer: Answer)
  {
    ThisWay(targets, (t: Target) => lower(t.id) == lower(query) || lower(LeafKey(t.id)) == lower(query), answer,
            ByTitle(targets, query, lower, answer))
  }

  ghost predicate ByPrefix(targets: seq<Target>, query: string, lower: string -> string, answer: Answer)
  {
    ThisWay(targets, (t: Target) => query <= t.id, answer, ByAnyCase(targets, query, lower, answer))
  }

  ghost predicate ByLeaf(targets: seq<Target>, query: string, lower: string -> string, answer: Answer)
  {
    ThisWay(targets, (t: Target) => LeafKey(t.id) == query, answer, ByPrefix(targets, query, lower, answer))
  }

  lemma TitleTier(targets: seq<Target>, query: string, lower: string -> string)
    ensures ByTitle(targets, query, lower, FromTier(4, targets, query, lower))
  {
    TierIs(4, targets, query, lower, (t: Target) => lower(t.title) == lower(query));
  }

  lemma CaseTier(targets: seq<Target>, query: string, lower: string -> string)
    ensures ByAnyCase(targets, query, lower, FromTier(3, targets, query, lower))
  {
    TitleTier(targets, query, lower);
    TierIs(3, targets, query, lower, (t: Target) => lower(t.id) == lower(query) || lower(LeafKey(t.id)) == lower(query));
  }

  lemma PrefixTier(targets: seq<Target>, query: string, lower: string -> string)
    ensures ByPrefix(targets, query, lower, FromTier(2, targets, query, lower))
  {
    CaseTier(targets, query, lower);
    TierIs(2, targets, query, lower, (t: Target) => query <= t.id);
  }

  lemma LeafTier(targets: seq<Target>, query: string, lower: string -> string)
    ensures ByLeaf(targets, query, lower, FromTier(1, targets, query, lower))
  {
    PrefixTier(targets, query, lower);
    TierIs(1, targets, query, lower, (t: Target) => LeafKey(t.id) == query);
  }

  /** A query that is an id stands for it. Any other is answered by the last part of the ids, or
      else by what they begin with, by either of the id and its last part in any case, or by the
      title in any case, the first of them that matches anything. */
  lemma ResolvesInOrder(targets: seq<Target>, query: string, lower: string -> string)
    ensures query in Ids(targets) ==> ResolveTarget(targets, query, lower) == Found(query)
    ensures query !in Ids(targets) ==> ByLeaf(targets, query, lower, ResolveTarget(targets, query, lower))
  {
    if query in Ids(targets) {
      var i :| 0 <= i < |targets| && targets[i].id == query;
      IdResolvesToItself(targets, lower, i);
    } else {
      forall i | 0 <= i < |targets|
        ensures targets[i].id != query
      {
        assert Ids(targets)[i] == targets[i].id;
      }
      OneTier(0, targets, query, lower);
      LeafTier(targets, query, lower);
    }
  }

  // ---- the list, entry by entry ----------------------------------------------------------------------

  /** A way down the tree: which entry at each level. */
  type Way = seq<nat>

  predicate Leads(entries: seq<Resolved>, way: Way)
    decreases |way|
  {
    && way != [] && way[0] < |entries|
    && (|way| == 1 || Leads(entries[way[0]].children, way[1..]))
  }

  function EntryAt(entries: seq<Resolved>, way: Way): Resolved
    requires Leads(entries, way)
    decreases |way|
  {
    if |way| == 1 then entries[way[0]] else EntryAt(entries[way[0]].children, way[1..])
  }

  /** The keys on the way, one after the other with colons between them. */
  function Spelled(entries: seq<Resolved>, prefix: string, way: Way): string
    requires Leads(entries, way)
    decreases |way|
  {
    var id := if prefix == "" then entries[way[0]].name else prefix + ":" + entries[way[0]].name;
    if |way| == 1 then id else Spelled(entries[way[0]].children, id, way[1..])
  }

  /** An entry comes before all below it, and with all below it before the entries after it. */
  predicate Sooner(a: Way, b: Way)
    decreases |a|
  {
    b != [] && (a == [] || a[0] < b[0] || (a[0] == b[0] && Sooner(a[1..], b[1..])))
  }

  function Under(first: nat, ways: seq<Way>): seq<Way>
  {
    seq(|ways|, i requires 0 <= i < |ways| => [first] + ways[i])
  }

  function Beside(ways: seq<Way>): seq<Way>
  {
    seq(|ways|, i requires 0 <= i < |ways| => if ways[i] == [] then [] else [ways[i][0] + 1] + ways[i][1..])
  }

  function Ways(entries: seq<Resolved>): seq<Way>
    decreases entries
  {
    if entries == [] then []
    else [[0]] + Under(0, Ways(entries[0].children)) + Beside(Ways(entries[1..]))
  }

  ghost predicate AreWays(entries: seq<Resolved>, ways: seq<Way>)
  {
    && (forall way :: way in ways <==> Leads(entries, way))
    && forall i, j :: 0 <= i < j < |ways| ==> Sooner(ways[i], ways[j])
  }

  lemma LeadsDown(entries: seq<Resolved>, way: Way)
    requires entries != [] && way != []
    ensures way[0] == 0 && |way| > 1 ==> (Leads(entries, way) <==> Leads(entries[0].children, way[1..]))
    ensures way[0] > 0 ==> (Leads(entries, way) <==> Leads(entries[1..], Before(way)))
  {
    if way[0] > 0 {
      assert Before(way)[1..] == way[1..];
      assert way[0] < |entries| ==> entries[1..][way[0] - 1] == entries[way[0]];
    }
  }

  lemma InUnder(ways: seq<Way>, way: Way)
    ensures way in Under(0, ways) <==> way != [] && way[0] == 0 && way[1..] in ways
  {
    if way != [] && way[0] == 0 && way[1..] in ways {
      var i :| 0 <= i < |ways| && ways[i] == way[1..];
      assert Under(0, ways)[i] == way;
    }
    if way in Under(0, ways) {
      var i :| 0 <= i < |ways| && Under(0, ways)[i] == way;
      assert way[1..] == ways[i];
    }
  }

  /** The same way from the entry before. */
  function Before(way: Way): Way
    requires way != [] && way[0] > 0
  {
    [way[0] - 1] + way[1..]
  }

  lemma BesideIsIn(ways: seq<Way>, i: nat)
    requires i < |ways| && ways[i] != []
    ensures var way := Beside(ways)[i]; way != [] && way[0] > 0 && Before(way) == ways[i]
  {
    var w := ways[i];
    assert ([w[0] + 1] + w[1..])[1..] == w[1..];
    assert [w[0]] + w[1..] == w;
  }

  lemma InIsBeside(ways: seq<Way>, i: nat, way: Way)
    requires i < |ways| && way != [] && way[0] > 0 && ways[i] == Before(way)
    ensures Beside(ways)[i] == way
  {
    assert Before(way)[1..] == way[1..];
    assert [way[0]] + way[1..] == way;
  }

  lemma InBeside(ways: seq<Way>, way: Way)
    requires [] !in ways
    ensures way in Beside(ways) <==> way != [] && way[0] > 0 && Before(way) in ways
  {
    if way != [] && way[0] > 0 && Before(way) in ways {
      var i :| 0 <= i < |ways| && ways[i] == Before(way);
      InIsBeside(ways, i, way);
    }
    if way in Beside(ways) {
      var i :| 0 <= i < |ways| && Beside(ways)[i] == way;
      assert ways[i] in ways;
      BesideIsIn(ways, i);
    }
  }

  lemma SoonerUnder(ways: seq<Way>)
    requires forall i, j :: 0 <= i < j < |ways| ==> Sooner(ways[i], ways[j])
    ensures forall i, j :: 0 <= i < j < |ways| ==> Sooner(Under(0, ways)[i], Under(0, ways)[j])
  {
    forall i, j | 0 <= i < j < |ways|
      ensures Sooner(Under(0, ways)[i], Under(0, ways)[j])
    {
      assert ([0] + ways[i])[1..] == ways[i] && ([0] + ways[j])[1..] == ways[j];
    }
  }

  lemma SoonerBeside(ways: seq<Way>)
    requires [] !in ways && forall i, j :: 0 <= i < j < |ways| ==> Sooner(ways[i], ways[j])
    ensures forall i, j :: 0 <= i < j < |ways| ==> Sooner(Beside(ways)[i], Beside(ways)[j])
  {
    forall i, j | 0 <= i < j < |ways|
      ensures Sooner(Beside(ways)[i], Beside(ways)[j])
    {
      var a, b := ways[i], ways[j];
      assert a in ways && b in ways;
      assert Beside(ways)[i][1..] == a[1..] && Beside(ways)[j][1..] == b[1..];
    }
  }

  /** The ways of a list, from those below its first entry and those of the rest. */
  lemma WaysMeet(entries: seq<Resolved>, below: seq<Way>, rest: seq<Way>)
    requires entries != [] && AreWays(entries[0].children, below) && AreWays(entries[1..], rest)
    ensures AreWays(entries, [[0]] + Under(0, below) + Beside(rest))
  {
    var a, b, c := [[0]], Under(0, below), Beside(rest);
    assert !Leads(entries[1..], []) && !Leads(entries[0].children, []);
    SoonerUnder(below);
    SoonerBeside(rest);
    forall way
      ensures way in a + b + c <==> Leads(entries, way)
    {
      WayIsOne(entries, below, rest, way);
      assert way in a + b + c <==> way in a || way in b || way in c;
    }
    forall way | way in b
      ensures way[0] == 0 && |way| > 1
    {
      InUnder(below, way);
    }
    forall way | way in c
      ensures way != [] && way[0] > 0
    {
      InBeside(rest, way);
    }
    SoonerTogether(b, c);
  }

  lemma SoonerTogether(b: seq<Way>, c: seq<Way>)
    requires forall way :: way in b ==> |way| > 1 && way[0] == 0
    requires forall way :: way in c ==> way != [] && way[0] > 0
    requires forall i, j :: 0 <= i < j < |b| ==> Sooner(b[i], b[j])
    requires forall i, j :: 0 <= i < j < |c| ==> Sooner(c[i], c[j])
    ensures var all := [[0]] + b + c; forall i, j :: 0 <= i < j < |all| ==> Sooner(all[i], all[j])
  {
    forall way | way in b || way in c
      ensures Sooner([0], way)
    {
      assert way in b ==> [0][1..] == [] && way[1..] != [];
    }
    forall x, y | x in b && y in c
      ensures Sooner(x, y)
    {
    }
    var all := [[0]] + b + c;
    forall i, j | 0 <= i < j < |all|
      ensures Sooner(all[i], all[j])
    {
      if j <= |b| {
        assert all[j] in b;
      } else {
        assert all[j] in c;
        assert i == 0 || i > |b| || all[i] in b;
      }
    }
  }

  lemma WayIsOne(entries: seq<Resolved>, below: seq<Way>, rest: seq<Way>, way: Way)
    requires entries != [] && AreWays(entries[0].children, below) && AreWays(entries[1..], rest)
    ensures Leads(entries, way) <==> way == [0] || way in Under(0, below) || way in Beside(rest)
  {
    assert !Leads(entries[1..], []) && !Leads(entries[0].children, []);
    InUnder(below, way);
    InBeside(rest, way);
    if way != [] {
      LeadsDown(entries, way);
      assert way[0] == 0 && |way| == 1 ==> way == [0];
    }
  }

  lemma {:induction false} WaysAreAll(entries: seq<Resolved>)
    ensures AreWays(entries, Ways(entries))
    decreases entries
  {
    if entries != [] {
      WaysAreAll(entries[0].children);
      WaysAreAll(entries[1..]);
      WaysMeet(entries, Ways(entries[0].children), Ways(entries[1..]));
    }
  }

  /** What the list has for the entries at the ends of some ways. */
  ghost predicate ListsAt(entries: seq<Resolved>, prefix: string, ways: seq<Way>, targets: seq<Target>)
  {
    && |targets| == |ways|
    && forall i :: 0 <= i < |ways| ==> IsTargetAt(entries, prefix, ways[i], targets[i])
  }

  ghost predicate IsTargetAt(entries: seq<Resolved>, prefix: string, way: Way, t: Target)
  {
    Leads(entries, way) && t == Target(Spelled(entries, prefix, way), EntryAt(entries, way).title)
  }

  lemma TargetBelow(entries: seq<Resolved>, prefix: string, way: Way, t: Target)
    requires entries != [] && IsTargetAt(entries[0].children, ComposeId(prefix, entries[0].name), way, t)
    ensures IsTargetAt(entries, prefix, [0] + way, t)
  {
    assert ([0] + way)[1..] == way;
  }

  lemma TargetBeside(entries: seq<Resolved>, prefix: string, way: Way, t: Target)
    requires entries != [] && way != [] && IsTargetAt(entries[1..], prefix, way, t)
    ensures IsTargetAt(entries, prefix, [way[0] + 1] + way[1..], t)
  {
    var other: Way := [way[0] + 1] + way[1..];
    assert other[1..] == way[1..];
    assert entries[1..][way[0]] == entries[way[0] + 1];
  }

  lemma {:induction false} ListIsAt(entries: seq<Resolved>, prefix: string)
    ensures ListsAt(entries, prefix, Ways(entries), WalkedAll(entries, prefix))
    decreases entries
  {
    if entries != [] {
      var a := entries[0];
      var id := ComposeId(prefix, a.name);
      ListIsAt(a.children, id);
      ListIsAt(entries[1..], prefix);
      ListMeets(entries, prefix, Ways(a.children), Ways(entries[1..]), WalkedAll(a.children, id),
                WalkedAll(entries[1..], prefix));
    }
  }

  lemma ListMeets(entries: seq<Resolved>, prefix: string, below: seq<Way>, rest: seq<Way>, x: seq<Target>, y: seq<Target>)
    requires entries != [] && ListsAt(entries[0].children, ComposeId(prefix, entries[0].name), below, x)
    requires ListsAt(entries[1..], prefix, rest, y)
    ensures ListsAt(entries, prefix, [[0]] + Under(0, below) + Beside(rest),
                    [Target(ComposeId(prefix, entries[0].name), entries[0].title)] + x + y)
  {
    var ways := [[0]] + Under(0, below) + Beside(rest);
    var targets := [Target(ComposeId(prefix, entries[0].name), entries[0].title)] + x + y;
    forall i | 0 <= i < |ways|
      ensures IsTargetAt(entries, prefix, ways[i], targets[i])
    {
      if i == 0 {
        assert Leads(entries, [0]);
      } else if i <= |below| {
        assert IsTargetAt(entries[0].children, ComposeId(prefix, entries[0].name), below[i - 1], x[i - 1]);
        TargetBelow(entries, prefix, below[i - 1], x[i - 1]);
      } else {
        var k := i - 1 - |below|;
        assert IsTargetAt(entries[1..], prefix, rest[k], y[k]);
        TargetBeside(entries, prefix, rest[k], y[k]);
      }
    }
  }

  /** The list has every entry of the tree once, each under the keys on its way and with its
      title, an entry before all below it and those before the next beside it. */
  lemma ListIsPreorder(entries: seq<Resolved>)
    ensures exists ways :: AreWays(entries, ways) && ListsAt(entries, "", ways, WalkedAll(entries, ""))
  {
    WaysAreAll(entries);
    ListIsAt(entries, "");
  }
}
