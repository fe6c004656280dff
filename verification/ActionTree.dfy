/** The tree of actions as it is shown and run (cli/src/config.rs): children inherit from
    what is above them, and every level is listed in order. */
module ActionTree {
  import opened Hex
  import opened Layers
  import opened Order

  datatype Resolved = Resolved(
    name: string, title: string, emoji: string, shortcut: string, cmd: string, cwd: string, ports: seq<int>,
    kind: string, display: string, confirm: bool, reuse: bool, position: Option<real>,
    env: map<string, string>, children: seq<Resolved>)

  /** `resolved_child`: where a child says nothing its parent's word holds, and its variables
      go over the parent's. */
  function Inherit(parent: Action, child: Action): Action
  {
    child.(cwd := if child.cwd == "" then parent.cwd else child.cwd,
           mode := if child.mode == "" then parent.mode else child.mode,
           portConflict := if child.portConflict == "" then parent.portConflict else child.portConflict,
           kind := if child.kind == "" then parent.kind else child.kind,
           env := parent.env + child.env)
  }

  function Effective(parent: Option<Action>, a: Action): (r: Action)
    ensures r.children == a.children
  {
    if parent.None? then a else Inherit(parent.value, a)
  }

  /** Inheriting leaves a child's position as it is. */
  function PositionsOf(m: map<string, Action>): Positions { map k | k in m :: m[k].position }

  /** `to_resolved_action`, for an entry under `parent`. */
  ghost function Resolve(name: string, parent: Option<Action>, a: Action): Resolved
    decreases a
  {
    var e := Effective(parent, a);
    var names := InOrder(PositionsOf(a.children), a.children.Keys);
    Resolved(
      name, if e.title == "" then name else e.title, e.emoji, e.shortcut, e.cmd, e.cwd, Ports(e.port),
      e.kind, e.display, e.confirm, e.reuse, e.position, e.env,
      seq(|names|, i requires 0 <= i < |names| =>
        assert names[i] in names;
        Resolve(names[i], Some(e), a.children[names[i]])))
  }

  // ---- what an entry at the end of a path is -----------------------------------------------

  /** Whether the path of child names leads to an entry; and the entries on it, from the top
      one down. */
  predicate HasPath(a: Action, path: seq<string>)
    decreases |path|
  {
    path == [] || (path[0] in a.children && HasPath(a.children[path[0]], path[1..]))
  }

  function Entries(above: seq<Action>, a: Action, path: seq<string>): (r: seq<Action>)
    requires HasPath(a, path)
    ensures r != []
    decreases |path|
  {
    if path == [] then above + [a] else Entries(above + [a], a.children[path[0]], path[1..])
  }

  /** `r` is what the resolved tree holds at the end of the path. */
  ghost predicate IsAt(top: Resolved, path: seq<string>, r: Resolved)
    decreases |path|
  {
    if path == [] then r == top
    else exists i :: 0 <= i < |top.children| && top.children[i].name == path[0] && IsAt(top.children[i], path[1..], r)
  }

  /** The last text of the list that is not empty, which is the nearest to the entry. */
  function Nearest(texts: seq<string>): string
  {
    if texts == [] then ""
    else if texts[|texts| - 1] != "" then texts[|texts| - 1]
    else Nearest(texts[..|texts| - 1])
  }

  /** All the variables, the later ones winning. */
  function Overlay(envs: seq<map<string, string>>): map<string, string>
  {
    if envs == [] then map[] else Overlay(envs[..|envs| - 1]) + envs[|envs| - 1]
  }

  lemma NearestAppend(texts: seq<string>, t: string)
    ensures Nearest(texts + [t]) == if t != "" then t else Nearest(texts)
  {
    assert (texts + [t])[..|texts|] == texts;
  }

  lemma OverlayAppend(envs: seq<map<string, string>>, e: map<string, string>)
    ensures Overlay(envs + [e]) == Overlay(envs) + e
  {
    assert (envs + [e])[..|envs|] == envs;
  }

  /** What an entry inherited, told from the entries above it and itself. */
  ghost predicate Inherits(above: seq<Action>, e: Action)
  {
    && e.cwd == Nearest(Map(above, (x: Action) => x.cwd))
    && e.kind == Nearest(Map(above, (x: Action) => x.kind))
    && e.mode == Nearest(Map(above, (x: Action) => x.mode))
    && e.portConflict == Nearest(Map(above, (x: Action) => x.portConflict))
    && e.env == Overlay(Map(above, (x: Action) => x.env))
  }

  lemma MapAppend<A, B>(entries: seq<A>, x: A, field: A -> B)
    ensures Map(entries + [x], field) == Map(entries, field) + [field(x)]
  {
  }

  lemma InheritsOneMore(above: seq<Action>, e: Action, a: Action)
    requires Inherits(above, e)
    ensures Inherits(above + [a], Inherit(e, a))
  {
    MapAppend(above, a, (x: Action) => x.cwd);
    MapAppend(above, a, (x: Action) => x.kind);
    MapAppend(above, a, (x: Action) => x.mode);
    MapAppend(above, a, (x: Action) => x.portConflict);
    MapAppend(above, a, (x: Action) => x.env);
    NearestAppend(Map(above, (x: Action) => x.cwd), a.cwd);
    NearestAppend(Map(above, (x: Action) => x.kind), a.kind);
    NearestAppend(Map(above, (x: Action) => x.mode), a.mode);
    NearestAppend(Map(above, (x: Action) => x.portConflict), a.portConflict);
    OverlayAppend(Map(above, (x: Action) => x.env), a.env);
  }

  lemma MapOne<A, B>(x: A, field: A -> B)
    ensures Map([x], field) == [field(x)]
  {
  }

  lemma NearestOne(t: string)
    ensures Nearest([t]) == t
  {
    assert [t][..0] == [];
  }

  lemma OverlayOne(e: map<string, string>)
    ensures Overlay([e]) == e
  {
    assert [e][..0] == [];
    assert map[] + e == e;
  }

  lemma InheritsAlone(a: Action)
    ensures Inherits([a], a)
  {
    NearestOne(a.cwd);
    NearestOne(a.kind);
    NearestOne(a.mode);
    NearestOne(a.portConflict);
    OverlayOne(a.env);
    MapOne(a, (x: Action) => x.cwd);
    MapOne(a, (x: Action) => x.kind);
    MapOne(a, (x: Action) => x.mode);
    MapOne(a, (x: Action) => x.portConflict);
    MapOne(a, (x: Action) => x.env);
  }

  // ---- the tree resolved as a whole -----------------------------------------------------------

  /** What the entry at the end of the path `above` comes out as, whatever the depth. */
  ghost predicate Says(r: Resolved, name: string, above: seq<Action>)
    requires above != []
  {
    var own := above[|above| - 1];
    && r.name == name && r.title == (if own.title == "" then name else own.title)
    && r.emoji == own.emoji && r.shortcut == own.shortcut && r.display == own.display
    && r.cmd == own.cmd && r.ports == Ports(own.port) && r.position == own.position
    && r.confirm == own.confirm && r.reuse == own.reuse
    && r.cwd == Nearest(Map(above, (x: Action) => x.cwd))
    && r.kind == Nearest(Map(above, (x: Action) => x.kind))
    && r.env == Overlay(Map(above, (x: Action) => x.env))
    && Map(r.children, (c: Resolved) => c.name) == InOrder(PositionsOf(own.children), own.children.Keys)
  }

  function NameAt(name: string, path: seq<string>): string
    decreases |path|
  {
    if path == [] then name else NameAt(path[0], path[1..])
  }

  /** The entries above an entry, which its parent inherited from. */
  ghost predicate Under(parent: Option<Action>, above: seq<Action>)
  {
    if parent.None? then above == [] else Inherits(above, parent.value)
  }

  lemma EffectiveInherits(parent: Option<Action>, above: seq<Action>, a: Action)
    requires Under(parent, above)
    ensures Inherits(above + [a], Effective(parent, a))
  {
    if parent.None? {
      assert above + [a] == [a];
      InheritsAlone(a);
    } else {
      InheritsOneMore(above, parent.value, a);
    }
  }

  lemma OwnSays(name: string, parent: Option<Action>, above: seq<Action>, a: Action)
    requires Under(parent, above)
    ensures Says(Resolve(name, parent, a), name, above + [a])
  {
    EffectiveInherits(parent, above, a);
    var r := Resolve(name, parent, a);
    var names := InOrder(PositionsOf(a.children), a.children.Keys);
    var listed := Map(r.children, (c: Resolved) => c.name);
    forall i | 0 <= i < |names|
      ensures listed[i] == names[i]
    {
      ChildAt(name, parent, a, i);
      assert r.children[i].name == names[i];
    }
    assert listed == names;
  }

  /** One step down: a child of the resolved entry is that child, resolved under the entry. */
  lemma ChildAt(name: string, parent: Option<Action>, a: Action, i: nat)
    requires i < |Resolve(name, parent, a).children|
    ensures var c := Resolve(name, parent, a).children[i];
      c.name in a.children && c == Resolve(c.name, Some(Effective(parent, a)), a.children[c.name])
  {
    var names := InOrder(PositionsOf(a.children), a.children.Keys);
    assert names[i] in names;
  }

  lemma ChildNamed(name: string, parent: Option<Action>, a: Action, k: string) returns (i: nat)
    requires k in a.children
    ensures i < |Resolve(name, parent, a).children| && Resolve(name, parent, a).children[i].name == k
  {
    var names := InOrder(PositionsOf(a.children), a.children.Keys);
    assert k in names;
    i :| 0 <= i < |names| && names[i] == k;
  }

  lemma StepDown(name: string, parent: Option<Action>, a: Action, path: seq<string>, r: Resolved)
    requires path != [] && IsAt(Resolve(name, parent, a), path, r)
    ensures path[0] in a.children
    ensures IsAt(Resolve(path[0], Some(Effective(parent, a)), a.children[path[0]]), path[1..], r)
  {
    var kids := Resolve(name, parent, a).children;
    var i: nat :| i < |kids| && kids[i].name == path[0] && IsAt(kids[i], path[1..], r);
    ChildAt(name, parent, a, i);
  }

  lemma {:induction false} PathSays(name: string, parent: Option<Action>, above: seq<Action>, a: Action,
                                    path: seq<string>, r: Resolved)
    requires Under(parent, above) && IsAt(Resolve(name, parent, a), path, r)
    ensures HasPath(a, path) && Says(r, NameAt(name, path), Entries(above, a, path))
    decreases |path|
  {
    if path == [] {
      OwnSays(name, parent, above, a);
    } else {
      StepDown(name, parent, a, path, r);
      var child := a.children[path[0]];
      EffectiveInherits(parent, above, a);
      PathSays(path[0], Some(Effective(parent, a)), above + [a], child, path[1..], r);
    }
  }

  lemma {:induction false} PathIsThere(name: string, parent: Option<Action>, a: Action, path: seq<string>)
    requires HasPath(a, path)
    ensures exists r :: IsAt(Resolve(name, parent, a), path, r)
    decreases |path|
  {
    var top := Resolve(name, parent, a);
    if path == [] {
      assert IsAt(top, path, top);
    } else {
      var i := ChildNamed(name, parent, a, path[0]);
      ChildAt(name, parent, a, i);
      PathIsThere(path[0], Some(Effective(parent, a)), a.children[path[0]], path[1..]);
      var r :| IsAt(top.children[i], path[1..], r);
      assert IsAt(top, path, r);
    }
  }

  /** At any depth: the resolved tree has an entry at the end of a path exactly when the merged
      one has, and it takes its folder and kind from itself or else the nearest entry above
      that names one, and its variables from all of them, the deeper winning. */
  lemma TreeInherits(name: string, a: Action, path: seq<string>)
    ensures (exists r :: IsAt(Resolve(name, None, a), path, r)) <==> HasPath(a, path)
    ensures forall r :: IsAt(Resolve(name, None, a), path, r) ==>
              HasPath(a, path) && Says(r, NameAt(name, path), Entries([], a, path))
  {
    if HasPath(a, path) {
      PathIsThere(name, None, a, path);
    }
    forall r | IsAt(Resolve(name, None, a), path, r)
      ensures HasPath(a, path) && Says(r, NameAt(name, path), Entries([], a, path))
    {
      PathSays(name, None, [], a, path, r);
    }
  }

  // ---- terminals and actions --------------------------------------------------------------------

  ghost function Listed(m: map<string, Action>, terminals: bool): seq<Resolved>
  {
    var names := InOrder(PositionsOf(m), set k | k in m && m[k].fromTerminals == terminals);
    seq(|names|, i requires 0 <= i < |names| =>
      assert names[i] in names;
      Resolve(names[i], None, m[names[i]]))
  }

  /** The two lists share out the merged entries between them, each in order: an entry is in
      the terminals when it was first declared as one, and in the actions otherwise. */
  lemma ListsPartition(m: map<string, Action>, terminals: bool)
    ensures var names := Map(Listed(m, terminals), (r: Resolved) => r.name);
      && Sorted(PositionsOf(m), names)
      && (forall k :: k in names <==> k in m && m[k].fromTerminals == terminals)
      && (forall i :: 0 <= i < |names| ==>
            names[i] in m && Listed(m, terminals)[i] == Resolve(names[i], None, m[names[i]]))
  {
    var names := InOrder(PositionsOf(m), set k | k in m && m[k].fromTerminals == terminals);
    assert Map(Listed(m, terminals), (r: Resolved) => r.name) == names;
    forall i | 0 <= i < |names|
      ensures names[i] in m
    {
      assert names[i] in names;
    }
  }

  /** The names of both lists, picked out of the merged map and sorted. */
  method SplitNames(m: map<string, Action>) returns (terminals: seq<string>, actions: seq<string>)
    ensures terminals == InOrder(PositionsOf(m), set k | k in m && m[k].fromTerminals)
    ensures actions == InOrder(PositionsOf(m), set k | k in m && !m[k].fromTerminals)
  {
    terminals, actions := [], [];
    var left := m.Keys;
    while left != {}
      invariant left <= m.Keys
      invariant forall k :: k in terminals <==> k in m && k !in left && m[k].fromTerminals
      invariant forall k :: k in actions <==> k in m && k !in left && !m[k].fromTerminals
      invariant forall i, j :: 0 <= i < j < |terminals| ==> terminals[i] != terminals[j]
      invariant forall i, j :: 0 <= i < j < |actions| ==> actions[i] != actions[j]
      decreases left
    {
      var k :| k in left;
      if m[k].fromTerminals {
        terminals := terminals + [k];
      } else {
        actions := actions + [k];
      }
      left := left - {k};
    }
    assert (set n | n in terminals) == set k | k in m && m[k].fromTerminals;
    assert (set n | n in actions) == set k | k in m && !m[k].fromTerminals;
    terminals := SortByPosition(PositionsOf(m), terminals);
    actions := SortByPosition(PositionsOf(m), actions);
  }
}
