/** The check of a config's service dependencies for a cycle (cli/src/config_cmd.rs): a
    depth-first search that keeps the services it is done with and those it is inside of. */
module DependencyGraph {
  import opened Hex

  type Graph = map<string, seq<string>>

  function Deps(g: Graph, name: string): seq<string> { if name in g then g[name] else [] }

  /** Each name on a walk depends on the next. */
  predicate Walk(g: Graph, w: seq<string>)
  {
    w != [] && forall i {:trigger w[i]} :: 0 <= i < |w| - 1 ==> w[i + 1] in Deps(g, w[i])
  }

  predicate Cycle(g: Graph, c: seq<string>)
  {
    |c| >= 2 && Walk(g, c) && c[0] == c[|c| - 1]
  }

  ghost predicate Reaches(g: Graph, names: seq<string>, name: string)
  {
    exists w :: Walk(g, w) && w[0] in names && w[|w| - 1] == name
  }

  /** Every name the search can meet. */
  ghost function Universe(g: Graph, names: seq<string>): set<string>
  {
    (set n | n in names) + g.Keys + (set n, d | n in g.Keys && d in g[n] :: d)
  }

  /** `all` holds every name the search can meet. */
  ghost predicate Bounds(g: Graph, names: seq<string>, all: set<string>)
  {
    && (forall n :: n in names ==> n in all)
    && (forall n, d :: d in Deps(g, n) ==> d in all)
  }

  ghost function Members(s: seq<string>): set<string> { set n | n in s }

  ghost predicate Distinct(s: seq<string>) { forall i, j :: 0 <= i < j < |s| ==> s[i] != s[j] }

  /** Names in the order the search finished with them: all a name depends on comes before it. */
  ghost predicate Finished(g: Graph, order: seq<string>)
  {
    && Distinct(order)
    && forall i :: 0 <= i < |order| ==> forall d :: d in Deps(g, order[i]) ==> d in order[..i]
  }

  /** Along a walk from a finished name the finishing times fall. */
  lemma {:induction false} WalkDescends(g: Graph, order: seq<string>, w: seq<string>, i: nat, k: nat)
    requires Finished(g, order) && Walk(g, w) && i < |order| && order[i] == w[0] && k < |w|
    ensures k <= i && w[k] in order[..i - k + 1]
  {
    if k > 0 {
      WalkDescends(g, order, w, i, k - 1);
      var j :| 0 <= j < i - k + 2 && order[j] == w[k - 1];
      assert w[k] in Deps(g, w[k - 1]);
      assert w[k] in order[..j];
    }
  }

  lemma FinishedHasNoCycle(g: Graph, order: seq<string>, c: seq<string>)
    requires Finished(g, order) && Cycle(g, c)
    ensures c[0] !in order
  {
    if c[0] in order {
      var i :| 0 <= i < |order| && order[i] == c[0];
      WalkDescends(g, order, c, i, |c| - 1);
      assert false;
    }
  }

  lemma {:induction false} FinishedIsClosed(g: Graph, order: seq<string>, w: seq<string>, k: nat)
    requires Finished(g, order) && Walk(g, w) && w[0] in order && k < |w|
    ensures w[k] in order
  {
    if k > 0 {
      FinishedIsClosed(g, order, w, k - 1);
      var j :| 0 <= j < |order| && order[j] == w[k - 1];
      assert w[k] in Deps(g, w[k - 1]);
    }
  }

  /** What the search is inside of: a walk from a name it started at. */
  ghost predicate OnStack(g: Graph, names: seq<string>, all: set<string>, stack: seq<string>)
  {
    && Distinct(stack) && Members(stack) <= all
    && (stack != [] ==> Walk(g, stack) && stack[0] in names)
  }

  /** The name is next: the first of a search, or one the last name on the stack depends on. */
  ghost predicate Next(g: Graph, names: seq<string>, stack: seq<string>, name: string)
  {
    if stack == [] then name in names else name in Deps(g, stack[|stack| - 1])
  }

  lemma PushKeeps(g: Graph, names: seq<string>, all: set<string>, stack: seq<string>, name: string)
    requires Bounds(g, names, all)
    requires OnStack(g, names, all, stack) && Next(g, names, stack, name) && name !in stack
    ensures OnStack(g, names, all, stack + [name]) && name in all
    ensures Members(stack + [name]) == Members(stack) + {name}
  {
    var s := stack + [name];
    forall i | 0 <= i < |s| - 1
      ensures s[i + 1] in Deps(g, s[i])
    {
      if i < |stack| - 1 {
        assert stack[i + 1] in Deps(g, stack[i]);
      }
    }
  }

  lemma PopKeeps(g: Graph, names: seq<string>, all: set<string>, base: seq<string>, name: string)
    requires OnStack(g, names, all, base + [name])
    ensures OnStack(g, names, all, base) && name !in base
  {
    var stack := base + [name];
    assert forall i :: 0 <= i < |base| ==> base[i] == stack[i];
    assert Distinct(base);
    forall n | n in Members(base)
      ensures n in all
    {
      assert n in Members(stack);
    }
    forall i | 0 <= i < |base| - 1
      ensures base[i + 1] in Deps(g, base[i])
    {
      assert stack[i + 1] in Deps(g, stack[i]);
    }
    forall i | 0 <= i < |base|
      ensures base[i] != name
    {
      assert stack[i] != stack[|base|];
    }
  }

  lemma FinishOne(g: Graph, order: seq<string>, name: string)
    requires Finished(g, order) && name !in order
    requires forall d :: d in Deps(g, name) ==> d in order
    ensures Finished(g, order + [name]) && Members(order + [name]) == Members(order) + {name}
  {
    var o := order + [name];
    forall i | 0 <= i < |o|
      ensures forall d :: d in Deps(g, o[i]) ==> d in o[..i]
    {
      assert o[..i] == order[..i];
      assert order[..|order|] == order;
    }
  }

  /** `w` is the stack from `index` on. */
  ghost predicate IsTail(w: seq<string>, stack: seq<string>, index: nat)
  {
    index < |stack| && |w| == |stack| - index && forall i {:trigger w[i]} :: 0 <= i < |w| ==> w[i] == stack[index + i]
  }

  lemma TailWalks(g: Graph, stack: seq<string>, index: nat, w: seq<string>)
    requires Walk(g, stack) && IsTail(w, stack, index)
    ensures Walk(g, w) && w[0] == stack[index] && w[|w| - 1] == stack[|stack| - 1]
  {
    forall i | 0 <= i < |w| - 1
      ensures w[i + 1] in Deps(g, w[i])
    {
      assert w[i] == stack[index + i] && w[i + 1] == stack[index + i + 1];
    }
  }

  lemma OneMoreStep(g: Graph, w: seq<string>, name: string)
    requires Walk(g, w) && name in Deps(g, w[|w| - 1])
    ensures Walk(g, w + [name])
  {
    var c := w + [name];
    forall i | 0 <= i < |c| - 1
      ensures c[i + 1] in Deps(g, c[i])
    {
      if i < |w| - 1 {
        assert w[i + 1] in Deps(g, w[i]);
      }
    }
  }

  lemma ClosedWalk(g: Graph, w: seq<string>, name: string)
    requires Walk(g, w) && name in Deps(g, w[|w| - 1]) && w[0] == name
    ensures Cycle(g, w + [name])
  {
    var c := w + [name];
    OneMoreStep(g, w, name);
    assert c[0] == w[0] && c[|c| - 1] == name;
  }

  lemma CycleOnStack(g: Graph, names: seq<string>, all: set<string>, stack: seq<string>, index: nat, w: seq<string>)
    requires OnStack(g, names, all, stack) && IsTail(w, stack, index) && Next(g, names, stack, stack[index])
    ensures Cycle(g, w + [stack[index]]) && Reaches(g, names, stack[index])
  {
    TailWalks(g, stack, index, w);
    ClosedWalk(g, w, stack[index]);
    StackIsReached(g, names, all, stack, index);
  }

  lemma StackIsReached(g: Graph, names: seq<string>, all: set<string>, stack: seq<string>, index: nat)
    requires OnStack(g, names, all, stack) && index < |stack|
    ensures Reaches(g, names, stack[index])
  {
    var w := stack[..index + 1];
    forall i | 0 <= i < |w| - 1
      ensures w[i + 1] in Deps(g, w[i])
    {
      assert stack[i + 1] in Deps(g, stack[i]);
    }
    assert Walk(g, w) && w[0] in names && w[|w| - 1] == stack[index];
  }

  class Search {
    const g: Graph
    ghost const names: seq<string>
    ghost const all: set<string>
    var done: set<string>
    var stack: seq<string>
    ghost var order: seq<string>

    ghost predicate Valid()
      reads this
    {
      && Bounds(g, names, all) && Finished(g, order) && Members(order) == done
      && OnStack(g, names, all, stack) && Members(stack) !! done
    }

    constructor (g: Graph, ghost names: seq<string>)
      ensures Valid() && this.g == g && this.names == names && stack == [] && done == {}
    {
      this.g, this.names, all := g, names, Universe(g, names);
      done, stack, order := {}, [], [];
    }

    method Find(name: string) returns (index: Option<nat>)
      ensures index.None? ==> name !in stack
      ensures index.Some? ==> index.value < |stack| && stack[index.value] == name
    {
      var i := 0;
      while i < |stack|
        invariant 0 <= i <= |stack| && name !in stack[..i]
      {
        if stack[i] == name {
          return Some(i);
        }
        i := i + 1;
      }
      return None;
    }

    method Enter(name: string)
      requires Valid() && Next(g, names, stack, name) && name !in stack && name !in done
      modifies this`stack
      ensures Valid() && stack == old(stack) + [name] && name in all
      ensures Members(stack) == Members(old(stack)) + {name} && name !in Members(old(stack))
    {
      PushKeeps(g, names, all, stack, name);
      stack := stack + [name];
    }

    method Leave(ghost base: seq<string>, name: string)
      requires Valid() && stack == base + [name]
      requires forall d :: d in Deps(g, name) ==> d in done
      modifies this`done, this`stack, this`order
      ensures Valid() && stack == base && done == old(done) + {name}
    {
      PopKeeps(g, names, all, base, name);
      assert name in Members(stack);
      assert forall n :: n in order <==> n in Members(order);
      FinishOne(g, order, name);
      stack := stack[..|stack| - 1];
      assert stack == base;
      done := done + {name};
      order := order + [name];
    }

    method Visit(name: string) returns (cycle: Option<seq<string>>)
      requires Valid() && Next(g, names, stack, name)
      modifies this`done, this`stack, this`order
      ensures cycle.None? ==> Valid() && stack == old(stack) && done >= old(done) + {name}
      ensures cycle.Some? ==> Cycle(g, cycle.value) && Reaches(g, names, cycle.value[0])
      decreases all - Members(stack), 0
    {
      if name in done {
        return None;
      }
      var index := Find(name);
      if index.Some? {
        var around := stack[index.value..];
        CycleOnStack(g, names, all, stack, index.value, around);
        cycle := Some(around + [name]);
        return;
      }
      ghost var base := stack;
      Enter(name);
      cycle := VisitAll(base, name);
      if cycle.None? {
        Leave(base, name);
      }
    }

    /** All the name on top depends on. */
    method VisitAll(ghost base: seq<string>, name: string) returns (cycle: Option<seq<string>>)
      requires Valid() && stack == base + [name] && name in all
      modifies this`done, this`stack, this`order
      ensures cycle.None? ==>
        Valid() && stack == old(stack) && done >= old(done) && forall d :: d in Deps(g, name) ==> d in done
      ensures cycle.Some? ==> Cycle(g, cycle.value) && Reaches(g, names, cycle.value[0])
      decreases all - Members(stack), 1
    {
      var deps := Deps(g, name);
      var i := 0;
      while i < |deps|
        invariant 0 <= i <= |deps|
        invariant Valid() && stack == base + [name] && done >= old(done)
        invariant forall d :: d in deps[..i] ==> d in done
      {
        cycle := Visit(deps[i]);
        if cycle.Some? {
          return;
        }
        i := i + 1;
      }
      assert deps[..|deps|] == deps;
      return None;
    }
  }

  /** Visits all names in order, up to the first cycle. */
  method VisitNames(g: Graph, names: seq<string>) returns (cycle: Option<seq<string>>)
    ensures cycle.Some? ==> Cycle(g, cycle.value) && Reaches(g, names, cycle.value[0])
    ensures cycle.None? ==> NoneReached(g, names)
  {
    var search := new Search(g, names);
    var i := 0;
    while i < |names|
      invariant 0 <= i <= |names|
      invariant fresh(search) && search.g == g && search.names == names
      invariant search.Valid() && search.stack == []
      invariant forall n :: n in names[..i] ==> n in search.done
    {
      cycle := search.Visit(names[i]);
      if cycle.Some? {
        return;
      }
      i := i + 1;
    }
    assert names[..|names|] == names;
    NoCycleLeft(g, names, search.order, search.done);
    return None;
  }

  ghost predicate NoneReached(g: Graph, names: seq<string>)
  {
    !exists c :: Cycle(g, c) && Reaches(g, names, c[0])
  }

  /** The search over all services, in order: it ends on every graph, what it reports is a
      cycle, and it reports one exactly when one can be reached from a service. */
  method FindCycle(g: Graph, names: seq<string>) returns (cycle: Option<seq<string>>)
    ensures cycle.Some? ==> Cycle(g, cycle.value) && Reaches(g, names, cycle.value[0])
    ensures cycle.Some? <==> exists c :: Cycle(g, c) && Reaches(g, names, c[0])
    ensures (forall n :: n in g ==> n in names) ==> (cycle.Some? <==> exists c :: Cycle(g, c))
  {
    cycle := VisitNames(g, names);
    if forall n :: n in g ==> n in names {
      DeclaredReachesAll(g, names);
    }
  }

  lemma NoCycleLeft(g: Graph, names: seq<string>, order: seq<string>, done: set<string>)
    requires Finished(g, order) && Members(order) == done && forall n :: n in names ==> n in done
    ensures NoneReached(g, names)
  {
    forall c | Cycle(g, c) && Reaches(g, names, c[0])
      ensures false
    {
      var w :| Walk(g, w) && w[0] in names && w[|w| - 1] == c[0];
      assert w[0] in Members(order);
      FinishedIsClosed(g, order, w, |w| - 1);
      FinishedHasNoCycle(g, order, c);
    }
  }

  /** When every service that depends on something is among those searched, a cycle can be
      reached exactly when there is one at all. */
  lemma DeclaredReachesAll(g: Graph, names: seq<string>)
    requires forall n :: n in g ==> n in names
    ensures (exists c :: Cycle(g, c)) <==> (exists c :: Cycle(g, c) && Reaches(g, names, c[0]))
  {
    forall c | Cycle(g, c)
      ensures Reaches(g, names, c[0])
    {
      assert c[1] in Deps(g, c[0]);
      assert Walk(g, [c[0]]) && [c[0]][0] in names;
    }
  }
}
