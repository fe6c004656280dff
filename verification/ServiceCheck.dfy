/** The services of a resolved project checked together (cli/src/config_cmd.rs). */
module ServiceCheck {
  import opened Hex
  import opened DependencyGraph
  import opened ConfigResolve
  import Order

  datatype Finding =
    | NoServices
    | BlankCommand(service: string)
    | PortTaken(service: string, holder: string)
    | UnknownService(service: string, dep: string)
    | DependencyCycle(cycle: seq<string>)
    | UnknownInProfile(profile: string, service: string)

  function GraphOf(p: Project): Graph { map n | n in p.services :: p.services[n].dependsOn }

  /** What an error claims about the project. */
  ghost predicate Holds(p: Project, trim: string -> string, f: Finding)
  {
    match f
    case NoServices => p.services == map[] && p.parentName == ""
    case BlankCommand(n) => n in p.services && trim(p.services[n].cmd) == ""
    case PortTaken(n, m) => SharePort(p, n, m)
    case UnknownService(n, d) => n in p.services && d in p.services[n].dependsOn && d !in p.services
    case DependencyCycle(c) => Cycle(GraphOf(p), c)
    case UnknownInProfile(k, n) => k in p.profiles && n in p.profiles[k] && n !in p.services
  }

  predicate SharePort(p: Project, n: string, m: string)
  {
    n in p.services && m in p.services && n != m && p.services[n].port > 0 && p.services[m].port == p.services[n].port
  }

  /** A project nothing can be said against. */
  ghost predicate Sound(p: Project, trim: string -> string)
  {
    forall f: Finding :: !Holds(p, trim, f)
  }

  /** The keys of a map, in the order of names. */
  method Names<V>(m: map<string, V>) returns (names: seq<string>)
    ensures names == Order.InOrder(map[], m.Keys)
  {
    names := [];
    var left := m.Keys;
    while left != {}
      invariant left <= m.Keys
      invariant forall n :: n in names <==> n in m && n !in left
      invariant forall i, j :: 0 <= i < j < |names| ==> names[i] != names[j]
      decreases left
    {
      var n :| n in left;
      names := names + [n];
      left := left - {n};
    }
    assert (set n | n in names) == m.Keys;
    names := Order.SortByPosition(map[], names);
  }

  // ---- one service after the other ----------------------------------------------------------------

  predicate UsesPort(p: Project, n: string, port: int) { n in p.services && p.services[n].port == port && port > 0 }

  /** The last of the services seen on a port. */
  ghost predicate IsLastOn(p: Project, seen: seq<string>, port: int, n: string)
  {
    exists i :: 0 <= i < |seen| && seen[i] == n && UsesPort(p, n, port)
                && forall j :: i < j < |seen| ==> !UsesPort(p, seen[j], port)
  }

  function LastOn(p: Project, seen: seq<string>, port: int): Option<string>
  {
    if seen == [] then None
    else if UsesPort(p, seen[|seen| - 1], port) then Some(seen[|seen| - 1])
    else LastOn(p, seen[..|seen| - 1], port)
  }

  lemma {:induction false} LastOnIsLast(p: Project, seen: seq<string>, port: int)
    ensures LastOn(p, seen, port).None? ==> forall i :: 0 <= i < |seen| ==> !UsesPort(p, seen[i], port)
    ensures LastOn(p, seen, port).Some? ==> IsLastOn(p, seen, port, LastOn(p, seen, port).value)
  {
    if seen != [] && !UsesPort(p, seen[|seen| - 1], port) {
      LastOnIsLast(p, seen[..|seen| - 1], port);
    }
  }

  lemma OneIsLast(p: Project, seen: seq<string>, port: int, n: string)
    ensures LastOn(p, seen, port) == Some(n) <==> IsLastOn(p, seen, port, n)
  {
    LastOnIsLast(p, seen, port);
    forall m | IsLastOn(p, seen, port, n) && IsLastOn(p, seen, port, m)
      ensures m == n
    {
      var i :| 0 <= i < |seen| && seen[i] == n && UsesPort(p, n, port)
               && forall k :: i < k < |seen| ==> !UsesPort(p, seen[k], port);
      var j :| 0 <= j < |seen| && seen[j] == m && UsesPort(p, m, port)
               && forall k :: j < k < |seen| ==> !UsesPort(p, seen[k], port);
      assert !(i < j) && !(j < i);
    }
  }

  /** Each port in use leads to the last service seen on it. */
  ghost predicate Remembers(p: Project, ports: map<int, string>, seen: seq<string>)
  {
    forall port :: (if port in ports then Some(ports[port]) else None) == LastOn(p, seen, port)
  }

  /** What is found of one service that comes after those seen. */
  function FoundAt(p: Project, trim: string -> string, seen: seq<string>, n: string): seq<Finding>
    requires n in p.services
  {
    var s := p.services[n];
    (if trim(s.cmd) == "" then [BlankCommand(n)] else [])
    + match LastOn(p, seen, s.port) case Some(m) => [PortTaken(n, m)] case None => []
  }

  function FoundEach(p: Project, trim: string -> string, names: seq<string>): seq<Finding>
    requires forall n :: n in names ==> n in p.services
  {
    if names == [] then []
    else
      var front := names[..|names| - 1];
      FoundEach(p, trim, front) + FoundAt(p, trim, front, names[|names| - 1])
  }

  method CheckOne(p: Project, trim: string -> string, n: string, ports: map<int, string>, ghost seen: seq<string>)
      returns (found: seq<Finding>, r: map<int, string>)
    requires Remembers(p, ports, seen) && n in p.services
    ensures Remembers(p, r, seen + [n])
    ensures found == FoundAt(p, trim, seen, n)
  {
    found, r := [], ports;
    var s := p.services[n];
    LastOnIsLast(p, seen, s.port);
    if trim(s.cmd) == "" {
      found := [BlankCommand(n)];
    }
    if s.port > 0 {
      if s.port in ports {
        found := found + [PortTaken(n, ports[s.port])];
      }
      r := ports[s.port := n];
    }
    assert (seen + [n])[..|seen|] == seen;
  }

  /** The services' own commands and ports, each port remembering the last service on it. */
  method CheckEach(p: Project, trim: string -> string, names: seq<string>) returns (found: seq<Finding>)
    requires forall n :: n in names ==> n in p.services
    ensures found == FoundEach(p, trim, names)
  {
    found := [];
    var ports: map<int, string> := map[];
    var i := 0;
    while i < |names|
      invariant 0 <= i <= |names|
      invariant Remembers(p, ports, names[..i])
      invariant found == FoundEach(p, trim, names[..i])
    {
      var more;
      more, ports := CheckOne(p, trim, names[i], ports, names[..i]);
      FoundEachGrows(p, trim, names[..i], names[i]);
      assert names[..i + 1] == names[..i] + [names[i]];
      found := found + more;
      i := i + 1;
    }
    assert names[..i] == names;
  }

  /** The same, error by error. */
  ghost predicate FoundOf(p: Project, trim: string -> string, seen: seq<string>, n: string, f: Finding)
  {
    && n in p.services
    && (|| (f == BlankCommand(n) && trim(p.services[n].cmd) == "")
        || (f.PortTaken? && f.service == n && IsLastOn(p, seen, p.services[n].port, f.holder)))
  }

  lemma InFoundAt(p: Project, trim: string -> string, seen: seq<string>, n: string, f: Finding)
    requires n in p.services
    ensures f in FoundAt(p, trim, seen, n) <==> FoundOf(p, trim, seen, n, f)
  {
    if f.PortTaken? {
      OneIsLast(p, seen, p.services[n].port, f.holder);
    }
  }

  ghost predicate FoundAmong(p: Project, trim: string -> string, names: seq<string>, k: nat, f: Finding)
    requires k <= |names|
  {
    exists i :: 0 <= i < k && FoundOf(p, trim, names[..i], names[i], f)
  }

  lemma OneMoreAmong(p: Project, trim: string -> string, names: seq<string>, k: nat, f: Finding)
    requires k < |names|
    ensures FoundAmong(p, trim, names, k + 1, f)
       <==> FoundAmong(p, trim, names, k, f) || FoundOf(p, trim, names[..k], names[k], f)
  {
  }

  lemma FoundEachGrows(p: Project, trim: string -> string, seen: seq<string>, n: string)
    requires n in p.services && forall m :: m in seen ==> m in p.services
    ensures FoundEach(p, trim, seen + [n]) == FoundEach(p, trim, seen) + FoundAt(p, trim, seen, n)
  {
    assert (seen + [n])[..|seen|] == seen;
  }

  lemma {:induction false} InFoundEach(p: Project, trim: string -> string, names: seq<string>, k: nat, f: Finding)
    requires k <= |names| && forall n :: n in names ==> n in p.services
    ensures f in FoundEach(p, trim, names[..k]) <==> FoundAmong(p, trim, names, k, f)
  {
    if k > 0 {
      var seen, n := names[..k - 1], names[k - 1];
      InFoundEach(p, trim, names, k - 1, f);
      FoundEachGrows(p, trim, seen, n);
      InFoundAt(p, trim, seen, n, f);
      OneMoreAmong(p, trim, names, k - 1, f);
      assert names[..k] == seen + [n];
    }
  }

  // ---- what services and profiles name ----------------------------------------------------------------

  /** The members of a list no service is named after, in its order. */
  function UnknownIn(p: Project, list: seq<string>): seq<string>
  {
    if list == [] then []
    else
      var d := list[|list| - 1];
      UnknownIn(p, list[..|list| - 1]) + if d in p.services then [] else [d]
  }

  method Unknown(p: Project, list: seq<string>) returns (unknown: seq<string>)
    ensures unknown == UnknownIn(p, list)
  {
    unknown := [];
    var i := 0;
    while i < |list|
      invariant 0 <= i <= |list|
      invariant unknown == UnknownIn(p, list[..i])
    {
      if list[i] !in p.services {
        unknown := unknown + [list[i]];
      }
      assert list[..i + 1] == list[..i] + [list[i]];
      i := i + 1;
    }
    assert list[..i] == list;
  }

  lemma {:induction false} InUnknown(p: Project, list: seq<string>, d: string)
    ensures d in UnknownIn(p, list) <==> d in list && d !in p.services
  {
    if list != [] {
      var front := list[..|list| - 1];
      InUnknown(p, front, d);
      assert list == front + [list[|list| - 1]];
    }
  }

  /** Findings of one kind for each of some names. */
  function OfEach(find: string -> seq<Finding>, names: seq<string>): seq<Finding>
  {
    if names == [] then [] else OfEach(find, names[..|names| - 1]) + find(names[|names| - 1])
  }

  lemma {:induction false} InOfEach(find: string -> seq<Finding>, names: seq<string>, f: Finding)
    ensures f in OfEach(find, names) <==> exists n :: n in names && f in find(n)
  {
    if names != [] {
      var front := names[..|names| - 1];
      InOfEach(find, front, f);
      assert names == front + [names[|names| - 1]];
    }
  }

  function UnknownDependencies(p: Project, n: string): seq<Finding>
  {
    var unknown := UnknownIn(p, Deps(GraphOf(p), n));
    seq(|unknown|, k requires 0 <= k < |unknown| => UnknownService(n, unknown[k]))
  }

  function UnknownMembers(p: Project, k: string): seq<Finding>
  {
    var unknown := UnknownIn(p, if k in p.profiles then p.profiles[k] else []);
    seq(|unknown|, i requires 0 <= i < |unknown| => UnknownInProfile(k, unknown[i]))
  }

  function OfService(p: Project): string -> seq<Finding> { n => UnknownDependencies(p, n) }

  function OfProfile(p: Project): string -> seq<Finding> { k => UnknownMembers(p, k) }

  lemma OfEachGrows(find: string -> seq<Finding>, seen: seq<string>, n: string)
    ensures OfEach(find, seen + [n]) == OfEach(find, seen) + find(n)
  {
    assert (seen + [n])[..|seen|] == seen;
  }

  method FindDependencies(p: Project, n: string) returns (found: seq<Finding>)
    requires n in p.services
    ensures found == OfService(p)(n)
  {
    var unknown := Unknown(p, p.services[n].dependsOn);
    found := seq(|unknown|, k requires 0 <= k < |unknown| => UnknownService(n, unknown[k]));
  }

  method FindMembers(p: Project, k: string) returns (found: seq<Finding>)
    requires k in p.profiles
    ensures found == OfProfile(p)(k)
  {
    var unknown := Unknown(p, p.profiles[k]);
    found := seq(|unknown|, i requires 0 <= i < |unknown| => UnknownInProfile(k, unknown[i]));
  }

  method CheckDependencies(p: Project, names: seq<string>) returns (found: seq<Finding>)
    requires forall n :: n in names ==> n in p.services
    ensures found == OfEach(OfService(p), names)
  {
    found := [];
    var i := 0;
    while i < |names|
      invariant 0 <= i <= |names|
      invariant found == OfEach(OfService(p), names[..i])
    {
      var more := FindDependencies(p, names[i]);
      OfEachGrows(OfService(p), names[..i], names[i]);
      assert names[..i + 1] == names[..i] + [names[i]];
      found := found + more;
      i := i + 1;
    }
    assert names[..i] == names;
  }

  method CheckProfiles(p: Project, names: seq<string>) returns (found: seq<Finding>)
    requires forall k :: k in names ==> k in p.profiles
    ensures found == OfEach(OfProfile(p), names)
  {
    found := [];
    var i := 0;
    while i < |names|
      invariant 0 <= i <= |names|
      invariant found == OfEach(OfProfile(p), names[..i])
    {
      var more := FindMembers(p, names[i]);
      OfEachGrows(OfProfile(p), names[..i], names[i]);
      assert names[..i + 1] == names[..i] + [names[i]];
      found := found + more;
      i := i + 1;
    }
    assert names[..i] == names;
  }

  lemma InDependencies(p: Project, n: string, f: Finding)
    ensures f in UnknownDependencies(p, n) <==>
              n in p.services && f.UnknownService? && f.service == n
              && f.dep in p.services[n].dependsOn && f.dep !in p.services
  {
    var unknown := UnknownIn(p, Deps(GraphOf(p), n));
    if f.UnknownService? {
      InUnknown(p, Deps(GraphOf(p), n), f.dep);
      if f.service == n && f.dep in unknown {
        var k :| 0 <= k < |unknown| && unknown[k] == f.dep;
        assert UnknownDependencies(p, n)[k] == f;
      }
    }
  }

  lemma InMembers(p: Project, k: string, f: Finding)
    ensures f in UnknownMembers(p, k) <==>
              k in p.profiles && f.UnknownInProfile? && f.profile == k
              && f.service in p.profiles[k] && f.service !in p.services
  {
    var list := if k in p.profiles then p.profiles[k] else [];
    var unknown := UnknownIn(p, list);
    if f.UnknownInProfile? {
      InUnknown(p, list, f.service);
      if f.profile == k && f.service in unknown {
        var i :| 0 <= i < |unknown| && unknown[i] == f.service;
        assert UnknownMembers(p, k)[i] == f;
      }
    }
  }

  // ---- all of it ------------------------------------------------------------------------------------------

  /** The services in the order of their names. */
  ghost function InNameOrder(p: Project): seq<string> { Order.InOrder(map[], p.services.Keys) }

  ghost function ProfilesInOrder(p: Project): seq<string> { Order.InOrder(map[], p.profiles.Keys) }

  function Missing(p: Project): seq<Finding> { if p.services == map[] && p.parentName == "" then [NoServices] else [] }

  function TheCycle(cycle: Option<seq<string>>): seq<Finding>
  {
    if cycle.Some? then [DependencyCycle(cycle.value)] else []
  }

  function ReportOf(p: Project, trim: string -> string, names: seq<string>, profiles: seq<string>,
                    cycle: Option<seq<string>>): seq<Finding>
    requires forall n :: n in names ==> n in p.services
  {
    Missing(p) + FoundEach(p, trim, names) + OfEach(OfService(p), names) + TheCycle(cycle)
    + OfEach(OfProfile(p), profiles)
  }

  /** The report: its errors in order, with their copies. */
  ghost function Report(p: Project, trim: string -> string, cycle: Option<seq<string>>): seq<Finding>
  {
    ReportOf(p, trim, InNameOrder(p), ProfilesInOrder(p), cycle)
  }

  /** In the order of names, `m` is the last service before `n` on its port. */
  ghost predicate Taken(p: Project, n: string, m: string)
  {
    var names := InNameOrder(p);
    exists i :: 0 <= i < |names| && names[i] == n && IsLastOn(p, names[..i], p.services[n].port, m)
  }

  /** Exactly what is reported: every error that holds, but that a service whose port is taken is
      reported once, with the service before it on that port, and that one cycle stands for all. */
  ghost predicate Reported(p: Project, trim: string -> string, f: Finding, cycle: Option<seq<string>>)
  {
    match f
    case PortTaken(n, m) => Taken(p, n, m)
    case DependencyCycle(c) => cycle == Some(c)
    case _ => Holds(p, trim, f)
  }

  lemma InReport(p: Project, trim: string -> string, f: Finding, cycle: Option<seq<string>>)
    ensures f in Report(p, trim, cycle) <==>
              || f in Missing(p) || f in FoundEach(p, trim, InNameOrder(p)) || f in OfEach(OfService(p), InNameOrder(p))
              || f in TheCycle(cycle) || f in OfEach(OfProfile(p), ProfilesInOrder(p))
  {
  }

  lemma FoundOfServices(p: Project, trim: string -> string, f: Finding)
    ensures f in FoundEach(p, trim, InNameOrder(p)) <==>
              || (f.BlankCommand? && Holds(p, trim, f))
              || (f.PortTaken? && Taken(p, f.service, f.holder))
  {
    var names := InNameOrder(p);
    InFoundEach(p, trim, names, |names|, f);
    assert names[..|names|] == names;
    if f.BlankCommand? && Holds(p, trim, f) {
      var i :| 0 <= i < |names| && names[i] == f.service;
      assert FoundOf(p, trim, names[..i], names[i], f);
    } else if f.PortTaken? && Taken(p, f.service, f.holder) {
      var i :| 0 <= i < |names| && names[i] == f.service
               && IsLastOn(p, names[..i], p.services[f.service].port, f.holder);
      assert FoundOf(p, trim, names[..i], names[i], f);
    }
  }

  lemma FoundOfLists(p: Project, trim: string -> string, f: Finding)
    ensures f in OfEach(OfService(p), InNameOrder(p)) <==> f.UnknownService? && Holds(p, trim, f)
    ensures f in OfEach(OfProfile(p), ProfilesInOrder(p)) <==> f.UnknownInProfile? && Holds(p, trim, f)
  {
    InOfEach(OfService(p), InNameOrder(p), f);
    InOfEach(OfProfile(p), ProfilesInOrder(p), f);
    forall n
      ensures f in OfService(p)(n) <==> f in UnknownDependencies(p, n)
      ensures f in OfProfile(p)(n) <==> f in UnknownMembers(p, n)
    {
    }
    forall n
      ensures f in UnknownDependencies(p, n) <==> f.UnknownService? && f.service == n && Holds(p, trim, f)
    {
      InDependencies(p, n, f);
    }
    forall k
      ensures f in UnknownMembers(p, k) <==> f.UnknownInProfile? && f.profile == k && Holds(p, trim, f)
    {
      InMembers(p, k, f);
    }
  }

  /** What is in the report, error by error. */
  lemma ReportIs(p: Project, trim: string -> string, f: Finding, cycle: Option<seq<string>>)
    ensures f in Report(p, trim, cycle) <==> Reported(p, trim, f, cycle)
  {
    InReport(p, trim, f, cycle);
    FoundOfServices(p, trim, f);
    FoundOfLists(p, trim, f);
  }

  method FindAll(p: Project, trim: string -> string, names: seq<string>, profiles: seq<string>)
      returns (found: seq<Finding>, cycle: Option<seq<string>>)
    requires forall n :: n in names <==> n in p.services
    requires forall k :: k in profiles ==> k in p.profiles
    ensures found == ReportOf(p, trim, names, profiles, cycle)
    ensures cycle.Some? ==> Cycle(GraphOf(p), cycle.value)
    ensures cycle.Some? <==> exists c :: Cycle(GraphOf(p), c)
  {
    found := if p.services == map[] && p.parentName == "" then [NoServices] else [];
    var more := CheckEach(p, trim, names);
    found := found + more;
    more := CheckDependencies(p, names);
    found := found + more;
    cycle := FindCycle(GraphOf(p), names);
    found := found + if cycle.Some? then [DependencyCycle(cycle.value)] else [];
    more := CheckProfiles(p, profiles);
    found := found + more;
  }

  /** `validate_effective_services`: the errors in order, with their copies; the cycle is one, and
      there is one when there is any. */
  method CheckServices(p: Project, trim: string -> string) returns (found: seq<Finding>, cycle: Option<seq<string>>)
    ensures found == Report(p, trim, cycle)
    ensures cycle.Some? ==> Cycle(GraphOf(p), cycle.value)
    ensures cycle.Some? <==> exists c :: Cycle(GraphOf(p), c)
  {
    var names := Names(p.services);
    var profiles := Names(p.profiles);
    found, cycle := FindAll(p, trim, names, profiles);
  }

  lemma ReportedHolds(p: Project, trim: string -> string, f: Finding, cycle: Option<seq<string>>)
    requires cycle.Some? ==> Cycle(GraphOf(p), cycle.value)
    requires Reported(p, trim, f, cycle)
    ensures Holds(p, trim, f)
  {
    if f.PortTaken? {
      TakenIsShared(p, f.service, f.holder);
    }
  }

  /** What holds is reported, or something of its kind is. */
  lemma HoldsIsReported(p: Project, trim: string -> string, f: Finding, cycle: Option<seq<string>>)
    requires cycle.Some? <==> exists c :: Cycle(GraphOf(p), c)
    requires Holds(p, trim, f)
    ensures exists g: Finding :: Reported(p, trim, g, cycle)
  {
    match f
    case PortTaken(n, m) =>
      var a, b := SharedIsTaken(p, n, m);
      assert Reported(p, trim, PortTaken(a, b), cycle);
    case DependencyCycle(c) => assert Reported(p, trim, DependencyCycle(cycle.value), cycle);
    case _ => assert Reported(p, trim, f, cycle);
  }

  /** So everything reported is true of the project, and nothing is exactly when nothing can be
      said against it. */
  lemma ReportIsSound(p: Project, trim: string -> string, cycle: Option<seq<string>>)
    requires cycle.Some? ==> Cycle(GraphOf(p), cycle.value)
    requires cycle.Some? <==> exists c :: Cycle(GraphOf(p), c)
    ensures forall f: Finding :: f in Report(p, trim, cycle) ==> Holds(p, trim, f)
    ensures Report(p, trim, cycle) == [] <==> Sound(p, trim)
  {
    forall f: Finding | f in Report(p, trim, cycle)
      ensures Holds(p, trim, f)
    {
      ReportIs(p, trim, f, cycle);
      ReportedHolds(p, trim, f, cycle);
    }
    if !Sound(p, trim) {
      var f: Finding :| Holds(p, trim, f);
      HoldsIsReported(p, trim, f, cycle);
      var g: Finding :| Reported(p, trim, g, cycle);
      ReportIs(p, trim, g, cycle);
    }
    var all := Report(p, trim, cycle);
    assert all == [] || Holds(p, trim, all[0]);
  }

  lemma TakenIsShared(p: Project, n: string, m: string)
    requires Taken(p, n, m)
    ensures SharePort(p, n, m)
  {
    var names := InNameOrder(p);
    var i :| 0 <= i < |names| && names[i] == n && IsLastOn(p, names[..i], p.services[n].port, m);
    var j :| 0 <= j < i && names[..i][j] == m && UsesPort(p, m, p.services[n].port);
    assert Order.Before(map[], names[j], names[i]);
    Order.BeforeIsStrict(map[], names[j], names[i]);
  }

  /** Two services on a port: the later one is reported, with the last one before it. */
  lemma SharedIsTaken(p: Project, n: string, m: string) returns (later: string, holder: string)
    requires SharePort(p, n, m)
    ensures Taken(p, later, holder)
  {
    var names := InNameOrder(p);
    var i :| 0 <= i < |names| && names[i] == n;
    var j :| 0 <= j < |names| && names[j] == m;
    var a, b := if i < j then i else j, if i < j then j else i;
    var port := p.services[n].port;
    assert UsesPort(p, names[a], port) && UsesPort(p, names[b], port);
    assert names[..b][a] == names[a];
    LastOnIsLast(p, names[..b], port);
    later, holder := names[b], LastOn(p, names[..b], port).value;
  }

  // ---- the order of the report --------------------------------------------------------------------------

  function Section(f: Finding): nat
  {
    match f
    case NoServices => 0
    case BlankCommand(_) => 1
    case PortTaken(_, _) => 1
    case UnknownService(_, _) => 2
    case DependencyCycle(_) => 3
    case UnknownInProfile(_, _) => 4
  }

  /** The service or profile an error is filed under. */
  function Subject(f: Finding): string
  {
    match f
    case BlankCommand(n) => n
    case PortTaken(n, _) => n
    case UnknownService(n, _) => n
    case UnknownInProfile(k, _) => k
    case _ => ""
  }

  /** Section by section, in each by name, and a service's command before its port. */
  predicate NotAfter(f: Finding, g: Finding)
  {
    || Section(f) < Section(g)
    || (Section(f) == Section(g)
        && (|| Order.Less(Subject(f), Subject(g))
            || (Subject(f) == Subject(g) && (f.BlankCommand? || !g.BlankCommand?))))
  }

  ghost predicate Ordered(s: seq<Finding>) { forall i, j :: 0 <= i < j < |s| ==> NotAfter(s[i], s[j]) }

  lemma OrderedConcat(a: seq<Finding>, b: seq<Finding>)
    requires Ordered(a) && Ordered(b) && forall f, g :: f in a && g in b ==> NotAfter(f, g)
    ensures Ordered(a + b)
  {
  }

  ghost predicate Under(names: seq<string>, section: nat, s: seq<Finding>)
  {
    forall f :: f in s ==> Section(f) == section && Subject(f) in names
  }

  lemma FoundAtIsOrdered(p: Project, trim: string -> string, seen: seq<string>, n: string)
    requires n in p.services
    ensures Ordered(FoundAt(p, trim, seen, n)) && Under([n], 1, FoundAt(p, trim, seen, n))
  {
  }

  lemma NextIsLast(names: seq<string>, section: nat, a: seq<Finding>, b: seq<Finding>)
    requires names != [] && Order.Sorted(map[], names)
    requires var front, last := names[..|names| - 1], names[|names| - 1];
      Under(front, section, a) && Under([last], section, b) && Ordered(a) && Ordered(b)
    ensures Ordered(a + b) && Under(names, section, a + b)
  {
    forall f, g | f in a && g in b
      ensures NotAfter(f, g)
    {
      var front := names[..|names| - 1];
      var i :| 0 <= i < |front| && front[i] == Subject(f);
      assert Order.Before(map[], names[i], names[|names| - 1]);
    }
    OrderedConcat(a, b);
  }

  lemma FrontSorted(names: seq<string>)
    requires names != [] && Order.Sorted(map[], names)
    ensures Order.Sorted(map[], names[..|names| - 1])
  {
  }

  lemma {:induction false} FoundEachIsOrdered(p: Project, trim: string -> string, names: seq<string>)
    requires Order.Sorted(map[], names) && forall n :: n in names ==> n in p.services
    ensures Ordered(FoundEach(p, trim, names)) && Under(names, 1, FoundEach(p, trim, names))
  {
    if names != [] {
      var front := names[..|names| - 1];
      FrontSorted(names);
      FoundEachIsOrdered(p, trim, front);
      FoundAtIsOrdered(p, trim, front, names[|names| - 1]);
      NextIsLast(names, 1, FoundEach(p, trim, front), FoundAt(p, trim, front, names[|names| - 1]));
    }
  }

  lemma {:induction false} OfEachIsOrdered(find: string -> seq<Finding>, section: nat, names: seq<string>)
    requires Order.Sorted(map[], names) && section > 1
    requires forall n, f :: f in find(n) ==> Section(f) == section && Subject(f) == n
    ensures Ordered(OfEach(find, names)) && Under(names, section, OfEach(find, names))
  {
    if names != [] {
      var front := names[..|names| - 1];
      FrontSorted(names);
      OfEachIsOrdered(find, section, front);
      NextIsLast(names, section, OfEach(find, front), find(names[|names| - 1]));
    }
  }

  lemma DependenciesAreOrdered(p: Project, names: seq<string>)
    requires Order.Sorted(map[], names)
    ensures Part(2, 2, OfEach(OfService(p), names))
  {
    forall n, f | f in OfService(p)(n)
      ensures Section(f) == 2 && Subject(f) == n
    {
      assert f in UnknownDependencies(p, n);
    }
    OfEachIsOrdered(OfService(p), 2, names);
  }

  lemma MembersAreOrdered(p: Project, names: seq<string>)
    requires Order.Sorted(map[], names)
    ensures Part(4, 4, OfEach(OfProfile(p), names))
  {
    forall k, f | f in OfProfile(p)(k)
      ensures Section(f) == 4 && Subject(f) == k
    {
      assert f in UnknownMembers(p, k);
    }
    OfEachIsOrdered(OfProfile(p), 4, names);
  }

  /** In order, and all in these sections. */
  ghost predicate Part(first: nat, last: nat, s: seq<Finding>)
  {
    Ordered(s) && forall f :: f in s ==> first <= Section(f) <= last
  }

  lemma TwoParts(first: nat, middle: nat, last: nat, a: seq<Finding>, b: seq<Finding>)
    requires first <= middle < last && Part(first, middle, a) && Part(middle + 1, last, b)
    ensures Part(first, last, a + b)
  {
    OrderedConcat(a, b);
  }

  lemma OnePart(p: Project, trim: string -> string, cycle: Option<seq<string>>)
    ensures Part(0, 0, Missing(p)) && Part(3, 3, TheCycle(cycle)) && Part(1, 1, FoundEach(p, trim, InNameOrder(p)))
  {
    ServicesAreOrdered(p, trim, InNameOrder(p));
  }

  lemma ServicesAreOrdered(p: Project, trim: string -> string, names: seq<string>)
    requires Order.Sorted(map[], names) && forall n :: n in names ==> n in p.services
    ensures Part(1, 1, FoundEach(p, trim, names))
  {
    FoundEachIsOrdered(p, trim, names);
  }

  /** The report is in this order: no services, then each service's command and port, unknown
      dependencies, the cycle, and unknown members of profiles, each of them by name. */
  lemma ReportIsOrdered(p: Project, trim: string -> string, cycle: Option<seq<string>>)
    ensures Ordered(Report(p, trim, cycle))
  {
    OnePart(p, trim, cycle);
    DependenciesAreOrdered(p, InNameOrder(p));
    MembersAreOrdered(p, ProfilesInOrder(p));
    var a, b := Missing(p), FoundEach(p, trim, InNameOrder(p));
    var c, d := OfEach(OfService(p), InNameOrder(p)), TheCycle(cycle);
    TwoParts(0, 0, 1, a, b);
    TwoParts(0, 1, 2, a + b, c);
    TwoParts(0, 2, 3, a + b + c, d);
    TwoParts(0, 3, 4, a + b + c + d, OfEach(OfProfile(p), ProfilesInOrder(p)));
  }

  /** An unknown name is reported as often as it is listed. */
  lemma {:induction false} UnknownKeepsCopies(p: Project, list: seq<string>, d: string)
    ensures multiset(UnknownIn(p, list))[d] == if d in p.services then 0 else multiset(list)[d]
  {
    if list != [] {
      assert list == list[..|list| - 1] + [list[|list| - 1]];
      UnknownKeepsCopies(p, list[..|list| - 1], d);
    }
  }
}
