/** Configuration entries and how one layer's fall back on the next one's, field by field
    (cli/src/config.rs). */
module Layers {
  import opened Hex

  datatype PortEntry = Num(p: int) | Range(lo: int, hi: int) | Unreadable

  const PORT_RANGE_MAX := 1024

  datatype Action = Action(
    cmd: string, title: string, emoji: string, shortcut: string, cwd: string, port: seq<PortEntry>,
    portConflict: string, env: map<string, string>, confirm: bool, display: string, kind: string,
    reuse: bool, mode: string, position: Option<real>, children: map<string, Action>, fromTerminals: bool)

  datatype Service = Service(
    cmd: string, cwd: string, port: int, portConflict: string, env: map<string, string>,
    dependsOn: seq<string>, ready: Option<string>)

  // ---- ports ---------------------------------------------------------------------------

  function Between(lo: int, hi: int): seq<int>
    decreases hi - lo
  {
    if lo > hi then [] else [lo] + Between(lo + 1, hi)
  }

  function Min(a: int, b: int): int { if a <= b then a else b }

  function Max(a: int, b: int): int { if a <= b then b else a }

  function EntryPorts(e: PortEntry): seq<int>
  {
    match e
    case Num(p) => if 0 < p <= 65535 then [p] else []
    case Range(a, b) =>
      var lo, hi := Max(Min(a, b), 1), Min(Max(a, b), 65535);
      Between(lo, Min(lo + PORT_RANGE_MAX - 1, hi))
    case Unreadable => []
  }

  function Ports(spec: seq<PortEntry>): seq<int>
  {
    if spec == [] then [] else EntryPorts(spec[0]) + Ports(spec[1..])
  }

  lemma {:induction false} BetweenIs(lo: int, hi: int, p: int)
    ensures p in Between(lo, hi) <==> lo <= p <= hi
    ensures |Between(lo, hi)| == if lo <= hi then hi - lo + 1 else 0
    decreases hi - lo
  {
    if lo <= hi {
      BetweenIs(lo + 1, hi, p);
    }
  }

  lemma {:induction false} BetweenAt(lo: int, hi: int, i: nat)
    requires i < |Between(lo, hi)|
    ensures Between(lo, hi)[i] == lo + i
    decreases i
  {
    if i > 0 {
      BetweenAt(lo + 1, hi, i - 1);
    }
  }

  /** A range, either way round, is its valid ports in ascending order, cut after 1024. */
  lemma RangePorts(a: int, b: int, p: int)
    ensures var ports := EntryPorts(Range(a, b));
      && |ports| <= PORT_RANGE_MAX
      && (forall i, j :: 0 <= i < j < |ports| ==> ports[i] < ports[j])
      && (p in ports <==> 1 <= p <= 65535 && Min(a, b) <= p <= Max(a, b) && p < Max(Min(a, b), 1) + PORT_RANGE_MAX)
  {
    var lo, hi := Max(Min(a, b), 1), Min(Max(a, b), 65535);
    var last := Min(lo + PORT_RANGE_MAX - 1, hi);
    BetweenIs(lo, last, p);
    forall i, j | 0 <= i < j < |Between(lo, last)|
      ensures Between(lo, last)[i] < Between(lo, last)[j]
    {
      BetweenAt(lo, last, i);
      BetweenAt(lo, last, j);
    }
  }

  /** An entry stands for a port: a number for itself, and a range for what is in it. */
  predicate StandsFor(e: PortEntry, p: int)
  {
    && 1 <= p <= 65535
    && match e
       case Num(n) => n == p
       case Range(a, b) => Min(a, b) <= p <= Max(a, b) && p < Max(Min(a, b), 1) + PORT_RANGE_MAX
       case Unreadable => false
  }

  lemma InEntry(e: PortEntry, p: int)
    ensures p in EntryPorts(e) <==> StandsFor(e, p)
  {
    if e.Range? {
      RangePorts(e.lo, e.hi, p);
    }
  }

  /** The ports of a list are those its entries stand for. */
  lemma {:induction false} PortsAre(spec: seq<PortEntry>, p: int)
    ensures p in Ports(spec) <==> exists e :: e in spec && StandsFor(e, p)
  {
    if spec != [] {
      PortsAre(spec[1..], p);
      InEntry(spec[0], p);
      assert forall e :: e in spec <==> e == spec[0] || e in spec[1..];
    }
  }

  method ExpandEntry(e: PortEntry, before: seq<int>) returns (out: seq<int>)
    ensures out == before + EntryPorts(e)
  {
    out := before;
    match e
    case Num(p) =>
      if 0 < p <= 65535 {
        out := out + [p];
      }
    case Range(a, b) => out := ExpandRange(a, b, out);
    case Unreadable =>
  }

  lemma PortsStep(out: seq<int>, spec: seq<PortEntry>, i: nat)
    requires i < |spec|
    ensures out + EntryPorts(spec[i]) + Ports(spec[i + 1..]) == out + Ports(spec[i..])
  {
    var here, rest := EntryPorts(spec[i]), Ports(spec[i + 1..]);
    assert spec[i..][1..] == spec[i + 1..];
    assert Ports(spec[i..]) == here + rest;
    assert out + here + rest == out + (here + rest);
  }

  /** `to_vec`: pushes each entry's ports in turn. */
  method ExpandPorts(spec: seq<PortEntry>) returns (out: seq<int>)
    ensures out == Ports(spec)
  {
    out := [];
    var i := 0;
    while i < |spec|
      invariant 0 <= i <= |spec|
      invariant out + Ports(spec[i..]) == Ports(spec)
    {
      PortsStep(out, spec, i);
      out := ExpandEntry(spec[i], out);
      i := i + 1;
    }
  }

  method ExpandRange(a: int, b: int, before: seq<int>) returns (out: seq<int>)
    ensures out == before + EntryPorts(Range(a, b))
  {
    var lo, hi := if a <= b then a else b, if a <= b then b else a;
    lo, hi := if lo > 1 then lo else 1, if hi < 65535 then hi else 65535;
    if lo <= hi {
      out := PushAll(lo, if lo + PORT_RANGE_MAX - 1 <= hi then lo + PORT_RANGE_MAX - 1 else hi, before);
    } else {
      out := before;
      assert Between(lo, Min(lo + PORT_RANGE_MAX - 1, hi)) == [];
    }
  }

  method PushAll(lo: int, last: int, before: seq<int>) returns (out: seq<int>)
    requires lo <= last
    ensures out == before + Between(lo, last)
  {
    out := before;
    var p := lo;
    while p <= last
      invariant lo <= p <= last + 1
      invariant out + Between(p, last) == before + Between(lo, last)
    {
      assert out + ([p] + Between(p + 1, last)) == out + [p] + Between(p + 1, last);
      out := out + [p];
      p := p + 1;
    }
  }

  predicate NoPorts(spec: seq<PortEntry>) { Ports(spec) == [] }

  // ---- one entry over another -----------------------------------------------------------

  /** The field of the higher entry unless it is empty. */
  function Or<T>(d: T, s: T, isEmpty: T -> bool): T { if isEmpty(d) then s else d }

  predicate NoText(t: string) { t == "" }
  predicate NoEnv(e: map<string, string>) { e == map[] }
  predicate NoPosition(p: Option<real>) { p.None? }
  predicate NoChildren(c: map<string, Action>) { c == map[] }

  /** `merge_action`. */
  function Over(d: Action, s: Action): Action
  {
    Action(
      Or(d.cmd, s.cmd, NoText), Or(d.title, s.title, NoText), Or(d.emoji, s.emoji, NoText),
      Or(d.shortcut, s.shortcut, NoText), Or(d.cwd, s.cwd, NoText), Or(d.port, s.port, NoPorts),
      Or(d.portConflict, s.portConflict, NoText), Or(d.env, s.env, NoEnv), d.confirm || s.confirm,
      Or(d.display, s.display, NoText), Or(d.kind, s.kind, NoText), d.reuse || s.reuse,
      Or(d.mode, s.mode, NoText), Or(d.position, s.position, NoPosition),
      Or(d.children, s.children, NoChildren), d.fromTerminals)
  }

  predicate NoPort(p: int) { p == 0 }
  predicate NoReady(r: Option<string>) { r.None? }

  /** `merge_service`: an overriding entry must repeat its dependencies. */
  function ServiceOver(d: Service, s: Service): Service
  {
    Service(
      Or(d.cmd, s.cmd, NoText), Or(d.cwd, s.cwd, NoText), Or(d.port, s.port, NoPort),
      Or(d.portConflict, s.portConflict, NoText), Or(d.env, s.env, NoEnv), d.dependsOn,
      Or(d.ready, s.ready, NoReady))
  }

  lemma OrIsAssociative<T>(a: T, b: T, c: T, isEmpty: T -> bool)
    ensures Or(a, Or(b, c, isEmpty), isEmpty) == Or(Or(a, b, isEmpty), c, isEmpty)
  {
  }

  lemma OverIsAssociative(a: Action, b: Action, c: Action)
    ensures Over(a, Over(b, c)) == Over(Over(a, b), c)
  {
    OrIsAssociative(a.cmd, b.cmd, c.cmd, NoText);
    OrIsAssociative(a.title, b.title, c.title, NoText);
    OrIsAssociative(a.emoji, b.emoji, c.emoji, NoText);
    OrIsAssociative(a.shortcut, b.shortcut, c.shortcut, NoText);
    OrIsAssociative(a.cwd, b.cwd, c.cwd, NoText);
    OrIsAssociative(a.port, b.port, c.port, NoPorts);
    OrIsAssociative(a.portConflict, b.portConflict, c.portConflict, NoText);
    OrIsAssociative(a.env, b.env, c.env, NoEnv);
    OrIsAssociative(a.display, b.display, c.display, NoText);
    OrIsAssociative(a.kind, b.kind, c.kind, NoText);
    OrIsAssociative(a.mode, b.mode, c.mode, NoText);
    OrIsAssociative(a.position, b.position, c.position, NoPosition);
    OrIsAssociative(a.children, b.children, c.children, NoChildren);
  }

  lemma ServiceOverIsAssociative(a: Service, b: Service, c: Service)
    ensures ServiceOver(a, ServiceOver(b, c)) == ServiceOver(ServiceOver(a, b), c)
  {
  }

  // ---- one layer under another ------------------------------------------------------------

  type Layer<V> = map<string, V>

  /** Entries of the lower layer come in under those of the higher one. */
  function Under<V>(over: (V, V) -> V, high: Layer<V>, low: Layer<V>): Layer<V>
  {
    map k | k in high.Keys + low.Keys ::
      if k !in high then low[k] else if k !in low then high[k] else over(high[k], low[k])
  }

  /** All layers at once, the first the highest. */
  function Flat<V>(over: (V, V) -> V, layers: seq<Layer<V>>): Layer<V>
  {
    if layers == [] then map[] else Under(over, layers[0], Flat(over, layers[1..]))
  }

  ghost predicate Associative<V(!new)>(over: (V, V) -> V)
  {
    forall a, b, c :: over(a, over(b, c)) == over(over(a, b), c)
  }

  lemma UnderIsAssociative<V(!new)>(over: (V, V) -> V, a: Layer<V>, b: Layer<V>, c: Layer<V>)
    requires Associative(over)
    ensures Under(over, a, Under(over, b, c)) == Under(over, Under(over, a, b), c)
  {
    var l, r := Under(over, a, Under(over, b, c)), Under(over, Under(over, a, b), c);
    assert l.Keys == r.Keys;
    forall k | k in l
      ensures l[k] == r[k]
    {
    }
  }

  /** Nested merging is flat merging: layers merged in groups, and the groups then merged,
      come out as all of them in one list. */
  lemma {:induction false} FlatConcat<V(!new)>(over: (V, V) -> V, a: seq<Layer<V>>, b: seq<Layer<V>>)
    requires Associative(over)
    ensures Flat(over, a + b) == Under(over, Flat(over, a), Flat(over, b))
  {
    if a == [] {
      assert a + b == b;
      assert Under(over, map[], Flat(over, b)) == Flat(over, b);
    } else {
      assert (a + b)[1..] == a[1..] + b;
      FlatConcat(over, a[1..], b);
      UnderIsAssociative(over, a[0], Flat(over, a[1..]), Flat(over, b));
    }
  }

  // ---- what a flat list gives ----------------------------------------------------------------

  /** The entries declared under `k`, from the highest layer down. */
  function Declared<V>(layers: seq<Layer<V>>, k: string): seq<V>
  {
    if layers == [] then []
    else (if k in layers[0] then [layers[0][k]] else []) + Declared(layers[1..], k)
  }

  function Combined<V>(over: (V, V) -> V, entries: seq<V>): V
    requires entries != []
  {
    if |entries| == 1 then entries[0] else over(entries[0], Combined(over, entries[1..]))
  }

  lemma {:induction false} FlatIsCombined<V>(over: (V, V) -> V, layers: seq<Layer<V>>, k: string)
    ensures k in Flat(over, layers) <==> Declared(layers, k) != []
    ensures k in Flat(over, layers) ==> Flat(over, layers)[k] == Combined(over, Declared(layers, k))
  {
    if layers != [] {
      FlatIsCombined(over, layers[1..], k);
      var rest := Declared(layers[1..], k);
      if k in layers[0] {
        assert ([layers[0][k]] + rest)[1..] == rest;
      } else {
        assert [] + rest == rest;
      }
    }
  }

  /** `v` is the first of the values that is not empty, and the last one when all are. */
  ghost predicate IsFirst<T>(values: seq<T>, isEmpty: T -> bool, v: T)
  {
    exists i :: 0 <= i < |values| && v == values[i] && AllEmpty(values[..i], isEmpty)
                && (i == |values| - 1 || !isEmpty(v))
  }

  ghost predicate AllEmpty<T>(values: seq<T>, isEmpty: T -> bool)
  {
    forall j :: 0 <= j < |values| ==> isEmpty(values[j])
  }

  lemma FirstCons<T>(d: T, rest: seq<T>, isEmpty: T -> bool, v: T)
    requires IsFirst(rest, isEmpty, v)
    ensures IsFirst([d] + rest, isEmpty, Or(d, v, isEmpty))
  {
    var all := [d] + rest;
    if isEmpty(d) {
      var i :| 0 <= i < |rest| && v == rest[i] && AllEmpty(rest[..i], isEmpty) && (i == |rest| - 1 || !isEmpty(v));
      assert all[i + 1] == v;
      assert all[..i + 1] == [d] + rest[..i];
      assert AllEmpty(all[..i + 1], isEmpty);
    } else {
      assert all[0] == d && AllEmpty(all[..0], isEmpty);
    }
  }

  function Map<A, B>(entries: seq<A>, field: A -> B): seq<B>
  {
    seq(|entries|, i requires 0 <= i < |entries| => field(entries[i]))
  }

  /** A field that falls back comes out as the first one declared that is not empty. */
  lemma {:induction false} FieldIsFirst<V, T>(over: (V, V) -> V, entries: seq<V>, field: V -> T, isEmpty: T -> bool)
    requires entries != []
    requires forall d, s :: d in entries ==> field(over(d, s)) == Or(field(d), field(s), isEmpty)
    ensures IsFirst(Map(entries, field), isEmpty, field(Combined(over, entries)))
  {
    var values := Map(entries, field);
    if |entries| == 1 {
      assert values[0] == field(entries[0]) && AllEmpty(values[..0], isEmpty);
    } else {
      FieldIsFirst(over, entries[1..], field, isEmpty);
      assert Map(entries[1..], field) == values[1..];
      assert values == [values[0]] + values[1..];
      FirstCons(values[0], values[1..], isEmpty, field(Combined(over, entries[1..])));
    }
  }
}
