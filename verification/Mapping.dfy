/** A config mapping: its keys in the order they are written. Keys that are no text are not
    part of this model. */
module Mapping {
  import opened Hex

  datatype Value =
    | Text(text: string)
    | Bool(on: bool)
    | Number(n: int)
    | List(items: seq<Value>)
    | Entries(entries: Mapping)

  type Mapping = seq<(string, Value)>

  function Get(m: Mapping, key: string): Option<Value>
  {
    if m == [] then None else if m[0].0 == key then Some(m[0].1) else Get(m[1..], key)
  }

  /** A key that is there keeps its place; a new one goes last. */
  function Insert(m: Mapping, key: string, v: Value): Mapping
  {
    if m == [] then [(key, v)]
    else if m[0].0 == key then [(key, v)] + m[1..]
    else [m[0]] + Insert(m[1..], key, v)
  }

  /** `shift_remove`, for several keys: the others keep their order. */
  function Without(m: Mapping, keys: set<string>): Mapping
  {
    if m == [] then [] else (if m[0].0 in keys then [] else [m[0]]) + Without(m[1..], keys)
  }

  // ---- one change to one key -------------------------------------------------------------------

  datatype Change = Keep | Drop | Set(v: Value)

  function Do(m: Mapping, key: string, c: Change): Mapping
  {
    match c
    case Keep => m
    case Drop => Without(m, {key})
    case Set(v) => Insert(m, key, v)
  }

  function After(c: Change, was: Option<Value>): Option<Value>
  {
    match c
    case Keep => was
    case Drop => None
    case Set(v) => Some(v)
  }

  lemma {:induction false} InsertGet(m: Mapping, key: string, v: Value, k: string)
    ensures Get(Insert(m, key, v), k) == if k == key then Some(v) else Get(m, k)
  {
    if m != [] && m[0].0 != key {
      InsertGet(m[1..], key, v, k);
      assert Insert(m, key, v)[1..] == Insert(m[1..], key, v);
    } else if m != [] {
      assert Insert(m, key, v)[1..] == m[1..];
    } else {
      assert Insert(m, key, v)[1..] == [];
    }
  }

  lemma {:induction false} WithoutGet(m: Mapping, keys: set<string>, k: string)
    ensures Get(Without(m, keys), k) == if k in keys then None else Get(m, k)
  {
    if m != [] {
      WithoutGet(m[1..], keys, k);
      assert ([m[0]] + Without(m[1..], keys))[1..] == Without(m[1..], keys);
      assert [] + Without(m[1..], keys) == Without(m[1..], keys);
    }
  }

  lemma DoGet(m: Mapping, key: string, c: Change, k: string)
    ensures Get(Do(m, key, c), k) == if k == key then After(c, Get(m, k)) else Get(m, k)
  {
    if c.Set? {
      InsertGet(m, key, c.v, k);
    } else if c.Drop? {
      WithoutGet(m, {key}, k);
    }
  }

  lemma {:induction false} InsertSame(m: Mapping, key: string, v: Value)
    requires Get(m, key) == Some(v)
    ensures Insert(m, key, v) == m
  {
    if m[0].0 != key {
      InsertSame(m[1..], key, v);
    }
  }

  lemma {:induction false} WithoutNone(m: Mapping, keys: set<string>)
    requires forall k :: k in keys ==> Get(m, k) == None
    ensures Without(m, keys) == m
  {
    if m != [] {
      assert m[0].0 in keys ==> Get(m, m[0].0) == None;
      forall k | k in keys
        ensures Get(m[1..], k) == None
      {
        assert Get(m, k) == None;
      }
      WithoutNone(m[1..], keys);
    }
  }

  /** A change already made changes nothing, not even the order. */
  lemma DoAgain(m: Mapping, key: string, c: Change)
    requires After(c, Get(m, key)) == Get(m, key)
    ensures Do(m, key, c) == m
  {
    if c.Set? {
      InsertSame(m, key, c.v);
    } else if c.Drop? {
      WithoutNone(m, {key});
    }
  }

  lemma {:induction false} WithoutTwice(m: Mapping, a: set<string>, b: set<string>)
    ensures Without(Without(m, a), b) == Without(m, a + b)
  {
    if m != [] {
      WithoutTwice(m[1..], a, b);
      assert ([m[0]] + Without(m[1..], a))[1..] == Without(m[1..], a);
      assert [] + Without(m[1..], a) == Without(m[1..], a);
    }
  }

  lemma {:induction false} InsertHidden(m: Mapping, key: string, v: Value, keys: set<string>)
    requires key in keys
    ensures Without(Insert(m, key, v), keys) == Without(m, keys)
  {
    if m != [] && m[0].0 != key {
      InsertHidden(m[1..], key, v, keys);
      assert Insert(m, key, v)[1..] == Insert(m[1..], key, v);
    } else if m != [] {
      assert Insert(m, key, v)[1..] == m[1..];
    } else {
      assert Insert(m, key, v)[1..] == [];
    }
  }

  /** What happens to a key leaves no trace once the key is taken out. */
  lemma DoHidden(m: Mapping, key: string, c: Change, keys: set<string>)
    requires key in keys
    ensures Without(Do(m, key, c), keys) == Without(m, keys)
  {
    if c.Set? {
      InsertHidden(m, key, c.v, keys);
    } else if c.Drop? {
      WithoutTwice(m, {key}, keys);
      assert {key} + keys == keys;
    }
  }

  // ---- several changes in turn -----------------------------------------------------------------

  type Edits = seq<(string, Change)>

  function DoFrom(m: Mapping, e: Edits, i: nat): Mapping
    requires i <= |e|
    decreases |e| - i
  {
    if i == |e| then m else DoFrom(Do(m, e[i].0, e[i].1), e, i + 1)
  }

  function DoAll(m: Mapping, e: Edits): Mapping { DoFrom(m, e, 0) }

  /** No key is changed twice. */
  predicate Once(e: Edits) { forall i, j :: 0 <= i < j < |e| ==> e[i].0 != e[j].0 }

  lemma {:induction false} DoFromOther(m: Mapping, e: Edits, i: nat, k: string)
    requires i <= |e| && forall j :: i <= j < |e| ==> e[j].0 != k
    ensures Get(DoFrom(m, e, i), k) == Get(m, k)
    decreases |e| - i
  {
    if i < |e| {
      DoGet(m, e[i].0, e[i].1, k);
      DoFromOther(Do(m, e[i].0, e[i].1), e, i + 1, k);
    }
  }

  lemma {:induction false} DoFromAt(m: Mapping, e: Edits, i: nat, j: nat)
    requires Once(e) && i <= j < |e|
    ensures Get(DoFrom(m, e, i), e[j].0) == After(e[j].1, Get(m, e[j].0))
    decreases |e| - i
  {
    DoGet(m, e[i].0, e[i].1, e[j].0);
    if i == j {
      DoFromOther(Do(m, e[i].0, e[i].1), e, i + 1, e[j].0);
    } else {
      DoFromAt(Do(m, e[i].0, e[i].1), e, i + 1, j);
    }
  }

  lemma {:induction false} DoFromAgain(m: Mapping, e: Edits, i: nat)
    requires i <= |e| && forall j :: i <= j < |e| ==> After(e[j].1, Get(m, e[j].0)) == Get(m, e[j].0)
    ensures DoFrom(m, e, i) == m
    decreases |e| - i
  {
    if i < |e| {
      DoAgain(m, e[i].0, e[i].1);
      DoFromAgain(m, e, i + 1);
    }
  }

  /** The same changes made twice are the changes made once, order included. */
  lemma DoAllTwice(m: Mapping, e: Edits)
    requires Once(e)
    ensures DoAll(DoAll(m, e), e) == DoAll(m, e)
  {
    forall j | 0 <= j < |e|
      ensures After(e[j].1, Get(DoAll(m, e), e[j].0)) == Get(DoAll(m, e), e[j].0)
    {
      DoFromAt(m, e, 0, j);
    }
    DoFromAgain(DoAll(m, e), e, 0);
  }

  lemma {:induction false} DoFromHidden(m: Mapping, e: Edits, i: nat, keys: set<string>)
    requires i <= |e| && forall j :: i <= j < |e| ==> e[j].0 in keys
    ensures Without(DoFrom(m, e, i), keys) == Without(m, keys)
    decreases |e| - i
  {
    if i < |e| {
      DoHidden(m, e[i].0, e[i].1, keys);
      DoFromHidden(Do(m, e[i].0, e[i].1), e, i + 1, keys);
    }
  }
}
