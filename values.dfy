/** The dynamically typed values the services exchange as `Dict[str, Any]`:
    JSON-like data with dictionaries kept as ordered key/value entries, the way
    a Python `dict` remembers insertion order. */
module Values {
  import opened Wrappers

  datatype Value =
    | Null
    | Bool(b: bool)
    | Int(i: int)
    | Real(r: real)
    | Str(s: string)
    | List(items: seq<Value>)
    | Dict(entries: seq<(string, Value)>)

  /** `d.get(key)` on a dict with string keys, kept as its entries in
      insertion order: the entry stored under `key`, if any. */
  function Get<V>(entries: seq<(string, V)>, key: string): Option<V>
  {
    if entries == [] then None
    else if entries[0].0 == key then Some(entries[0].1)
    else Get(entries[1..], key)
  }

  /** `key in d`. */
  predicate HasKey<V>(entries: seq<(string, V)>, key: string)
  {
    Get(entries, key).Some?
  }

  /** `d.get(key, default)`. */
  function GetOr(entries: seq<(string, Value)>, key: string, default: Value): Value
  {
    Get(entries, key).GetOr(default)
  }

  /** `d[key] = v`: an existing key keeps its position, a new one is appended. */
  function Put<V>(entries: seq<(string, V)>, key: string, v: V): seq<(string, V)>
  {
    if entries == [] then [(key, v)]
    else if entries[0].0 == key then [(key, v)] + entries[1..]
    else [entries[0]] + Put(entries[1..], key, v)
  }

  /** After `d[key] = v`, `d[key]` is `v` and every other key reads as before. */
  lemma {:induction false} GetPut<V>(entries: seq<(string, V)>, key: string, v: V, other: string)
    ensures Get(Put(entries, key, v), key) == Some(v)
    ensures other != key ==> Get(Put(entries, key, v), other) == Get(entries, other)
  {
    if entries != [] && entries[0].0 != key {
      GetPut(entries[1..], key, v, other);
    }
  }

  /** A key stored once, at position `i`, reads back as the value there. */
  lemma {:induction false} GetAt<V>(entries: seq<(string, V)>, i: nat)
    requires i < |entries|
    requires forall j :: 0 <= j < i ==> entries[j].0 != entries[i].0
    ensures Get(entries, entries[i].0) == Some(entries[i].1)
  {
    if i > 0 {
      GetAt(entries[1..], i - 1);
    }
  }

  /** `a.update(b)`: every entry of `b` stored over `a`, in order. */
  function Update<V>(a: seq<(string, V)>, b: seq<(string, V)>): seq<(string, V)>
  {
    if b == [] then a
    else
      var last := b[|b| - 1];
      Put(Update(a, b[..|b| - 1]), last.0, last.1)
  }

  /** The value the last entry of `b` with this key carries. */
  function LastValue<V>(b: seq<(string, V)>, key: string): Option<V>
  {
    if b == [] then None
    else if b[|b| - 1].0 == key then Some(b[|b| - 1].1)
    else LastValue(b[..|b| - 1], key)
  }

  /** After `a.update(b)` a key reads as in `b` (its last entry there) when
      `b` has it, and as in `a` otherwise. */
  lemma {:induction false} UpdateMeaning<V>(a: seq<(string, V)>, b: seq<(string, V)>, key: string)
    ensures Get(Update(a, b), key) == if LastValue(b, key).Some? then LastValue(b, key) else Get(a, key)
  {
    if b != [] {
      var last := b[|b| - 1];
      UpdateMeaning(a, b[..|b| - 1], key);
      GetPut(Update(a, b[..|b| - 1]), last.0, last.1, key);
    }
  }

  /** The keys, in insertion order. */
  function Keys<V>(entries: seq<(string, V)>): (r: seq<string>)
    ensures |r| == |entries|
    ensures forall i :: 0 <= i < |entries| ==> r[i] == entries[i].0
  {
    seq(|entries|, i requires 0 <= i < |entries| => entries[i].0)
  }

  /** No key occurs twice, as in every Python dict. */
  predicate DistinctKeys<V>(entries: seq<(string, V)>)
  {
    forall i, j :: 0 <= i < j < |entries| ==> entries[i].0 != entries[j].0
  }

  /** `d[key] = v` keeps the keys in place and appends `key` only when it is
      new. */
  lemma {:induction false} PutKeys<V>(entries: seq<(string, V)>, key: string, v: V)
    ensures Keys(Put(entries, key, v)) == if key in Keys(entries) then Keys(entries) else Keys(entries) + [key]
  {
    if entries != [] {
      var rest := entries[1..];
      assert Keys(entries) == [entries[0].0] + Keys(rest);
      if entries[0].0 == key {
        assert Keys(Put(entries, key, v)) == [key] + Keys(rest);
      } else {
        PutKeys(rest, key, v);
        assert Keys(Put(entries, key, v)) == [entries[0].0] + Keys(Put(rest, key, v));
      }
    }
  }

  /** `d[key] = v` keeps the keys distinct. */
  lemma PutDistinct<V>(entries: seq<(string, V)>, key: string, v: V)
    requires DistinctKeys(entries)
    ensures DistinctKeys(Put(entries, key, v))
  {
    PutKeys(entries, key, v);
    var ks := Keys(Put(entries, key, v));
    forall i, j | 0 <= i < j < |ks|
      ensures ks[i] != ks[j]
    {
      if j == |entries| {
        assert ks[i] == Keys(entries)[i];
      }
    }
  }

  /** Python truthiness: `None`, `False`, zero and empty containers are false. */
  predicate Truthy(v: Value)
  {
    match v
    case Null => false
    case Bool(b) => b
    case Int(i) => i != 0
    case Real(r) => r != 0.0
    case Str(s) => s != []
    case List(items) => items != []
    case Dict(entries) => entries != []
  }

  /** `len(v)`, or `None` where `len` raises `TypeError`. */
  function Len(v: Value): Option<nat>
  {
    match v
    case Str(s) => Some(|s|)
    case List(items) => Some(|items|)
    case Dict(entries) => Some(|entries|)
    case _ => None
  }

  /** Whether Python can use `v` as a dictionary key: lists and dicts are unhashable. */
  predicate Hashable(v: Value)
  {
    !v.List? && !v.Dict?
  }

  /** What a `for` loop over a value runs over: a list's items, a
      dict's keys and a string's characters, all as values; `false` when the
      value is not iterable (a `TypeError`). */
  function Elements(v: Value): (seq<Value>, bool)
  {
    match v
    case List(items) => (items, true)
    case Dict(entries) => (seq(|entries|, i requires 0 <= i < |entries| => Str(entries[i].0)), true)
    case Str(s) => (seq(|s|, i requires 0 <= i < |s| => Str([s[i]])), true)
    case _ => ([], false)
  }

  /** `type(v).__name__`. */
  function TypeName(v: Value): string
  {
    match v
    case Null => "NoneType"
    case Bool(_) => "bool"
    case Int(_) => "int"
    case Real(_) => "float"
    case Str(_) => "str"
    case List(_) => "list"
    case Dict(_) => "dict"
  }

  /** A list of strings as a `Value`. */
  function StrList(xs: seq<string>): (r: Value)
    ensures r.List? && |r.items| == |xs|
    ensures forall i :: 0 <= i < |xs| ==> r.items[i] == Str(xs[i])
  {
    List(seq(|xs|, i requires 0 <= i < |xs| => Str(xs[i])))
  }
}
