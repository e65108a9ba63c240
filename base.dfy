/**
 * The values a path map holds, and the few operations of Python's built-in
 * dict that every generation of the path map calls through `super()`.
 *
 * A Python dict iterates its items in insertion order, and the path maps
 * rebuild nested dicts by iterating them, so a dict is modelled as the list
 * of its items in that order.  Lookups see the first item with a key; `Put`
 * overwrites that item in place (the position of an existing key does not
 * change) and appends a new key at the end; `Remove` drops the key.
 */
module Base {

  datatype Option<T> = None | Some(value: T)

  /** KeyError; TypeError also stands for the AttributeError Python raises
      when an int or None is asked for `get` or `__setitem__`. */
  datatype Error = KeyError | TypeError

  datatype Result<T> = Ok(value: T) | Err(error: Error)

  /** How a statement that returns nothing ended: normally, or by raising. */
  datatype Outcome = Done | Raised(error: Error)

  /** A dict key: a string, which the path maps split, or any other
      hashable value, which they never split. */
  datatype Key = Str(s: string) | Other(id: int)

  /** A stored value: Python's None, an opaque scalar, a plain mapping that
      is not a path map (a dict), or a nested path map. */
  datatype Val =
    | Null
    | Leaf(x: int)
    | Plain(items: seq<(Key, Val)>)
    | Node(items: seq<(Key, Val)>)

  type Items = seq<(Key, Val)>

  /** `isinstance(v, Mapping)` (equally `isinstance(v, dict)`). */
  predicate IsMapping(v: Val) {
    v.Plain? || v.Node?
  }

  /** The keys of the dict. */
  function KeySet(m: Items): (ks: set<Key>)
    ensures |m| > 0 ==> m[0].0 in ks
  {
    if |m| == 0 then {} else {m[0].0} + KeySet(m[1..])
  }

  lemma {:induction false} KeySetHas(m: Items, i: nat)
    requires i < |m|
    ensures m[i].0 in KeySet(m)
  {
    if i > 0 {
      KeySetHas(m[1..], i - 1);
    }
  }

  /** Keys are unique, as in every dict Python builds. */
  predicate Distinct(m: Items) {
    |m| == 0 || (m[0].0 !in KeySet(m[1..]) && Distinct(m[1..]))
  }

  /** `dict.__getitem__` / `dict.get` / `in`: the item stored under `k`. */
  function Lookup(m: Items, k: Key): (r: Option<Val>)
    ensures r.Some? <==> k in KeySet(m)
    ensures r.Some? ==> (k, r.value) in m
  {
    if |m| == 0 then None
    else if m[0].0 == k then Some(m[0].1)
    else Lookup(m[1..], k)
  }

  /** `dict.__setitem__`. */
  function Put(m: Items, k: Key, v: Val): (r: Items)
    ensures Lookup(r, k) == Some(v)
    ensures forall k' :: k' != k ==> Lookup(r, k') == Lookup(m, k')
    ensures Distinct(m) ==> Distinct(r)
  {
    if |m| == 0 then [(k, v)]
    else if m[0].0 == k then [(k, v)] + m[1..]
    else
      var r := Put(m[1..], k, v);
      assert ([m[0]] + r)[1..] == r;
      assert Lookup(r, m[0].0) == Lookup(m[1..], m[0].0);
      [m[0]] + r
  }

  /** `Put` of a new key appends it. */
  lemma {:induction false} PutAppends(m: Items, k: Key, v: Val)
    requires k !in KeySet(m)
    ensures Put(m, k, v) == m + [(k, v)]
  {
    if |m| > 0 {
      PutAppends(m[1..], k, v);
      assert m + [(k, v)] == [m[0]] + (m[1..] + [(k, v)]);
    }
  }

  /** `Put` changes no item but the one it writes. */
  lemma {:induction false} PutMembers(m: Items, k: Key, v: Val)
    ensures forall e :: e in Put(m, k, v) ==> e in m || e == (k, v)
  {
    if |m| > 0 && m[0].0 != k {
      PutMembers(m[1..], k, v);
    }
  }

  /** Setting a key twice leaves what the second set wrote. */
  lemma {:induction false} PutPut(m: Items, k: Key, v: Val, w: Val)
    ensures Put(Put(m, k, v), k, w) == Put(m, k, w)
  {
    if |m| > 0 && m[0].0 != k {
      PutPut(m[1..], k, v, w);
      assert ([m[0]] + Put(m[1..], k, v))[1..] == Put(m[1..], k, v);
    }
  }

  /** `dict.__delitem__` of a present key. */
  function Remove(m: Items, k: Key): (r: Items)
    ensures Lookup(r, k) == None
    ensures forall k' :: k' != k ==> Lookup(r, k') == Lookup(m, k')
    ensures KeySet(r) == KeySet(m) - {k}
    ensures Distinct(m) ==> Distinct(r)
  {
    if |m| == 0 then []
    else if m[0].0 == k then Remove(m[1..], k)
    else [m[0]] + Remove(m[1..], k)
  }

  /** In a dict with unique keys no item repeats the key of an earlier one. */
  lemma {:induction false} DistinctAt(m: Items, i: nat)
    requires Distinct(m) && i < |m|
    ensures m[i].0 !in KeySet(m[..i])
  {
    if i > 0 {
      DistinctAt(m[1..], i - 1);
      assert m[..i][1..] == m[1..][..i - 1];
      KeySetHas(m[1..], i - 1);
    }
  }

  /** `dict.get(k, default)`. */
  function GetOr(m: Items, k: Key, default: Val): (r: Val)
    ensures k in KeySet(m) ==> Some(r) == Lookup(m, k)
    ensures k !in KeySet(m) ==> r == default
  {
    match Lookup(m, k)
    case Some(v) => v
    case None => default
  }

  /** Two lists of items with the same keys in the same order. */
  predicate SameKeys(a: Items, b: Items) {
    |a| == |b| && forall i :: 0 <= i < |a| ==> a[i].0 == b[i].0
  }

  /** Unique keys depend on the keys only. */
  lemma {:induction false} SameKeysDistinct(a: Items, b: Items)
    requires SameKeys(a, b)
    ensures KeySet(a) == KeySet(b)
    ensures Distinct(a) ==> Distinct(b)
  {
    if |a| > 0 {
      SameKeysDistinct(a[1..], b[1..]);
    }
  }

  /** `dict(pairs)`: a dict built by setting the pairs in order. */
  function DictOf(acc: Items, pairs: Items): (r: Items)
    decreases |pairs|
  {
    if |pairs| == 0 then acc else DictOf(Put(acc, pairs[0].0, pairs[0].1), pairs[1..])
  }

  /** Pairs with unique keys, none of them already present, are appended
      in order. */
  lemma {:induction false} DictOfDistinct(acc: Items, pairs: Items)
    requires Distinct(pairs) && KeySet(acc) !! KeySet(pairs)
    ensures DictOf(acc, pairs) == acc + pairs
    decreases |pairs|
  {
    if |pairs| > 0 {
      DisjointStep(acc, pairs);
      calc {
        DictOf(acc, pairs);
        { DictOfStep(acc, pairs); }
        DictOf(acc + [pairs[0]], pairs[1..]);
        { DictOfDistinct(acc + [pairs[0]], pairs[1..]); }
        (acc + [pairs[0]]) + pairs[1..];
        { assert pairs == [pairs[0]] + pairs[1..]; }
        acc + pairs;
      }
    }
  }

  lemma DisjointStep(acc: Items, pairs: Items)
    requires |pairs| > 0 && Distinct(pairs) && KeySet(acc) !! KeySet(pairs)
    ensures pairs[0].0 !in KeySet(acc)
    ensures Distinct(pairs[1..]) && KeySet(acc + [pairs[0]]) !! KeySet(pairs[1..])
  {
    KeySetAppend(acc, pairs[0]);
  }

  lemma DictOfStep(acc: Items, pairs: Items)
    requires |pairs| > 0 && pairs[0].0 !in KeySet(acc)
    ensures DictOf(acc, pairs) == DictOf(acc + [pairs[0]], pairs[1..])
  {
    PutAppends(acc, pairs[0].0, pairs[0].1);
  }

  lemma {:induction false} KeySetAppend(m: Items, e: (Key, Val))
    ensures KeySet(m + [e]) == KeySet(m) + {e.0}
  {
    if |m| > 0 {
      KeySetAppend(m[1..], e);
      assert (m + [e])[1..] == m[1..] + [e];
    }
  }

  /** With unique keys, an item is what looking its key up finds. */
  lemma {:induction false} LookupOfMember(m: Items, e: (Key, Val))
    requires Distinct(m) && e in m
    ensures Lookup(m, e.0) == Some(e.1)
  {
    if m[0] != e {
      assert e in m[1..];
      LookupOfMember(m[1..], e);
    }
  }
}
