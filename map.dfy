/**
 * The oldest generation, `Map` (map.py): a dict whose string keys address
 * nested Maps through the separator.
 *
 * Lookup (`__getitem__`), deletion (`__delitem__`), membership
 * (`__contains__`) and `get` are the same code in route.py, and building a
 * path map from a mapping gives the same value in all three generations, so
 * those members are defined here once and used by the later modules.
 * Children are values: the in-place update of a nested Map is modelled as
 * storing the updated child back under its key.
 */
module Map {
  import opened Base
  import opened Split

  /** The Map stored under `h`, or a fresh empty one when `h` is absent or
      holds anything that is not a Map. */
  function Child(m: Items, h: Key): (c: Items)
    ensures (exists d :: Lookup(m, h) == Some(Node(d))) ==> Some(Node(c)) == Lookup(m, h)
    ensures !(exists d :: Lookup(m, h) == Some(Node(d))) ==> c == []
  {
    match Lookup(m, h)
    case Some(Node(d)) => d
    case _ => []
  }

  /** `__setitem__` (map.py:29-41): store verbatim, or make the head a Map
      and recurse on the rest. */
  function Assign(m: Items, key: Key, v: Val, sep: string): (r: Items)
    requires |sep| > 0
    ensures Contains(r, key, sep) && Index(r, key, sep) == Ok(v)
    ensures forall k :: k != SplitKey(key, sep).head ==> Lookup(r, k) == Lookup(m, k)
    ensures Distinct(m) ==> Distinct(r)
    decreases KeyLen(key)
  {
    var p := SplitKey(key, sep);
    if p.rest.None? then Put(m, p.head, v)
    else Put(m, p.head, Node(Assign(Child(m, p.head), Str(p.rest.value), v, sep)))
  }

  /** `value[rem]` on the value found at the head: a nested Map splits `rem`
      again, a plain dict looks `rem` up whole, a scalar cannot be indexed. */
  function IndexInto(h: Val, rem: string, sep: string): (r: Result<Val>)
    requires |sep| > 0
    decreases |rem|, 2
  {
    match h
    case Node(c) => Index(c, Str(rem), sep)
    case Plain(d) =>
      (match Lookup(d, Str(rem))
       case Some(x) => Ok(x)
       case None => Err(KeyError))
    case _ => Err(TypeError)
  }

  /** `__getitem__` (map.py:43-49; route.py:55-61 and route_v2.py:179-186
      are the same). */
  function Index(m: Items, key: Key, sep: string): (r: Result<Val>)
    requires |sep| > 0
    decreases KeyLen(key), 1
  {
    var p := SplitKey(key, sep);
    match Lookup(m, p.head)
    case None => Err(KeyError)
    case Some(h) => if p.rest.None? then Ok(h) else IndexInto(h, p.rest.value, sep)
  }

  /** `__delitem__` (map.py:51-57; route.py:63-69 and route_v2.py:188-195
      are the same): remove the last segment's entry from its parent. */
  function Delete(m: Items, key: Key, sep: string): (r: Result<Items>)
    requires |sep| > 0
    ensures r.Ok? ==> forall k :: k != SplitKey(key, sep).head ==> Lookup(r.value, k) == Lookup(m, k)
    ensures r.Ok? && Distinct(m) ==> Distinct(r.value)
    decreases KeyLen(key)
  {
    var p := SplitKey(key, sep);
    match Lookup(m, p.head)
    case None => Err(KeyError)
    case Some(h) =>
      if p.rest.None? then Ok(Remove(m, p.head))
      else
        var rem := Str(p.rest.value);
        match h
        case Node(c) =>
          (match Delete(c, rem, sep)
           case Ok(c') => Ok(Put(m, p.head, Node(c')))
           case Err(e) => Err(e))
        case Plain(d) =>
          if Lookup(d, rem).Some? then Ok(Put(m, p.head, Plain(Remove(d, rem))))
          else Err(KeyError)
        case _ => Err(TypeError)
  }

  /** `__contains__` (map.py:59-67; route.py:71-79 is the same): every
      segment but the last must name a nested Map. */
  predicate Contains(m: Items, key: Key, sep: string)
    requires |sep| > 0
    decreases KeyLen(key)
  {
    var p := SplitKey(key, sep);
    if p.rest.None? then Lookup(m, p.head).Some?
    else match Lookup(m, p.head)
      case Some(Node(c)) => Contains(c, Str(p.rest.value), sep)
      case _ => false
  }

  /** `get` (map.py:69-79; route.py:94-104 is the same): `dict.get` on the
      head with the caller's default, then `get` on the rest of whatever that
      returned unless it is None. */
  function Get(m: Items, key: Key, default: Val, sep: string): (r: Result<Val>)
    requires |sep| > 0
    decreases KeyLen(key)
  {
    var p := SplitKey(key, sep);
    var tmp := GetOr(m, p.head, default);
    if p.rest.None? then Ok(tmp)
    else
      var rem := Str(p.rest.value);
      match tmp
      case Null => Ok(Null)
      case Node(c) => Get(c, rem, default, sep)
      case Plain(d) => Ok(GetOr(d, rem, default))
      case Leaf(_) => Err(TypeError)
  }

  /** `Map(v)` for a mapping `v` (map.py:5-10, 22-27): a fresh Map filled by
      `update`, which converts every mapping value before storing it. */
  function Convert(v: Val, sep: string): (r: Val)
    requires |sep| > 0 && IsMapping(v)
    decreases v, 1
  {
    Node(SetAll([], Prepared(v, 0, sep), sep))
  }

  /** The items of `v` from index `i` on, each paired with the value the
      `update` loop stores for it. */
  function Prepared(v: Val, i: nat, sep: string): (r: Items)
    requires |sep| > 0 && IsMapping(v) && i <= |v.items|
    decreases v, 0, |v.items| - i
  {
    if i == |v.items| then []
    else [(v.items[i].0, Stored(v.items[i].1, sep))] + Prepared(v, i + 1, sep)
  }

  /** The value the `update` loop stores for `x`. */
  function Stored(x: Val, sep: string): (r: Val)
    requires |sep| > 0
    ensures !r.Plain?
    ensures !IsMapping(x) ==> r == x
    decreases x, 2
  {
    if IsMapping(x) then Convert(x, sep) else x
  }

  /** The `update` loop (map.py:22-27): `__setitem__` of every pair in
      turn, starting from the entries `acc`. */
  function SetAll(acc: Items, pairs: Items, sep: string): (r: Items)
    requires |sep| > 0
    ensures Distinct(acc) ==> Distinct(r)
    decreases |pairs|
  {
    if |pairs| == 0 then acc
    else SetAll(Assign(acc, pairs[0].0, pairs[0].1, sep), pairs[1..], sep)
  }

  /** Frame: setting or deleting one key leaves another key's value alone
      exactly when neither key's path is a prefix of the other's. */
  predicate Independent(k1: Key, k2: Key, sep: string)
    requires |sep| > 0
    decreases KeyLen(k1)
  {
    var p1 := SplitKey(k1, sep);
    var p2 := SplitKey(k2, sep);
    p1.head != p2.head ||
    (p1.rest.Some? && p2.rest.Some? && Independent(Str(p1.rest.value), Str(p2.rest.value), sep))
  }

  /** The path of `p` is a (not necessarily proper) prefix of that of `k`. */
  predicate IsPrefix(p: Key, k: Key, sep: string)
    requires |sep| > 0
    decreases KeyLen(k)
  {
    var a := SplitKey(p, sep);
    var b := SplitKey(k, sep);
    a.head == b.head &&
    (a.rest.None? || (b.rest.Some? && IsPrefix(Str(a.rest.value), Str(b.rest.value), sep)))
  }

  /** The path of `p` is a proper prefix of that of `k`: `p` names an
      ancestor of `k`. */
  predicate IsAncestor(p: Key, k: Key, sep: string)
    requires |sep| > 0
    decreases KeyLen(k)
  {
    var a := SplitKey(p, sep);
    var b := SplitKey(k, sep);
    a.head == b.head && b.rest.Some? &&
    (a.rest.None? || IsAncestor(Str(a.rest.value), Str(b.rest.value), sep))
  }

  /** Every segment of `key` but the last names a nested Map. */
  predicate ParentIsMap(m: Items, key: Key, sep: string)
    requires |sep| > 0
    decreases KeyLen(key)
  {
    var p := SplitKey(key, sep);
    p.rest.None? ||
    match Lookup(m, p.head)
    case Some(Node(c)) => ParentIsMap(c, Str(p.rest.value), sep)
    case _ => false
  }

  /** A level as `__setitem__` and `update` leave it when only mappings
      converted by `Map(v)` are stored: unique keys that do not split, no
      plain dict, every nested Map tidy as well. */
  predicate Tidy(v: Val, sep: string)
    decreases v
  {
    match v
    case Node(c) =>
      Distinct(c) &&
      forall i :: 0 <= i < |c| ==> Unsplit(c[i].0, sep) && !c[i].1.Plain? && Tidy(c[i].1, sep)
    case Plain(_) => false
    case _ => true
  }

  // ----- __setitem__ -----

  /** The overwrite and replace policy of `__setitem__` (map.py:29-41): a key
      with no remainder stores the value verbatim, discarding whatever was
      there; otherwise an absent head, or one holding anything but a Map, is
      replaced by a fresh Map before the rest is set inside it.  It follows
      from the definition of `Assign` by one unfolding. */
  lemma AssignPolicy(m: Items, key: Key, v: Val, sep: string)
    requires |sep| > 0
    ensures var p := SplitKey(key, sep);
            var r := Assign(m, key, v, sep);
            && (p.rest.None? ==> Lookup(r, p.head) == Some(v))
            && (p.rest.Some? && !(exists c :: Lookup(m, p.head) == Some(Node(c))) ==>
                  Lookup(r, p.head) == Some(Node(Assign([], Str(p.rest.value), v, sep))))
            && (forall c :: p.rest.Some? && Lookup(m, p.head) == Some(Node(c)) ==>
                  Lookup(r, p.head) == Some(Node(Assign(c, Str(p.rest.value), v, sep))))
  {
  }

  /** Setting the same key to the same value twice is setting it once. */
  lemma {:induction false} AssignIdem(m: Items, key: Key, v: Val, sep: string)
    requires |sep| > 0
    ensures Assign(Assign(m, key, v, sep), key, v, sep) == Assign(m, key, v, sep)
    decreases KeyLen(key)
  {
    var p := SplitKey(key, sep);
    if p.rest.None? {
      PutPut(m, p.head, v, v);
    } else {
      var rem := Str(p.rest.value);
      var c1 := Assign(Child(m, p.head), rem, v, sep);
      var r := Put(m, p.head, Node(c1));
      assert Assign(m, key, v, sep) == r;
      assert Child(r, p.head) == c1;
      AssignIdem(Child(m, p.head), rem, v, sep);
      assert Assign(c1, rem, v, sep) == c1;
      PutPut(m, p.head, Node(c1), Node(c1));
    }
  }

  /** A new key that does not split is appended as it is. */
  lemma AssignFresh(m: Items, k: Key, v: Val, sep: string)
    requires |sep| > 0 && Unsplit(k, sep) && k !in KeySet(m)
    ensures Assign(m, k, v, sep) == m + [(k, v)]
  {
    PutAppends(m, k, v);
  }

  /** A dotted key whose head is new appends a fresh Map under the head. */
  lemma AssignFreshNested(m: Items, k: Key, v: Val, sep: string)
    requires |sep| > 0 && !Unsplit(k, sep) && SplitKey(k, sep).head !in KeySet(m)
    ensures var p := SplitKey(k, sep);
            Assign(m, k, v, sep) == m + [(p.head, Node(Assign([], Str(p.rest.value), v, sep)))]
  {
    var p := SplitKey(k, sep);
    PutAppends(m, p.head, Node(Assign([], Str(p.rest.value), v, sep)));
  }

  /** Setting `k` keeps every present key whose path is independent of
      `k`'s, with its value. */
  lemma {:induction false} AssignKeepsIndependent(m: Items, k: Key, v: Val, k2: Key, sep: string)
    requires |sep| > 0 && Independent(k, k2, sep) && Contains(m, k2, sep)
    ensures Contains(Assign(m, k, v, sep), k2, sep)
    ensures Index(Assign(m, k, v, sep), k2, sep) == Index(m, k2, sep)
    decreases KeyLen(k)
  {
    var p := SplitKey(k, sep);
    var q := SplitKey(k2, sep);
    var r := Assign(m, k, v, sep);
    if p.head != q.head {
      assert Lookup(r, q.head) == Lookup(m, q.head);
    } else {
      var c := Lookup(m, q.head).value.items;
      var rp, rq := Str(p.rest.value), Str(q.rest.value);
      AssignKeepsIndependent(c, rp, v, rq, sep);
      assert Lookup(r, q.head) == Some(Node(Assign(c, rp, v, sep)));
    }
  }

  /** A tidy level stays tidy when a tidy value is set. */
  lemma {:induction false} AssignTidy(m: Items, key: Key, v: Val, sep: string)
    requires |sep| > 0 && Tidy(Node(m), sep) && Tidy(v, sep)
    ensures Tidy(Node(Assign(m, key, v, sep)), sep)
    decreases KeyLen(key)
  {
    var p := SplitKey(key, sep);
    if p.rest.None? {
      PutTidy(m, p.head, v, sep);
    } else {
      var c := Child(m, p.head);
      TidyChild(m, p.head, sep);
      AssignTidy(c, Str(p.rest.value), v, sep);
      PutTidy(m, p.head, Node(Assign(c, Str(p.rest.value), v, sep)), sep);
    }
  }

  /** What a tidy level holds under a key: no plain dict, and any nested
      Map tidy. */
  lemma TidyChild(m: Items, h: Key, sep: string)
    requires Tidy(Node(m), sep)
    ensures Lookup(m, h).Some? ==> !Lookup(m, h).value.Plain? && Tidy(Lookup(m, h).value, sep)
    ensures Tidy(Node(Child(m, h)), sep)
  {
    if Lookup(m, h).Some? {
      var j :| 0 <= j < |m| && m[j] == (h, Lookup(m, h).value);
    }
  }

  lemma PutTidy(m: Items, k: Key, v: Val, sep: string)
    requires Tidy(Node(m), sep) && Unsplit(k, sep) && Tidy(v, sep)
    ensures Tidy(Node(Put(m, k, v)), sep)
  {
    var r := Put(m, k, v);
    PutMembers(m, k, v);
    forall i | 0 <= i < |r|
      ensures Unsplit(r[i].0, sep) && !r[i].1.Plain? && Tidy(r[i].1, sep)
    {
      assert r[i] in r;
      if r[i] != (k, v) {
        var j :| 0 <= j < |m| && m[j] == r[i];
      }
    }
  }

  // ----- Map(v) -----

  /** `Prepared` keeps the keys and their order, and stores `Stored` of
      each value. */
  lemma {:induction false} PreparedAt(v: Val, i: nat, a: nat, sep: string)
    requires |sep| > 0 && IsMapping(v) && i + a < |v.items|
    ensures |Prepared(v, i, sep)| == |v.items| - i
    ensures Prepared(v, i, sep)[a] == (v.items[i + a].0, Stored(v.items[i + a].1, sep))
    decreases a
  {
    if a > 0 {
      PreparedAt(v, i + 1, a - 1, sep);
    } else {
      PreparedLength(v, i + 1, sep);
    }
  }

  lemma {:induction false} PreparedLength(v: Val, i: nat, sep: string)
    requires |sep| > 0 && IsMapping(v) && i <= |v.items|
    ensures |Prepared(v, i, sep)| == |v.items| - i
    decreases |v.items| - i
  {
    if i < |v.items| {
      PreparedLength(v, i + 1, sep);
    }
  }

  /** One step of the `update` loop. */
  lemma SetAllPrepared(acc: Items, v: Val, i: nat, sep: string)
    requires |sep| > 0 && IsMapping(v) && i < |v.items|
    ensures SetAll(acc, Prepared(v, i, sep), sep) ==
            SetAll(Assign(acc, v.items[i].0, Stored(v.items[i].1, sep), sep), Prepared(v, i + 1, sep), sep)
  {
    var rest := Prepared(v, i, sep);
    assert rest[1..] == Prepared(v, i + 1, sep);
  }

  /** The prepared items of a suffix are the suffix of the prepared items. */
  lemma {:induction false} PreparedShift(pairs: Items, i: nat, sep: string)
    requires |sep| > 0 && 0 < i <= |pairs|
    ensures Prepared(Plain(pairs), i, sep) == Prepared(Plain(pairs[1..]), i - 1, sep)
    decreases |pairs| - i
  {
    if i < |pairs| {
      PreparedShift(pairs, i + 1, sep);
    }
  }

  /** `Prepared` looks only at the items. */
  lemma {:induction false} PreparedOfItems(v: Val, i: nat, sep: string)
    requires |sep| > 0 && IsMapping(v) && i <= |v.items|
    ensures Prepared(Plain(v.items), i, sep) == Prepared(v, i, sep)
    decreases |v.items| - i
  {
    if i < |v.items| {
      PreparedOfItems(v, i + 1, sep);
    }
  }

  /** Setting every pair keeps a tidy level tidy when each value is tidy. */
  lemma {:induction false} SetAllTidy(acc: Items, pairs: Items, sep: string)
    requires |sep| > 0 && Tidy(Node(acc), sep)
    requires forall a :: 0 <= a < |pairs| ==> Tidy(pairs[a].1, sep)
    ensures Tidy(Node(SetAll(acc, pairs, sep)), sep)
    decreases |pairs|
  {
    if |pairs| > 0 {
      AssignTidy(acc, pairs[0].0, pairs[0].1, sep);
      assert forall a :: 0 <= a < |pairs[1..]| ==> pairs[1..][a] == pairs[a + 1];
      SetAllTidy(Assign(acc, pairs[0].0, pairs[0].1, sep), pairs[1..], sep);
    }
  }

  /** `Map(v)` leaves a tidy Map: keys that contain the separator have
      become nested Maps, and every nested mapping has been converted. */
  lemma {:induction false} ConvertTidy(v: Val, sep: string)
    requires |sep| > 0 && IsMapping(v)
    ensures Tidy(Convert(v, sep), sep)
    decreases v, 1
  {
    var pairs := Prepared(v, 0, sep);
    PreparedLength(v, 0, sep);
    forall a | 0 <= a < |pairs|
      ensures Tidy(pairs[a].1, sep)
    {
      PreparedAt(v, 0, a, sep);
      StoredTidy(v.items[a].1, sep);
    }
    SetAllTidy([], pairs, sep);
  }

  lemma {:induction false} StoredTidy(x: Val, sep: string)
    requires |sep| > 0
    ensures Tidy(Stored(x, sep), sep)
    decreases x, 2
  {
    if IsMapping(x) {
      ConvertTidy(x, sep);
    }
  }

  /** Setting fresh keys that do not split appends them in order. */
  lemma {:induction false} SetAllAppends(acc: Items, pairs: Items, sep: string)
    requires |sep| > 0 && Distinct(acc + pairs)
    requires forall a :: 0 <= a < |pairs| ==> Unsplit(pairs[a].0, sep)
    ensures SetAll(acc, pairs, sep) == acc + pairs
    decreases |pairs|
  {
    if |pairs| > 0 {
      var k, x := pairs[0].0, pairs[0].1;
      assert k !in KeySet(acc) by {
        DistinctAt(acc + pairs, |acc|);
        assert (acc + pairs)[..|acc|] == acc;
      }
      assert Assign(acc, k, x, sep) == acc + [(k, x)] by {
        assert SplitKey(k, sep) == Parts(k, None);
        PutAppends(acc, k, x);
      }
      assert (acc + [(k, x)]) + pairs[1..] == acc + pairs;
      assert forall a :: 0 <= a < |pairs[1..]| ==> pairs[1..][a] == pairs[a + 1];
      SetAllAppends(acc + [(k, x)], pairs[1..], sep);
    }
  }

  /** Converting a Map that is already tidy rebuilds it with the same
      content, in the same order: `Map(m) == m`, and so storing `Map(v)`
      where `Map(Map(v))` is stored makes no difference. */
  lemma {:induction false} ConvertFixesTidy(v: Val, sep: string)
    requires |sep| > 0 && v.Node? && Tidy(v, sep)
    ensures Convert(v, sep) == v
    decreases v, 1
  {
    PreparedFixesTidy(v, 0, sep);
    assert v.items[0..] == v.items;
    forall a | 0 <= a < |v.items|
      ensures Unsplit(v.items[a].0, sep)
    {
    }
    assert [] + v.items == v.items;
    SetAllAppends([], v.items, sep);
  }

  lemma {:induction false} PreparedFixesTidy(v: Val, i: nat, sep: string)
    requires |sep| > 0 && v.Node? && Tidy(v, sep) && i <= |v.items|
    ensures Prepared(v, i, sep) == v.items[i..]
    decreases v, 0, |v.items| - i
  {
    if i < |v.items| {
      var x := v.items[i].1;
      assert !x.Plain? && Tidy(x, sep);
      if x.Node? {
        ConvertFixesTidy(x, sep);
      }
      PreparedFixesTidy(v, i + 1, sep);
      assert v.items[i..] == [v.items[i]] + v.items[i + 1..];
    }
  }

  /** Converting twice is converting once: `Map(Map(v)) == Map(v)`. */
  lemma StoredTwice(x: Val, sep: string)
    requires |sep| > 0
    ensures Stored(Stored(x, sep), sep) == Stored(x, sep)
  {
    if IsMapping(x) {
      ConvertTidy(x, sep);
      ConvertFixesTidy(Convert(x, sep), sep);
    }
  }

  /** No key of the mapping names a path that is a prefix of another's. */
  predicate IndependentKeys(items: Items, sep: string)
    requires |sep| > 0
  {
    forall a, b :: 0 <= a < |items| && 0 <= b < |items| && a != b ==>
      Independent(items[a].0, items[b].0, sep)
  }

  /** A key that later pairs leave alone keeps its value. */
  lemma {:induction false} SetAllKeeps(acc: Items, pairs: Items, k: Key, sep: string)
    requires |sep| > 0 && Contains(acc, k, sep)
    requires forall a :: 0 <= a < |pairs| ==> Independent(pairs[a].0, k, sep)
    ensures Contains(SetAll(acc, pairs, sep), k, sep)
    ensures Index(SetAll(acc, pairs, sep), k, sep) == Index(acc, k, sep)
    decreases |pairs|
  {
    if |pairs| > 0 {
      AssignKeepsIndependent(acc, pairs[0].0, pairs[0].1, k, sep);
      assert forall a :: 0 <= a < |pairs[1..]| ==> pairs[1..][a] == pairs[a + 1];
      SetAllKeeps(Assign(acc, pairs[0].0, pairs[0].1, sep), pairs[1..], k, sep);
    }
  }

  /** Each pair is reachable after the loop when no later key touches it. */
  lemma {:induction false} SetAllIndex(acc: Items, pairs: Items, j: nat, sep: string)
    requires |sep| > 0 && j < |pairs|
    requires forall a :: j < a < |pairs| ==> Independent(pairs[a].0, pairs[j].0, sep)
    ensures Contains(SetAll(acc, pairs, sep), pairs[j].0, sep)
    ensures Index(SetAll(acc, pairs, sep), pairs[j].0, sep) == Ok(pairs[j].1)
    decreases |pairs|
  {
    var acc' := Assign(acc, pairs[0].0, pairs[0].1, sep);
    var rest := pairs[1..];
    assert SetAll(acc, pairs, sep) == SetAll(acc', rest, sep);
    forall a | j <= a < |rest|
      ensures Independent(rest[a].0, pairs[j].0, sep)
    {
      assert rest[a] == pairs[a + 1];
    }
    if j == 0 {
      SetAllKeeps(acc', rest, pairs[0].0, sep);
    } else {
      assert rest[j - 1] == pairs[j];
      SetAllIndex(acc', rest, j - 1, sep);
    }
  }

  /** Building from a mapping whose keys are independent paths makes each
      key reachable with its (converted) value: a key holding the separator
      ends up nested, `Map({'cpu.number': 10})['cpu.number'] == 10`. */
  lemma ConvertIndex(v: Val, sep: string)
    requires |sep| > 0 && IsMapping(v) && IndependentKeys(v.items, sep)
    ensures forall i :: 0 <= i < |v.items| ==>
              && Contains(Convert(v, sep).items, v.items[i].0, sep)
              && Index(Convert(v, sep).items, v.items[i].0, sep) == Ok(Stored(v.items[i].1, sep))
  {
    var pairs := Prepared(v, 0, sep);
    forall i | 0 <= i < |v.items|
      ensures Contains(Convert(v, sep).items, v.items[i].0, sep)
      ensures Index(Convert(v, sep).items, v.items[i].0, sep) == Ok(Stored(v.items[i].1, sep))
    {
      PreparedAt(v, 0, i, sep);
      forall a | i < a < |pairs|
        ensures Independent(pairs[a].0, pairs[i].0, sep)
      {
        PreparedAt(v, 0, a, sep);
      }
      SetAllIndex([], pairs, i, sep);
    }
  }

  // ----- __getitem__, __contains__, __delitem__ -----

  /** A contained key can be indexed. */
  lemma {:induction false} IndexOfContained(m: Items, key: Key, sep: string)
    requires |sep| > 0 && Contains(m, key, sep)
    ensures Index(m, key, sep).Ok?
    decreases KeyLen(key)
  {
    var p := SplitKey(key, sep);
    if p.rest.Some? {
      var c := Lookup(m, p.head).value.items;
      IndexOfContained(c, Str(p.rest.value), sep);
    }
  }

  /** Any missing segment raises KeyError, in indexing and in deletion: if
      a prefix `p` of `key` has all its parents but not itself, both fail
      with KeyError. */
  lemma {:induction false} MissingSegmentRaises(m: Items, p: Key, key: Key, sep: string)
    requires |sep| > 0 && IsPrefix(p, key, sep) && ParentIsMap(m, p, sep) && !Contains(m, p, sep)
    ensures Index(m, key, sep) == Err(KeyError)
    ensures Delete(m, key, sep) == Err(KeyError)
    decreases KeyLen(key)
  {
    var a := SplitKey(p, sep);
    var b := SplitKey(key, sep);
    if a.rest.Some? {
      var c := Lookup(m, a.head).value.items;
      MissingSegmentRaises(c, Str(a.rest.value), Str(b.rest.value), sep);
    }
  }

  /** Deleting a contained key succeeds and the key is no longer contained. */
  lemma {:induction false} DeleteRemoves(m: Items, key: Key, sep: string)
    requires |sep| > 0 && Contains(m, key, sep)
    ensures Delete(m, key, sep).Ok?
    ensures !Contains(Delete(m, key, sep).value, key, sep)
    decreases KeyLen(key)
  {
    var p := SplitKey(key, sep);
    if p.rest.Some? {
      var c := Lookup(m, p.head).value.items;
      DeleteRemoves(c, Str(p.rest.value), sep);
      assert Lookup(Delete(m, key, sep).value, p.head) ==
             Some(Node(Delete(c, Str(p.rest.value), sep).value));
    }
  }

  /** Deletion removes only its target: every present key whose path is
      independent of the deleted one keeps its value. */
  lemma {:induction false} DeleteKeepsIndependent(m: Items, key: Key, k2: Key, sep: string)
    requires |sep| > 0 && Delete(m, key, sep).Ok? && Independent(key, k2, sep) && Contains(m, k2, sep)
    ensures Contains(Delete(m, key, sep).value, k2, sep)
    ensures Index(Delete(m, key, sep).value, k2, sep) == Index(m, k2, sep)
    decreases KeyLen(key)
  {
    var p := SplitKey(key, sep);
    var q := SplitKey(k2, sep);
    var r := Delete(m, key, sep).value;
    if p.head != q.head {
      assert Lookup(r, q.head) == Lookup(m, q.head);
    } else {
      var c := Lookup(m, q.head).value.items;
      var rp, rq := Str(p.rest.value), Str(q.rest.value);
      DeleteKeepsIndependent(c, rp, rq, sep);
      assert Lookup(r, q.head) == Some(Node(Delete(c, rp, sep).value));
    }
  }

  /** Deletion never prunes: every ancestor of the deleted key is still
      there, and one that was a Map is still a Map, even if now empty. */
  lemma {:induction false} DeleteKeepsAncestors(m: Items, key: Key, p: Key, sep: string)
    requires |sep| > 0 && Delete(m, key, sep).Ok? && IsAncestor(p, key, sep) && Contains(m, p, sep)
    ensures Contains(Delete(m, key, sep).value, p, sep)
    ensures Index(m, p, sep).Ok? && Index(m, p, sep).value.Node? ==>
              Index(Delete(m, key, sep).value, p, sep).Ok? && Index(Delete(m, key, sep).value, p, sep).value.Node?
    decreases KeyLen(key)
  {
    var a := SplitKey(p, sep);
    var b := SplitKey(key, sep);
    var r := Delete(m, key, sep).value;
    var h := Lookup(m, a.head).value;
    if h.Node? {
      var cr := Delete(h.items, Str(b.rest.value), sep).value;
      assert Lookup(r, a.head) == Some(Node(cr));
      if a.rest.Some? {
        var pr := Str(a.rest.value);
        DeleteKeepsAncestors(h.items, Str(b.rest.value), pr, sep);
        assert Contains(r, p, sep) == Contains(cr, pr, sep);
        assert Index(m, p, sep) == Index(h.items, pr, sep);
        assert Index(r, p, sep) == Index(cr, pr, sep);
      } else {
        assert Index(r, p, sep) == Ok(Node(cr));
      }
    } else {
      assert h.Plain?;
      assert Lookup(r, a.head) == Some(Plain(Remove(h.items, Str(b.rest.value))));
      assert Index(m, p, sep) == Ok(h);
    }
  }

  // ----- get -----

  /** On a contained key `get` is indexing. */
  lemma {:induction false} GetOfContained(m: Items, key: Key, default: Val, sep: string)
    requires |sep| > 0 && Contains(m, key, sep)
    ensures Get(m, key, default, sep) == Index(m, key, sep)
    decreases KeyLen(key)
  {
    var p := SplitKey(key, sep);
    if p.rest.Some? {
      var c := Lookup(m, p.head).value.items;
      GetOfContained(c, Str(p.rest.value), default, sep);
    }
  }

  /** A path whose last segment is missing under existing parent Maps gives
      the supplied default. */
  lemma {:induction false} GetMissingLast(m: Items, key: Key, default: Val, sep: string)
    requires |sep| > 0 && ParentIsMap(m, key, sep) && !Contains(m, key, sep)
    ensures Get(m, key, default, sep) == Ok(default)
    decreases KeyLen(key)
  {
    var p := SplitKey(key, sep);
    if p.rest.Some? {
      var c := Lookup(m, p.head).value.items;
      GetMissingLast(c, Str(p.rest.value), default, sep);
    }
  }

  /** With the head of a composite key absent, `get` returns None for the
      default None, but calls `.get` on any other default: for a scalar
      default that raises instead of returning it.  This follows from the
      definition of `Get` by one unfolding; it is stated to exhibit the
      defect. */
  lemma GetAbsentHead(m: Items, key: Key, default: Val, sep: string)
    requires |sep| > 0 && SplitKey(key, sep).rest.Some? && Lookup(m, SplitKey(key, sep).head).None?
    ensures default == Null ==> Get(m, key, default, sep) == Ok(Null)
    ensures default.Leaf? ==> Get(m, key, default, sep) == Err(TypeError)
  {
  }

  /** Wherever indexing succeeds, `get` returns what indexing returns, a
      value read through a plain dict included. */
  lemma {:induction false} GetOfIndexed(m: Items, key: Key, default: Val, sep: string)
    requires |sep| > 0 && Index(m, key, sep).Ok?
    ensures Get(m, key, default, sep) == Index(m, key, sep)
    decreases KeyLen(key)
  {
    var p := SplitKey(key, sep);
    if p.rest.Some? {
      var h := Lookup(m, p.head).value;
      if h.Node? {
        GetOfIndexed(h.items, Str(p.rest.value), default, sep);
      }
    }
  }

  /** The `get` of route_v2.py:209-214 applied to a Map: the value when
      indexing the key succeeds, the default otherwise, never an error. */
  function GetIntended(m: Items, key: Key, default: Val, sep: string): (r: Val)
    requires |sep| > 0
    ensures Contains(m, key, sep) ==> Index(m, key, sep) == Ok(r)
    ensures Index(m, key, sep).Ok? ==> Index(m, key, sep) == Ok(r)
    ensures Index(m, key, sep).Err? ==> r == default
  {
    ContainedIndexes(m, key, sep);
    if Index(m, key, sep).Ok? then Index(m, key, sep).value else default
  }

  /** A contained key can be indexed. */
  lemma ContainedIndexes(m: Items, key: Key, sep: string)
    requires |sep| > 0
    ensures Contains(m, key, sep) ==> Index(m, key, sep).Ok?
  {
    if Contains(m, key, sep) {
      IndexOfContained(m, key, sep);
    }
  }

  /** `get` as written agrees with the intended one wherever indexing the
      path succeeds or only its last segment is missing. */
  lemma GetAgreesWhereResolved(m: Items, key: Key, default: Val, sep: string)
    requires |sep| > 0 && (Index(m, key, sep).Ok? || ParentIsMap(m, key, sep))
    ensures Get(m, key, default, sep) == Ok(GetIntended(m, key, default, sep))
  {
    if Index(m, key, sep).Ok? {
      GetOfIndexed(m, key, default, sep);
    } else {
      if Contains(m, key, sep) {
        IndexOfContained(m, key, sep);
      }
      GetMissingLast(m, key, default, sep);
    }
  }

  // ----- the Map object -----

  /** A `Map` object (map.py:2-79): a dict whose entries are `entries`,
      with the class-wide separator `.`. */
  class Map {
    const sep: string
    var entries: Items

    /** Keys stay unique, as in any dict. */
    predicate Valid()
      reads this
    {
      |sep| > 0 && Distinct(entries)
    }

    /** `Map(it, **kwargs)` (map.py:5-10): `update(it)` when `it` is given,
        then `update(kwargs)`. */
    constructor(it: Option<Items>, kwargs: Items)
      ensures Valid() && sep == "."
      ensures entries ==
        SetAll(SetAll([], if it.Some? then Prepared(Plain(it.value), 0, ".") else [], "."),
               Prepared(Plain(kwargs), 0, "."), ".")
    {
      sep := ".";
      entries := [];
      new;
      if it.Some? {
        Update(it.value);
      }
      Update(kwargs);
    }

    /** `update(it)` (map.py:22-27): `__setitem__` of every item in order,
        converting mapping values to Maps first. */
    method Update(it: Items)
      requires Valid()
      modifies this
      ensures Valid()
      ensures entries == SetAll(old(entries), Prepared(Plain(it), 0, sep), sep)
    {
      var i := 0;
      while i < |it|
        invariant 0 <= i <= |it| && Valid()
        invariant SetAll(entries, Prepared(Plain(it), i, sep), sep) ==
                  SetAll(old(entries), Prepared(Plain(it), 0, sep), sep)
        decreases |it| - i
      {
        var k, x := it[i].0, it[i].1;
        var y := Stored(x, sep);
        SetAllPrepared(entries, Plain(it), i, sep);
        SetItem(k, y);
        i := i + 1;
      }
    }

    /** `self[key] = item` (map.py:29-41). */
    method SetItem(key: Key, item: Val)
      requires Valid()
      modifies this
      ensures Valid()
      ensures entries == Assign(old(entries), key, item, sep)
    {
      entries := Assign(entries, key, item, sep);
    }

    /** `self[key]` (map.py:43-49). */
    method GetItem(key: Key) returns (r: Result<Val>)
      requires Valid()
      ensures r == Index(entries, key, sep)
      ensures Contains(entries, key, sep) ==> r.Ok?
    {
      r := Index(entries, key, sep);
      if Contains(entries, key, sep) {
        IndexOfContained(entries, key, sep);
      }
    }

    /** `del self[key]` (map.py:51-57): on error nothing has changed. */
    method DelItem(key: Key) returns (out: Outcome)
      requires Valid()
      modifies this
      ensures Valid()
      ensures Delete(old(entries), key, sep).Ok? ==>
                out == Done && entries == Delete(old(entries), key, sep).value
      ensures Delete(old(entries), key, sep).Err? ==>
                out == Raised(Delete(old(entries), key, sep).error) && entries == old(entries)
      ensures Contains(old(entries), key, sep) ==> out == Done && !Contains(entries, key, sep)
    {
      var r := Delete(entries, key, sep);
      if Contains(entries, key, sep) {
        DeleteRemoves(entries, key, sep);
      }
      match r
      case Ok(e) =>
        entries := e;
        out := Done;
      case Err(err) =>
        out := Raised(err);
    }

    /** `key in self` (map.py:59-67). */
    method ContainsKey(key: Key) returns (b: bool)
      requires Valid()
      ensures b == Contains(entries, key, sep)
    {
      b := Contains(entries, key, sep);
    }

    /** `self.get(key, default)` (map.py:69-79). */
    method GetValue(key: Key, default: Val) returns (r: Result<Val>)
      requires Valid()
      ensures r == Get(entries, key, default, sep)
      ensures Contains(entries, key, sep) ==> r == Index(entries, key, sep)
    {
      r := Get(entries, key, default, sep);
      if Contains(entries, key, sep) {
        GetOfContained(entries, key, default, sep);
      }
    }
  }
}
