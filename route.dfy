/**
 * The second generation, `Route` (route.py).  Lookup, deletion, membership
 * and `get` are the code of map.py (`Map.Index`, `Map.Delete`,
 * `Map.Contains`, `Map.Get`); what is new is that a dict set through a
 * composite key is wrapped into a Route, that `update` also accepts a list
 * of pairs, and `plain`, which flattens a Route into one entry per leaf.
 */
module RouteV1 {
  import opened Base
  import opened Split
  import opened Map

  // ----- __setitem__ and update -----

  /** `__setitem__` (route.py:38-53): a key with no remainder stores the
      value verbatim, even a dict; otherwise the head becomes a Route unless
      it already is one, and the rest is set in it, with a dict value
      wrapped as `Route(item)` first.  The wrapping is the conversion
      `Map.Stored`, which `RouteBuildsMap` shows is what route.py's own
      `update` builds. */
  function AssignWrap(m: Items, key: Key, v: Val, sep: string): (r: Items)
    requires |sep| > 0
    decreases KeyLen(key)
  {
    var p := SplitKey(key, sep);
    if p.rest.None? then Put(m, p.head, v)
    else Put(m, p.head, Node(AssignWrap(Child(m, p.head), Str(p.rest.value), Stored(v, sep), sep)))
  }

  /** route.py's `__setitem__` is map.py's applied to the wrapped value on a
      composite key: a dict reaches its leaf as a Route, a dict set under a
      plain key stays a dict.  Everything proved about `Map.Assign` carries
      over. */
  lemma {:induction false} AssignWrapAsMap(m: Items, key: Key, v: Val, sep: string)
    requires |sep| > 0
    ensures AssignWrap(m, key, v, sep) == Assign(m, key, if Unsplit(key, sep) then v else Stored(v, sep), sep)
    decreases KeyLen(key)
  {
    var p := SplitKey(key, sep);
    if p.rest.Some? {
      var rest := Str(p.rest.value);
      AssignWrapAsMap(Child(m, p.head), rest, Stored(v, sep), sep);
      StoredTwice(v, sep);
    }
  }

  /** What a set leaves behind: the key is contained and maps to the value,
      wrapped into a Route when it is a dict set through a composite key;
      other entries at the top level are untouched. */
  lemma SetThenGet(m: Items, key: Key, v: Val, sep: string)
    requires |sep| > 0
    ensures var r := AssignWrap(m, key, v, sep);
            && Contains(r, key, sep)
            && Index(r, key, sep) == Ok(if Unsplit(key, sep) then v else Stored(v, sep))
            && (Unsplit(key, sep) && v.Plain? ==> Index(r, key, sep) == Ok(v))
            && (!Unsplit(key, sep) && IsMapping(v) ==> Index(r, key, sep) == Ok(Convert(v, sep)))
            && forall k :: k != SplitKey(key, sep).head ==> Lookup(r, k) == Lookup(m, k)
  {
    AssignWrapAsMap(m, key, v, sep);
  }

  /** The `update` loop (route.py:25-36) over a dict's items or a list of
      pairs: `__setitem__` of each key with its value, a dict value wrapped
      as `Route(v)` first. */
  function SetAllWrap(acc: Items, pairs: Items, sep: string): (r: Items)
    requires |sep| > 0
    decreases |pairs|
  {
    if |pairs| == 0 then acc
    else SetAllWrap(AssignWrap(acc, pairs[0].0, Stored(pairs[0].1, sep), sep), pairs[1..], sep)
  }

  /** `Route(d)` and `update(d)` build exactly what `Map(d)` and map.py's
      `update` build. */
  lemma {:induction false} RouteBuildsMap(acc: Items, pairs: Items, sep: string)
    requires |sep| > 0
    ensures SetAllWrap(acc, pairs, sep) == SetAll(acc, Prepared(Plain(pairs), 0, sep), sep)
    decreases |pairs|
  {
    if |pairs| > 0 {
      var k, x := pairs[0].0, pairs[0].1;
      AssignWrapAsMap(acc, k, Stored(x, sep), sep);
      StoredTwice(x, sep);
      var acc' := Assign(acc, k, Stored(x, sep), sep);
      SetAllPrepared(acc, Plain(pairs), 0, sep);
      RouteBuildsMap(acc', pairs[1..], sep);
      PreparedShift(pairs, 1, sep);
    }
  }

  /** `Route(v)` as written calls route.py's own `update`, which wraps each
      dict value as `Route(v)` again; `Map.Convert` satisfies that equation,
      so it is the value `Route(v)` builds. */
  lemma RouteConvertIsMap(v: Val, sep: string)
    requires |sep| > 0 && IsMapping(v)
    ensures Convert(v, sep) == Node(SetAllWrap([], v.items, sep))
  {
    RouteBuildsMap([], v.items, sep);
    PreparedOfItems(v, 0, sep);
  }

  /** `__setitem__` keeps the keys of a level unique. */
  lemma AssignWrapDistinct(m: Items, key: Key, v: Val, sep: string)
    requires |sep| > 0 && Distinct(m)
    ensures Distinct(AssignWrap(m, key, v, sep))
  {
    AssignWrapAsMap(m, key, v, sep);
  }

  /** Setting the same key to the same value twice is setting it once. */
  lemma AssignWrapIdem(m: Items, key: Key, v: Val, sep: string)
    requires |sep| > 0
    ensures AssignWrap(AssignWrap(m, key, v, sep), key, v, sep) == AssignWrap(m, key, v, sep)
  {
    AssignWrapAsMap(m, key, v, sep);
    AssignWrapAsMap(AssignWrap(m, key, v, sep), key, v, sep);
    AssignIdem(m, key, if Unsplit(key, sep) then v else Stored(v, sep), sep);
  }

  // ----- plain -----

  /** `plain()` (route.py:81-92; route_v2.py:246-261 with the separator it
      is given): every non-Route value under its key, every entry of a
      nested Route's `plain()` under `sep.join([k, k'])`, which raises
      TypeError unless both keys are strings. */
  function Flat(v: Val, sep: string): Result<Items>
    requires v.Node?
    decreases v, 1
  {
    FlatFrom(v, 0, [], sep)
  }

  /** The loop of `plain()` from item `i` on, filling `acc`. */
  function FlatFrom(v: Val, i: nat, acc: Items, sep: string): Result<Items>
    requires v.Node? && i <= |v.items|
    decreases v, 0, |v.items| - i
  {
    if i == |v.items| then Ok(acc)
    else
      var k, x := v.items[i].0, v.items[i].1;
      if x.Node? then
        match Flat(x, sep)
        case Err(e) => Err(e)
        case Ok(inner) =>
          match PutJoined(acc, k, inner, sep)
          case Err(e) => Err(e)
          case Ok(acc') => FlatFrom(v, i + 1, acc', sep)
      else FlatFrom(v, i + 1, Put(acc, k, x), sep)
  }

  /** The inner loop: `d[sep.join([k, k'])] = v'` for every flat entry of a
      nested Route. */
  function PutJoined(acc: Items, k: Key, inner: Items, sep: string): Result<Items>
    decreases |inner|
  {
    if |inner| == 0 then Ok(acc)
    else if k.Str? && inner[0].0.Str? then
      PutJoined(Put(acc, Str(k.s + sep + inner[0].0.s), inner[0].1), k, inner[1..], sep)
    else Err(TypeError)
  }

  /** The leaf a key names: the non-Route value reached by following the
      key's segments through nested Routes. */
  function LeafAt(m: Items, key: Key, sep: string): Option<Val>
    requires |sep| > 0
    decreases KeyLen(key)
  {
    var p := SplitKey(key, sep);
    match Lookup(m, p.head)
    case None => None
    case Some(x) =>
      if x.Node? then (if p.rest.None? then None else LeafAt(x.items, Str(p.rest.value), sep))
      else if p.rest.None? then Some(x) else None
  }

  /** A leaf is never a Route. */
  lemma {:induction false} LeafAtNotNode(m: Items, key: Key, sep: string)
    requires |sep| > 0
    ensures LeafAt(m, key, sep).Some? ==> !LeafAt(m, key, sep).value.Node?
    decreases KeyLen(key)
  {
    var p := SplitKey(key, sep);
    if p.rest.Some? && Lookup(m, p.head).Some? && Lookup(m, p.head).value.Node? {
      LeafAtNotNode(Lookup(m, p.head).value.items, Str(p.rest.value), sep);
    }
  }

  /** So `plain()` holds leaves only: a nested Route, even an empty one,
      contributes its leaves and never itself. */
  lemma FlatLeavesOnly(v: Val, sep: string)
    requires |sep| > 0 && Flattenable(v, sep)
    ensures Flat(v, sep).Ok?
    ensures forall e :: e in Flat(v, sep).value ==> e.0.Str? && !e.1.Node?
  {
    FlatLookup(v, sep);
    var flat := Flat(v, sep).value;
    forall e | e in flat
      ensures e.0.Str? && !e.1.Node?
    {
      LookupOfMember(flat, e);
      LeafAtNotNode(v.items, e.0, sep);
    }
  }

  /** A leaf is exactly what indexing finds at a contained key, unless it is
      a Route. */
  lemma {:induction false} LeafAtIndex(m: Items, key: Key, x: Val, sep: string)
    requires |sep| > 0
    ensures LeafAt(m, key, sep) == Some(x) <==>
            Contains(m, key, sep) && Index(m, key, sep) == Ok(x) && !x.Node?
    decreases KeyLen(key)
  {
    var p := SplitKey(key, sep);
    if p.rest.Some? && Lookup(m, p.head).Some? && Lookup(m, p.head).value.Node? {
      LeafAtIndex(Lookup(m, p.head).value.items, Str(p.rest.value), x, sep);
    }
  }

  /** What `plain()` can flatten faithfully: unique string keys that are
      segments (no separator inside, and none that a join could shift), all
      the way down. For a one-character separator a segment is just a string
      without that character (`Split.CharFreeSegment`). */
  predicate Flattenable(v: Val, sep: string)
    decreases v
  {
    v.Node? && Distinct(v.items) &&
    forall i :: 0 <= i < |v.items| ==>
      && v.items[i].0.Str? && Segment(v.items[i].0.s, sep)
      && (v.items[i].1.Node? ==> Flattenable(v.items[i].1, sep))
  }

  /** The flat entry an item `(k, x)` of a Route contributes under the
      string `p`, if any. */
  function Own(k: Key, x: Val, p: string, sep: string): Option<Val>
    requires |sep| > 0
  {
    var sp := SplitKey(Str(p), sep);
    if sp.head != k then None
    else if x.Node? then
      (if sp.rest.None? then None
       else match Flat(x, sep)
            case Ok(inner) => Lookup(inner, Str(sp.rest.value))
            case Err(_) => None)
    else if sp.rest.None? then Some(x) else None
  }

  /** The flat entry under `p` that the first item with `p`'s head, among
      `items`, contributes. */
  function Produce(items: Items, p: string, sep: string): Option<Val>
    requires |sep| > 0
  {
    if |items| == 0 then None
    else if items[0].0 == SplitKey(Str(p), sep).head then Own(items[0].0, items[0].1, p, sep)
    else Produce(items[1..], p, sep)
  }

  function Over(a: Option<Val>, b: Option<Val>): Option<Val> {
    if a.Some? then a else b
  }

  /** No item with `p`'s head, no flat entry under `p`. */
  lemma {:induction false} ProduceAbsent(items: Items, p: string, sep: string)
    requires |sep| > 0 && SplitKey(Str(p), sep).head !in KeySet(items)
    ensures Produce(items, p, sep) == None
  {
    if |items| > 0 {
      ProduceAbsent(items[1..], p, sep);
    }
  }

  /** In a dict with unique keys no item repeats the key of a later one. */
  lemma {:induction false} DistinctAfter(m: Items, i: nat)
    requires Distinct(m) && i < |m|
    ensures m[i].0 !in KeySet(m[i + 1..])
  {
    if i > 0 {
      assert m[i + 1..] == m[1..][i..];
      DistinctAfter(m[1..], i - 1);
    }
  }

  /** The inner loop writes `k + sep + k'` for each flat entry `k'`, and
      nothing else. */
  lemma {:induction false} PutJoinedLookup(acc: Items, k: Key, inner: Items, p: string, sep: string)
    requires |sep| > 0 && k.Str? && Segment(k.s, sep) && Distinct(inner)
    requires forall e :: e in inner ==> e.0.Str?
    ensures PutJoined(acc, k, inner, sep).Ok?
    ensures Distinct(acc) ==> Distinct(PutJoined(acc, k, inner, sep).value)
    ensures forall e :: e in PutJoined(acc, k, inner, sep).value ==> e in acc || e.0.Str?
    ensures var sp := SplitKey(Str(p), sep);
            Lookup(PutJoined(acc, k, inner, sep).value, Str(p)) ==
            Over(if sp.head == k && sp.rest.Some? then Lookup(inner, Str(sp.rest.value)) else None,
                 Lookup(acc, Str(p)))
    decreases |inner|
  {
    if |inner| > 0 {
      var q, y := inner[0].0, inner[0].1;
      assert q.Str? by { assert inner[0] in inner; }
      var j := Str(k.s + sep + q.s);
      var acc' := Put(acc, j, y);
      forall e | e in inner[1..]
        ensures e.0.Str?
      {
        assert e in inner;
      }
      PutJoinedLookup(acc', k, inner[1..], p, sep);
      PutMembers(acc, j, y);
      SplitJoin(k.s, q.s, sep);
      var sp := SplitKey(Str(p), sep);
      if sp.head == k && sp.rest.Some? && sp.rest.value == q.s {
        assert Str(p) == j;
        assert Lookup(inner[1..], Str(sp.rest.value)) == None;
      }
    }
  }

  /** `plain()` of a flattenable Route succeeds, keeps keys unique, and maps
      each string exactly to the leaf that string names in the Route.  With
      `LeafAtIndex`: `plain()` holds `(p, x)` iff `p in route` and
      `route[p] == x` for a non-Route `x`. */
  lemma {:induction false} FlatLookup(v: Val, sep: string)
    requires |sep| > 0 && Flattenable(v, sep)
    ensures Flat(v, sep).Ok?
    ensures Distinct(Flat(v, sep).value)
    ensures forall e :: e in Flat(v, sep).value ==> e.0.Str?
    ensures forall p :: Lookup(Flat(v, sep).value, Str(p)) == LeafAt(v.items, Str(p), sep)
    decreases v, 2
  {
    FlatFromLookup(v, 0, [], sep);
    assert v.items[0..] == v.items;
    forall p
      ensures Lookup(Flat(v, sep).value, Str(p)) == LeafAt(v.items, Str(p), sep)
    {
      ProduceLeafAt(v, 0, p, sep);
    }
  }

  /** The loop of `plain()`: after item `i`, each string holds what the
      items from `i` on contribute to it, or else what it held before. */
  lemma {:induction false} FlatFromLookup(v: Val, i: nat, acc: Items, sep: string)
    requires |sep| > 0 && Flattenable(v, sep) && i <= |v.items|
    requires Distinct(acc) && forall e :: e in acc ==> e.0.Str?
    ensures FlatFrom(v, i, acc, sep).Ok?
    ensures Distinct(FlatFrom(v, i, acc, sep).value)
    ensures forall e :: e in FlatFrom(v, i, acc, sep).value ==> e.0.Str?
    ensures forall p :: Lookup(FlatFrom(v, i, acc, sep).value, Str(p)) ==
                        Over(Produce(v.items[i..], p, sep), Lookup(acc, Str(p)))
    decreases v, 1, |v.items| - i
  {
    var items := v.items;
    if i == |items| {
      assert items[i..] == [];
    } else {
      var k, x := items[i].0, items[i].1;
      assert items[i..][0] == items[i] && items[i..][1..] == items[i + 1..];
      var acc': Items;
      if x.Node? {
        FlatLookup(x, sep);
        var inner := Flat(x, sep).value;
        forall e | e in inner ensures e.0.Str? { }
        PutJoinedLookup(acc, k, inner, "", sep);
        acc' := PutJoined(acc, k, inner, sep).value;
        forall p
          ensures Lookup(acc', Str(p)) == Over(Own(k, x, p, sep), Lookup(acc, Str(p)))
        {
          PutJoinedLookup(acc, k, inner, p, sep);
        }
      } else {
        acc' := Put(acc, k, x);
        PutMembers(acc, k, x);
        SegmentIsSepFree(k.s, sep);
        assert SplitKey(k, sep) == Parts(k, None);
      }
      FlatFromLookup(v, i + 1, acc', sep);
      DistinctAfter(items, i);
      forall p
        ensures Lookup(FlatFrom(v, i, acc, sep).value, Str(p)) ==
                Over(Produce(items[i..], p, sep), Lookup(acc, Str(p)))
      {
        if items[i].0 == SplitKey(Str(p), sep).head {
          ProduceAbsent(items[i + 1..], p, sep);
        }
      }
    }
  }

  /** The first item a string's head selects contributes that string's
      leaf. */
  lemma {:induction false} ProduceLeafAt(v: Val, j: nat, p: string, sep: string)
    requires |sep| > 0 && Flattenable(v, sep) && j <= |v.items|
    ensures Produce(v.items[j..], p, sep) == LeafAt(v.items[j..], Str(p), sep)
    decreases v, 0, |v.items| - j
  {
    var items := v.items;
    if j < |items| {
      var m := items[j..];
      assert m[0] == items[j] && m[1..] == items[j + 1..];
      var sp := SplitKey(Str(p), sep);
      if items[j].0 == sp.head {
        var x := items[j].1;
        if x.Node? {
          FlatLookup(x, sep);
        }
      } else {
        ProduceLeafAt(v, j + 1, p, sep);
      }
    }
  }

  /** The only error the join of a nested Route's entries raises is
      TypeError. */
  lemma {:induction false} PutJoinedFails(acc: Items, k: Key, inner: Items, sep: string)
    ensures PutJoined(acc, k, inner, sep).Err? ==> PutJoined(acc, k, inner, sep).error == TypeError
    decreases |inner|
  {
    if |inner| > 0 && k.Str? && inner[0].0.Str? {
      PutJoinedFails(Put(acc, Str(k.s + sep + inner[0].0.s), inner[0].1), k, inner[1..], sep);
    }
  }

  /** The only error `plain()` raises is TypeError. */
  lemma FlatFails(v: Val, sep: string)
    requires v.Node?
    ensures Flat(v, sep).Err? ==> Flat(v, sep).error == TypeError
    decreases v, 1
  {
    FlatFromFails(v, 0, [], sep);
  }

  lemma {:induction false} FlatFromFails(v: Val, i: nat, acc: Items, sep: string)
    requires v.Node? && i <= |v.items|
    ensures FlatFrom(v, i, acc, sep).Err? ==> FlatFrom(v, i, acc, sep).error == TypeError
    decreases v, 0, |v.items| - i
  {
    if i < |v.items| {
      var k, x := v.items[i].0, v.items[i].1;
      if x.Node? {
        FlatFails(x, sep);
        match Flat(x, sep)
        case Err(_) =>
        case Ok(inner) =>
          PutJoinedFails(acc, k, inner, sep);
          match PutJoined(acc, k, inner, sep)
          case Err(_) =>
          case Ok(acc') => FlatFromFails(v, i + 1, acc', sep);
      } else {
        FlatFromFails(v, i + 1, Put(acc, k, x), sep);
      }
    }
  }

  /** A nested Route under a key that is not a string cannot be joined:
      `plain()` raises TypeError once it meets one whose own flattening
      has an entry or raises, wherever that item sits in the level. */
  lemma FlatNonStringRaises(v: Val, j: nat, sep: string)
    requires v.Node? && j < |v.items| && !v.items[j].0.Str? && v.items[j].1.Node?
    requires Flat(v.items[j].1, sep) != Ok([])
    ensures Flat(v, sep) == Err(TypeError)
  {
    FlatFromRaises(v, 0, [], j, sep);
  }

  lemma {:induction false} FlatFromRaises(v: Val, i: nat, acc: Items, j: nat, sep: string)
    requires v.Node? && i <= j < |v.items| && !v.items[j].0.Str? && v.items[j].1.Node?
    requires Flat(v.items[j].1, sep) != Ok([])
    ensures FlatFrom(v, i, acc, sep) == Err(TypeError)
    decreases |v.items| - i
  {
    FlatFromFails(v, i, acc, sep);
    var k, x := v.items[i].0, v.items[i].1;
    if i < j {
      if x.Node? {
        match Flat(x, sep)
        case Err(_) =>
        case Ok(inner) =>
          match PutJoined(acc, k, inner, sep)
          case Err(_) =>
          case Ok(acc') => FlatFromRaises(v, i + 1, acc', j, sep);
      } else {
        FlatFromRaises(v, i + 1, Put(acc, k, x), j, sep);
      }
    }
  }

  /** The loop of `plain()` over the items of a Route, recursing into
      nested Routes. */
  method Flatten(v: Val, sep: string) returns (r: Result<Items>)
    requires v.Node?
    ensures r == Flat(v, sep)
    decreases v
  {
    var items := v.items;
    var d: Items := [];
    var i := 0;
    while i < |items|
      invariant 0 <= i <= |items|
      invariant FlatFrom(v, i, d, sep) == Flat(v, sep)
      decreases |items| - i
    {
      var k, x := items[i].0, items[i].1;
      if x.Node? {
        var sub := Flatten(x, sep);
        if sub.Err? {
          return Err(sub.error);
        }
        var joined := JoinInto(d, k, sub.value, sep);
        if joined.Err? {
          return Err(joined.error);
        }
        d := joined.value;
      } else {
        d := Put(d, k, x);
      }
      i := i + 1;
    }
    return Ok(d);
  }

  /** The inner loop of `plain()`: the flat entries of a nested Route
      written under joined keys. */
  method JoinInto(acc: Items, k: Key, inner: Items, sep: string) returns (r: Result<Items>)
    ensures r == PutJoined(acc, k, inner, sep)
  {
    var d := acc;
    var j := 0;
    while j < |inner|
      invariant 0 <= j <= |inner|
      invariant PutJoined(d, k, inner[j..], sep) == PutJoined(acc, k, inner, sep)
      decreases |inner| - j
    {
      var q, y := inner[j].0, inner[j].1;
      assert inner[j..][0] == inner[j] && inner[j..][1..] == inner[j + 1..];
      if !(k.Str? && q.Str?) {
        return Err(TypeError);
      }
      d := Put(d, Str(k.s + sep + q.s), y);
      j := j + 1;
    }
    assert inner[j..] == [];
    return Ok(d);
  }

  // ----- the Route object -----

  /** A `Route` object (route.py:1-104) with its own separator, `.` unless
      `set_sep` changed it. */
  class Route {
    var sep: string
    var entries: Items

    predicate Valid()
      reads this
    {
      |sep| > 0 && Distinct(entries)
    }

    /** `Route(it, **kwargs)` (route.py:8-13). */
    constructor(it: Option<Items>, kwargs: Items)
      ensures Valid() && sep == "."
      ensures entries == SetAllWrap(SetAllWrap([], if it.Some? then it.value else [], "."), kwargs, ".")
    {
      sep := ".";
      entries := [];
      new;
      if it.Some? {
        Update(it.value);
      }
      Update(kwargs);
    }

    /** `set_sep(sep)` (route.py:4-6, 106-107): the new separator applies to
        every later operation. */
    method SetSep(s: string)
      requires Valid() && |s| > 0
      modifies this
      ensures Valid() && sep == s && entries == old(entries)
    {
      sep := s;
    }

    /** `update(it)` (route.py:25-36): the items of a dict, or the pairs of
        any iterable, set in order, dict values as Routes. */
    method Update(it: Items)
      requires Valid()
      modifies this
      ensures Valid() && sep == old(sep)
      ensures entries == SetAllWrap(old(entries), it, sep)
    {
      var i := 0;
      while i < |it|
        invariant 0 <= i <= |it| && Valid() && sep == old(sep)
        invariant SetAllWrap(entries, it[i..], sep) == SetAllWrap(old(entries), it, sep)
        decreases |it| - i
      {
        var k, x := it[i].0, it[i].1;
        assert it[i..][0] == it[i] && it[i..][1..] == it[i + 1..];
        SetItem(k, Stored(x, sep));
        i := i + 1;
      }
      assert it[0..] == it;
    }

    /** `self[key] = item` (route.py:38-53). */
    method SetItem(key: Key, item: Val)
      requires Valid()
      modifies this
      ensures Valid() && sep == old(sep)
      ensures entries == AssignWrap(old(entries), key, item, sep)
    {
      AssignWrapDistinct(entries, key, item, sep);
      entries := AssignWrap(entries, key, item, sep);
    }

    /** `self[key]` (route.py:55-61). */
    method GetItem(key: Key) returns (r: Result<Val>)
      requires Valid()
      ensures r == Index(entries, key, sep)
      ensures Contains(entries, key, sep) ==> r.Ok?
    {
      r := Index(entries, key, sep);
      if Contains(entries, key, sep) {
        IndexOfContained(entries, key, sep);
      }
    }
  
    /** `del self[key]` (route.py:63-69): on error nothing has changed. */
    method DelItem(key: Key) returns (out: Outcome)
      requires Valid()
      modifies this
      ensures Valid() && sep == old(sep)
      ensures Delete(old(entries), key, sep).Ok? ==>
                out == Done && entries == Delete(old(entries), key, sep).value
      ensures Delete(old(entries), key, sep).Err? ==>
                out == Raised(Delete(old(entries), key, sep).error) && entries == old(entries)
      ensures Contains(old(entries), key, sep) ==> out == Done && !Contains(entries, key, sep)
    {
      var r := Delete(entries, key, sep);
      if Contains(entries, key, sep) {
        DeleteRemoves(entries, key, sep);
      }
      match r
      case Ok(e) =>
        entries := e;
        out := Done;
      case Err(err) =>
        out := Raised(err);
    }

    /** `key in self` (route.py:71-79). */
    method ContainsKey(key: Key) returns (b: bool)
      requires Valid()
      ensures b == Contains(entries, key, sep)
      ensures b ==> Index(entries, key, sep).Ok?
    {
      b := Contains(entries, key, sep);
      if b {
        IndexOfContained(entries, key, sep);
      }
    }

    /** `self.get(key, default)` (route.py:94-104). */
    method GetValue(key: Key, default: Val) returns (r: Result<Val>)
      requires Valid()
      ensures r == Get(entries, key, default, sep)
      ensures Contains(entries, key, sep) ==> r == Index(entries, key, sep)
    {
      r := Get(entries, key, default, sep);
      if Contains(entries, key, sep) {
        GetOfContained(entries, key, default, sep);
      }
    }

    /** `plain()` (route.py:81-92). */
    method PlainItems() returns (r: Result<Items>)
      requires Valid()
      ensures r == Flat(Node(entries), sep)
      ensures Flattenable(Node(entries), sep) ==>
                r.Ok? && forall p :: Lookup(r.value, Str(p)) == LeafAt(entries, Str(p), sep)
    {
      r := Flatten(Node(entries), sep);
      if Flattenable(Node(entries), sep) {
        FlatLookup(Node(entries), sep);
      }
    }
  }
}
