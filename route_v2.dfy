/**
 * The third generation, `Route` of route_v2.py.  Indexing and deletion are
 * still `Map.Index` and `Map.Delete`; what changes is a class-wide
 * auto-convert flag that makes `__setitem__` store every mapping as a
 * Route and turn a non-Route head into one (converting a mapping head
 * rather than discarding it), membership that also looks inside plain
 * dicts, a `get` and a `pop` that never raise, shallow copy, and
 * `to_base`, which turns a Route back into plain dicts.
 */
module RouteV2 {
  import opened Base
  import opened Split
  import opened Map
  import RouteV1

  // ----- __contains__ -----

  /** `__contains__` (route_v2.py:198-207): the rest of a key is looked for
      in whatever the head holds that supports `in`, so a plain dict answers
      for the whole rest, and None or a number contains nothing. */
  predicate Contains2(m: Items, key: Key, sep: string)
    requires |sep| > 0
    decreases KeyLen(key)
  {
    var p := SplitKey(key, sep);
    if p.rest.None? then Lookup(m, p.head).Some?
    else match Lookup(m, p.head)
      case Some(Node(c)) => Contains2(c, Str(p.rest.value), sep)
      case Some(Plain(d)) => Lookup(d, Str(p.rest.value)).Some?
      case _ => false
  }

  /** Membership now agrees with indexing: a key is contained exactly when
      `self[key]` returns. */
  lemma {:induction false} ContainsIffIndex(m: Items, key: Key, sep: string)
    requires |sep| > 0
    ensures Contains2(m, key, sep) <==> Index(m, key, sep).Ok?
    decreases KeyLen(key)
  {
    var p := SplitKey(key, sep);
    if p.rest.Some? && Lookup(m, p.head).Some? && Lookup(m, p.head).value.Node? {
      ContainsIffIndex(Lookup(m, p.head).value.items, Str(p.rest.value), sep);
    }
  }

  /** ... and exactly when `del self[key]` succeeds. */
  lemma {:induction false} ContainsIffDelete(m: Items, key: Key, sep: string)
    requires |sep| > 0
    ensures Contains2(m, key, sep) <==> Delete(m, key, sep).Ok?
    decreases KeyLen(key)
  {
    var p := SplitKey(key, sep);
    if p.rest.Some? && Lookup(m, p.head).Some? && Lookup(m, p.head).value.Node? {
      ContainsIffDelete(Lookup(m, p.head).value.items, Str(p.rest.value), sep);
    }
  }

  /** What a membership test of route.py would say is still said. */
  lemma {:induction false} ContainsWidens(m: Items, key: Key, sep: string)
    requires |sep| > 0 && Contains(m, key, sep)
    ensures Contains2(m, key, sep)
    decreases KeyLen(key)
  {
    var p := SplitKey(key, sep);
    if p.rest.Some? {
      ContainsWidens(Lookup(m, p.head).value.items, Str(p.rest.value), sep);
    }
  }

  // ----- __setitem__ -----

  /** The value `__setitem__` finally stores: a mapping is stored as
      `Route(item)` while auto-convert is on. */
  function Wrapped(v: Val, auto: bool, sep: string): Val
    requires |sep| > 0
  {
    if auto then Stored(v, sep) else v
  }

  /** `__setitem__` (route_v2.py:151-177).  A key with no remainder stores
      the wrapped value.  Otherwise an absent head gets a fresh Route; while
      auto-convert is on, a head that is not a Route becomes one, converted
      from it if it is a mapping and fresh if not; then the rest is set in
      what the head holds: recursively in a Route, verbatim and whole in a
      plain dict, and in None or a number it raises. */
  function Assign2(m: Items, key: Key, v: Val, auto: bool, sep: string): (r: Result<Items>)
    requires |sep| > 0
    decreases KeyLen(key)
  {
    var p := SplitKey(key, sep);
    if p.rest.None? then Ok(Put(m, p.head, Wrapped(v, auto, sep)))
    else
      var rem := Str(p.rest.value);
      match SetTarget(m, p.head, auto, sep)
      case Node(c) =>
        (match Assign2(c, rem, v, auto, sep)
         case Ok(c') => Ok(Put(m, p.head, Node(c')))
         case Err(e) => Err(e))
      case Plain(d) => Ok(Put(m, p.head, Plain(Put(d, rem, v))))
      case _ => Err(TypeError)
  }

  /** What the head holds once `__setitem__` has prepared it: a fresh
      Route for an absent head; with auto-convert on, a head that is not a
      Route becomes `Route(existing)` if it is a mapping and a fresh Route
      if not; otherwise the head as it is. */
  function SetTarget(m: Items, h: Key, auto: bool, sep: string): (t: Val)
    requires |sep| > 0
    ensures auto ==> t.Node?
  {
    match Lookup(m, h)
    case None => Node([])
    case Some(x) =>
      if auto && !x.Node? then (if IsMapping(x) then Convert(x, sep) else Node([])) else x
  }

  /** Setting `key` meets None or a number before its last segment. */
  predicate Blocked(m: Items, key: Key, sep: string)
    requires |sep| > 0
    decreases KeyLen(key)
  {
    var p := SplitKey(key, sep);
    p.rest.Some? &&
    match Lookup(m, p.head)
    case Some(Node(c)) => Blocked(c, Str(p.rest.value), sep)
    case Some(Plain(_)) => false
    case Some(_) => true
    case None => false
  }

  /** A set raises exactly when auto-convert is off and the path is
      blocked, and it then raises TypeError. */
  lemma {:induction false} Assign2Raises(m: Items, key: Key, v: Val, auto: bool, sep: string)
    requires |sep| > 0
    ensures Assign2(m, key, v, auto, sep).Err? <==> !auto && Blocked(m, key, sep)
    ensures Assign2(m, key, v, auto, sep).Err? ==> Assign2(m, key, v, auto, sep).error == TypeError
    decreases KeyLen(key)
  {
    var p := SplitKey(key, sep);
    if p.rest.Some? {
      var h := SetTarget(m, p.head, auto, sep);
      if h.Node? {
        Assign2Raises(h.items, Str(p.rest.value), v, auto, sep);
      }
    }
  }

  /** A set that does not raise leaves the key contained, holding the
      wrapped value (a plain dict on the way holds the rest of the key
      whole, unwrapped); keys stay unique, and no other entry of the level
      changes. */
  lemma {:induction false} Assign2Sets(m: Items, key: Key, v: Val, auto: bool, sep: string)
    requires |sep| > 0 && Assign2(m, key, v, auto, sep).Ok?
    ensures var r := Assign2(m, key, v, auto, sep).value;
            && Contains2(r, key, sep)
            && ((auto || Unsplit(key, sep)) ==> Index(r, key, sep) == Ok(Wrapped(v, auto, sep)))
            && (!auto ==> Index(r, key, sep) == Ok(v))
            && (forall k :: k != SplitKey(key, sep).head ==> Lookup(r, k) == Lookup(m, k))
            && (Distinct(m) ==> Distinct(r))
    decreases KeyLen(key)
  {
    var p := SplitKey(key, sep);
    if p.rest.Some? {
      var h := SetTarget(m, p.head, auto, sep);
      if h.Node? {
        Assign2Sets(h.items, Str(p.rest.value), v, auto, sep);
      }
    }
  }

  /** Setting the same key to the same value twice, when the first set
      does not raise, is setting it once. */
  lemma {:induction false} Assign2Idem(m: Items, key: Key, v: Val, auto: bool, sep: string)
    requires |sep| > 0 && Assign2(m, key, v, auto, sep).Ok?
    ensures Assign2(Assign2(m, key, v, auto, sep).value, key, v, auto, sep) == Assign2(m, key, v, auto, sep)
    decreases KeyLen(key)
  {
    var p := SplitKey(key, sep);
    var r := Assign2(m, key, v, auto, sep).value;
    if p.rest.None? {
      PutPut(m, p.head, Wrapped(v, auto, sep), Wrapped(v, auto, sep));
    } else {
      var rem := Str(p.rest.value);
      match SetTarget(m, p.head, auto, sep)
      case Node(c) =>
        var c' := Assign2(c, rem, v, auto, sep).value;
        assert r == Put(m, p.head, Node(c'));
        assert SetTarget(r, p.head, auto, sep) == Node(c');
        Assign2Idem(c, rem, v, auto, sep);
        PutPut(m, p.head, Node(c'), Node(c'));
      case Plain(d) =>
        var d' := Put(d, rem, v);
        assert r == Put(m, p.head, Plain(d'));
        assert SetTarget(r, p.head, auto, sep) == Plain(d');
        PutPut(d, rem, v, v);
        PutPut(m, p.head, Plain(d'), Plain(d'));
    }
  }

  /** With auto-convert on, after `r[k] = v` for a `v` that is not a
      mapping, `k in r` and `r.get(k) == r[k] == v`. */
  lemma AutoSetThenGet(m: Items, key: Key, v: Val, default: Val, sep: string)
    requires |sep| > 0 && !IsMapping(v)
    ensures Assign2(m, key, v, true, sep).Ok?
    ensures var r := Assign2(m, key, v, true, sep).value;
            && Contains2(r, key, sep)
            && Index(r, key, sep) == Ok(v)
            && Get2(r, key, default, sep) == v
  {
    Assign2Raises(m, key, v, true, sep);
    Assign2Sets(m, key, v, true, sep);
  }

  /** The head policy of a composite set: an absent head gets an empty
      Route; with auto-convert on a mapping head that is not a Route is
      converted and anything else that is not a Route is replaced by an
      empty one; a Route head, and with auto-convert off any head, is kept;
      the rest is then set inside it.  It follows from the definitions of
      `Assign2` and `SetTarget` by one unfolding. */
  lemma Assign2Policy(m: Items, key: Key, v: Val, auto: bool, sep: string)
    requires |sep| > 0 && !Unsplit(key, sep)
    ensures var p := SplitKey(key, sep);
            var t := SetTarget(m, p.head, auto, sep);
            && (Lookup(m, p.head).None? ==> t == Node([]))
            && (forall d :: auto && Lookup(m, p.head) == Some(Plain(d)) ==> t == Convert(Plain(d), sep))
            && (auto && Lookup(m, p.head).Some? && !IsMapping(Lookup(m, p.head).value) ==> t == Node([]))
            && (Lookup(m, p.head).Some? && (!auto || Lookup(m, p.head).value.Node?) ==> t == Lookup(m, p.head).value)
            && (t.Node? && Assign2(t.items, Str(p.rest.value), v, auto, sep).Ok? ==>
                  Assign2(m, key, v, auto, sep) ==
                  Ok(Put(m, p.head, Node(Assign2(t.items, Str(p.rest.value), v, auto, sep).value))))
  {
  }

  /** While auto-convert is on, setting into a Route that only holds
      converted values is map.py's set of the converted value (which keeps
      the Route that way, by `Map.AssignTidy`). */
  lemma {:induction false} Assign2Auto(m: Items, key: Key, v: Val, sep: string)
    requires |sep| > 0 && Tidy(Node(m), sep)
    ensures Assign2(m, key, v, true, sep) == Ok(Assign(m, key, Stored(v, sep), sep))
    decreases KeyLen(key)
  {
    var p := SplitKey(key, sep);
    if p.rest.Some? {
      var rem := Str(p.rest.value);
      var c := Child(m, p.head);
      TidyChild(m, p.head, sep);
      assert SetTarget(m, p.head, true, sep) == Node(c);
      Assign2Auto(c, rem, v, sep);
      assert Assign2(m, key, v, true, sep) == Ok(Put(m, p.head, Node(Assign(c, rem, Stored(v, sep), sep))));
    }
  }

  // ----- get and pop -----

  /** `get` (route_v2.py:209-214): the value when the key is contained, the
      default otherwise; it never raises. */
  function Get2(m: Items, key: Key, default: Val, sep: string): (r: Val)
    requires |sep| > 0
    ensures Contains2(m, key, sep) ==> Index(m, key, sep) == Ok(r)
    ensures !Contains2(m, key, sep) ==> r == default
  {
    ContainsIffIndex(m, key, sep);
    if Contains2(m, key, sep) then Index(m, key, sep).value else default
  }

  /** The corrected `get` of map.py is this one. */
  lemma Get2IsIntended(m: Items, key: Key, default: Val, sep: string)
    requires |sep| > 0
    ensures Get2(m, key, default, sep) == GetIntended(m, key, default, sep)
  {
    ContainsIffIndex(m, key, sep);
  }

  /** The `get` of map.py and route.py agrees with this one wherever it
      does not raise by calling `.get` on its default: when the key is
      contained or only its last segment is missing below nested Routes. */
  lemma GetAgreesWithGet2(m: Items, key: Key, default: Val, sep: string)
    requires |sep| > 0 && (Contains2(m, key, sep) || ParentIsMap(m, key, sep))
    ensures Get(m, key, default, sep) == Ok(Get2(m, key, default, sep))
  {
    ContainsIffIndex(m, key, sep);
    GetAgreesWhereResolved(m, key, default, sep);
    Get2IsIntended(m, key, default, sep);
  }

  /** Below nested Routes the two membership tests agree. */
  lemma {:induction false} ParentIsMapContains(m: Items, key: Key, sep: string)
    requires |sep| > 0 && ParentIsMap(m, key, sep)
    ensures Contains2(m, key, sep) <==> Contains(m, key, sep)
    decreases KeyLen(key)
  {
    var p := SplitKey(key, sep);
    if p.rest.Some? {
      ParentIsMapContains(Lookup(m, p.head).value.items, Str(p.rest.value), sep);
    }
  }

  /** `pop` (route_v2.py:216-223): the value and the entries without the
      key when it is contained, else the default and the entries as they
      were. */
  function Pop2(m: Items, key: Key, default: Val, sep: string): (r: (Val, Items))
    requires |sep| > 0
    ensures Contains2(m, key, sep) ==>
              Index(m, key, sep) == Ok(r.0) && Delete(m, key, sep) == Ok(r.1)
    ensures !Contains2(m, key, sep) ==> r == (default, m)
  {
    ContainsIffDelete(m, key, sep);
    if Contains2(m, key, sep) then (Get2(m, key, default, sep), Delete(m, key, sep).value)
    else (default, m)
  }

  /** A pop takes the key out: afterwards it is no longer contained, and
      every key independent of it is still there with its value. */
  lemma {:induction false} PopRemoves(m: Items, key: Key, k2: Key, default: Val, sep: string)
    requires |sep| > 0 && Contains2(m, key, sep)
    ensures !Contains2(Pop2(m, key, default, sep).1, key, sep)
    ensures Independent(key, k2, sep) && Contains2(m, k2, sep) ==>
              Contains2(Pop2(m, key, default, sep).1, k2, sep) &&
              Index(Pop2(m, key, default, sep).1, k2, sep) == Index(m, k2, sep)
    decreases KeyLen(key)
  {
    DeleteRemoves2(m, key, sep);
    assert Pop2(m, key, default, sep).1 == Delete(m, key, sep).value;
    if Independent(key, k2, sep) && Contains2(m, k2, sep) {
      DeleteKeeps2(m, key, k2, sep);
    }
  }

  /** Deleting a key that `__contains__` reports removes it. */
  lemma {:induction false} DeleteRemoves2(m: Items, key: Key, sep: string)
    requires |sep| > 0 && Contains2(m, key, sep)
    ensures Delete(m, key, sep).Ok?
    ensures !Contains2(Delete(m, key, sep).value, key, sep)
    decreases KeyLen(key)
  {
    var p := SplitKey(key, sep);
    ContainsIffDelete(m, key, sep);
    if p.rest.Some? {
      var h := Lookup(m, p.head).value;
      if h.Node? {
        DeleteRemoves2(h.items, Str(p.rest.value), sep);
        assert Lookup(Delete(m, key, sep).value, p.head) ==
               Some(Node(Delete(h.items, Str(p.rest.value), sep).value));
      } else {
        assert Lookup(Delete(m, key, sep).value, p.head) ==
               Some(Plain(Remove(h.items, Str(p.rest.value))));
      }
    }
  }

  /** Deleting a key leaves every independent contained key alone. */
  lemma {:induction false} DeleteKeeps2(m: Items, key: Key, k2: Key, sep: string)
    requires |sep| > 0 && Delete(m, key, sep).Ok? && Independent(key, k2, sep) && Contains2(m, k2, sep)
    ensures Contains2(Delete(m, key, sep).value, k2, sep)
    ensures Index(Delete(m, key, sep).value, k2, sep) == Index(m, k2, sep)
    decreases KeyLen(key)
  {
    var p := SplitKey(key, sep);
    var q := SplitKey(k2, sep);
    var r := Delete(m, key, sep).value;
    if p.head != q.head {
      assert Lookup(r, q.head) == Lookup(m, q.head);
    } else {
      var h := Lookup(m, q.head).value;
      var rp, rq := Str(p.rest.value), Str(q.rest.value);
      if h.Node? {
        DeleteKeeps2(h.items, rp, rq, sep);
        assert Lookup(r, q.head) == Some(Node(Delete(h.items, rp, sep).value));
      } else {
        IndependentDiffers(rp, rq, sep);
        assert Lookup(r, q.head) == Some(Plain(Remove(h.items, rp)));
      }
    }
  }

  /** Independent keys are different keys. */
  lemma {:induction false} IndependentDiffers(k1: Key, k2: Key, sep: string)
    requires |sep| > 0 && Independent(k1, k2, sep)
    ensures k1 != k2
    decreases KeyLen(k1)
  {
    var p1 := SplitKey(k1, sep);
    var p2 := SplitKey(k2, sep);
    if p1.head == p2.head {
      IndependentDiffers(Str(p1.rest.value), Str(p2.rest.value), sep);
    }
  }

  // ----- update -----

  /** The loop of `update` (route_v2.py:129-149) over a mapping's items or
      an iterable's pairs: `__setitem__` of each, a mapping value first
      wrapped as `Route(v)` while auto-convert is on.  It stops at the first
      set that raises, keeping the entries set before it. */
  function Fold2(acc: Items, pairs: Items, auto: bool, sep: string): (r: (Items, Outcome))
    requires |sep| > 0
    decreases |pairs|
  {
    if |pairs| == 0 then (acc, Done)
    else
      match Assign2(acc, pairs[0].0, Wrapped(pairs[0].1, auto, sep), auto, sep)
      case Err(e) => (acc, Raised(e))
      case Ok(acc') => Fold2(acc', pairs[1..], auto, sep)
  }

  lemma Fold2Step(acc: Items, pairs: Items, auto: bool, sep: string)
    requires |sep| > 0 && |pairs| > 0
    ensures var r := Assign2(acc, pairs[0].0, Wrapped(pairs[0].1, auto, sep), auto, sep);
            Fold2(acc, pairs, auto, sep) == if r.Err? then (acc, Raised(r.error)) else Fold2(r.value, pairs[1..], auto, sep)
  {
  }

  /** With auto-convert on nothing raises, and a Route holding only
      converted values is updated exactly as map.py updates a Map, and stays
      that way. */
  lemma {:induction false} Fold2Auto(acc: Items, pairs: Items, sep: string)
    requires |sep| > 0 && Tidy(Node(acc), sep)
    ensures Fold2(acc, pairs, true, sep) == (SetAll(acc, Prepared(Plain(pairs), 0, sep), sep), Done)
    ensures Tidy(Node(Fold2(acc, pairs, true, sep).0), sep)
    decreases |pairs|
  {
    if |pairs| > 0 {
      var k, x := pairs[0].0, pairs[0].1;
      Assign2Auto(acc, k, Stored(x, sep), sep);
      StoredTwice(x, sep);
      StoredTidy(x, sep);
      AssignTidy(acc, k, Stored(x, sep), sep);
      var acc' := Assign(acc, k, Stored(x, sep), sep);
      SetAllPrepared(acc, Plain(pairs), 0, sep);
      PreparedShift(pairs, 1, sep);
      Fold2Auto(acc', pairs[1..], sep);
    }
  }

  /** `Route(v)` of route_v2.py, auto-convert on, is again `Map(v)`: the
      conversion satisfies the equation v2's own `update` sets up. */
  lemma RouteV2ConvertIsMap(v: Val, sep: string)
    requires |sep| > 0 && IsMapping(v)
    ensures Fold2([], v.items, true, sep).1 == Done
    ensures Convert(v, sep) == Node(Fold2([], v.items, true, sep).0)
  {
    Fold2Auto([], v.items, sep);
    PreparedOfItems(v, 0, sep);
  }

  /** The update loop raises only TypeError, and only with auto-convert
      off; whether or not it raises, it keeps the keys unique. */
  lemma {:induction false} Fold2Raises(acc: Items, pairs: Items, auto: bool, sep: string)
    requires |sep| > 0
    ensures Fold2(acc, pairs, auto, sep).1.Raised? ==>
              !auto && Fold2(acc, pairs, auto, sep).1.error == TypeError
    ensures Distinct(acc) ==> Distinct(Fold2(acc, pairs, auto, sep).0)
    decreases |pairs|
  {
    if |pairs| > 0 {
      var k, x := pairs[0].0, pairs[0].1;
      Assign2Raises(acc, k, Wrapped(x, auto, sep), auto, sep);
      var r := Assign2(acc, k, Wrapped(x, auto, sep), auto, sep);
      if r.Ok? {
        Assign2Sets(acc, k, Wrapped(x, auto, sep), auto, sep);
        Fold2Raises(r.value, pairs[1..], auto, sep);
      }
    }
  }

  /** `update(*args, **kwargs)`: more than one positional argument raises
      TypeError before anything is set; otherwise the argument's pairs, then
      the keyword pairs, stopping at the first raise. */
  function Update2(m: Items, args: seq<Items>, kwargs: Items, auto: bool, sep: string): (r: (Items, Outcome))
    requires |sep| > 0
    ensures |args| > 1 ==> r == (m, Raised(TypeError))
    ensures |args| == 0 ==> r == Fold2(m, kwargs, auto, sep)
  {
    if |args| > 1 then (m, Raised(TypeError))
    else
      var first := if |args| == 1 then Fold2(m, args[0], auto, sep) else (m, Done);
      if first.1.Raised? || |kwargs| == 0 then first
      else Fold2(first.0, kwargs, auto, sep)
  }

  // ----- to_base -----

  /** `to_base` (route_v2.py:263-265): every nested Route, all the way
      down, turned back into a plain dict. */
  function ToBase(c: Items): Items {
    DictOf([], BaseFrom(Node(c), 0))
  }

  /** The value `to_base` keeps for `x`. */
  function BaseVal(x: Val): Val
    decreases x, 1
  {
    if x.Node? then Plain(DictOf([], BaseFrom(x, 0))) else x
  }

  /** The pairs `to_base` passes to the dict constructor, from item `i` on. */
  function BaseFrom(v: Val, i: nat): Items
    requires v.Node? && i <= |v.items|
    decreases v, 0, |v.items| - i
  {
    if i == |v.items| then [] else [(v.items[i].0, BaseVal(v.items[i].1))] + BaseFrom(v, i + 1)
  }

  lemma {:induction false} BaseFromAt(v: Val, i: nat, a: nat)
    requires v.Node? && i <= |v.items|
    ensures |BaseFrom(v, i)| == |v.items| - i
    ensures i + a < |v.items| ==> BaseFrom(v, i)[a] == (v.items[i + a].0, BaseVal(v.items[i + a].1))
    decreases |v.items| - i
  {
    if i < |v.items| {
      BaseFromAt(v, i + 1, if a > 0 then a - 1 else 0);
    }
  }

  /** `to_base` keeps the keys, in order, and keeps them unique. */
  lemma BaseFromKeys(v: Val)
    requires v.Node? && Distinct(v.items)
    ensures SameKeys(BaseFrom(v, 0), v.items)
    ensures DictOf([], BaseFrom(v, 0)) == BaseFrom(v, 0)
  {
    var b := BaseFrom(v, 0);
    BaseFromAt(v, 0, 0);
    forall a | 0 <= a < |b|
      ensures b[a].0 == v.items[a].0
    {
      BaseFromAt(v, 0, a);
    }
    SameKeysDistinct(v.items, b);
    DictOfDistinct([], b);
    assert [] + b == b;
  }

  /** A plain dict of plain dicts as `to_base` returns it and
      `Route(d)` accepts it: unique keys without the separator, no Route
      inside, every nested dict of the same kind. */
  predicate BaseDict(v: Val, sep: string)
    decreases v
  {
    v.Plain? && Distinct(v.items) &&
    forall i :: 0 <= i < |v.items| ==>
      && Unsplit(v.items[i].0, sep) && !v.items[i].1.Node?
      && (v.items[i].1.Plain? ==> BaseDict(v.items[i].1, sep))
  }

  /** Converting a tidy Route back to dicts and then to a Route again gives
      the same Route: `Route(r.to_base()) == r`. */
  lemma {:induction false} BaseThenConvert(v: Val, sep: string)
    requires |sep| > 0 && v.Node? && Tidy(v, sep)
    ensures BaseVal(v).Plain? && Convert(BaseVal(v), sep) == v
    decreases v, 1
  {
    BaseFromKeys(v);
    var b := BaseFrom(v, 0);
    BaseFromAt(v, 0, 0);
    PreparedOfBase(v, 0, sep);
    assert v.items[0..] == v.items;
    assert [] + v.items == v.items;
    SetAllAppends([], v.items, sep);
  }

  lemma {:induction false} PreparedOfBase(v: Val, i: nat, sep: string)
    requires |sep| > 0 && v.Node? && Tidy(v, sep) && i <= |v.items|
    requires |BaseFrom(v, 0)| == |v.items|
    ensures Prepared(Plain(BaseFrom(v, 0)), i, sep) == v.items[i..]
    decreases v, 0, |v.items| - i
  {
    if i < |v.items| {
      BaseFromAt(v, 0, i);
      var x := v.items[i].1;
      assert !x.Plain? && Tidy(x, sep);
      if x.Node? {
        BaseThenConvert(x, sep);
      }
      PreparedOfBase(v, i + 1, sep);
      assert v.items[i..] == [v.items[i]] + v.items[i + 1..];
    }
  }

  /** Converting a dict of dicts to a Route and back gives the dict back:
      `Route(d).to_base() == d`. */
  lemma {:induction false} ConvertThenBase(d: Val, sep: string)
    requires |sep| > 0 && BaseDict(d, sep)
    ensures BaseVal(Convert(d, sep)) == d
    decreases d, 1
  {
    var pairs := Prepared(d, 0, sep);
    PreparedLength(d, 0, sep);
    forall a | 0 <= a < |pairs|
      ensures pairs[a].0 == d.items[a].0
    {
      PreparedAt(d, 0, a, sep);
    }
    SameKeysDistinct(d.items, pairs);
    assert [] + pairs == pairs;
    SetAllAppends([], pairs, sep);
    var c := Node(pairs);
    BaseFromKeys(c);
    BaseOfConvert(d, pairs, 0, sep);
    assert d.items[0..] == d.items;
  }

  lemma {:induction false} BaseOfConvert(d: Val, pairs: Items, i: nat, sep: string)
    requires |sep| > 0 && BaseDict(d, sep) && pairs == Prepared(d, 0, sep) && i <= |d.items|
    requires |pairs| == |d.items|
    ensures BaseFrom(Node(pairs), i) == d.items[i..]
    decreases d, 0, |d.items| - i
  {
    if i < |d.items| {
      PreparedAt(d, 0, i, sep);
      var x := d.items[i].1;
      if x.Plain? {
        ConvertThenBase(x, sep);
      }
      BaseOfConvert(d, pairs, i + 1, sep);
      assert d.items[i..] == [d.items[i]] + d.items[i + 1..];
    }
  }

  // ----- the Route object -----

  /** A `Route` object of route_v2.py: its entries, and the separator and
      auto-convert flag its class holds. */
  class Route {
    var sep: string
    var autoCvt: bool
    var entries: Items

    predicate Valid()
      reads this
    {
      |sep| > 0 && Distinct(entries)
    }

    /** `Route()`: empty, with the class defaults `.` and auto-convert on
        (route_v2.py:94-95). */
    constructor()
      ensures Valid() && sep == "." && autoCvt && entries == []
    {
      sep := ".";
      autoCvt := true;
      entries := [];
    }

    /** `Route(*args, **kwargs)` (route_v2.py:125-127): a new Route filled
        by `update`; when that raises, no object results. */
    static method Make(args: seq<Items>, kwargs: Items) returns (r: Result<Route>)
      ensures var u := Update2([], args, kwargs, true, ".");
              && (r.Ok? <==> u.1 == Done)
              && (r.Err? ==> Raised(r.error) == u.1)
              && (r.Ok? ==> fresh(r.value) && r.value.Valid() && r.value.entries == u.0)
    {
      var c := new Route();
      var out := c.Update(args, kwargs);
      if out.Raised? {
        return Err(out.error);
      }
      return Ok(c);
    }

    /** `set_sep(sep)` (route_v2.py:100-101): an empty separator keeps the
        old one, so the separator is never empty. */
    method SetSep(s: string)
      requires Valid()
      modifies this
      ensures Valid() && sep == (if |s| > 0 then s else old(sep))
      ensures entries == old(entries) && autoCvt == old(autoCvt)
    {
      if |s| > 0 {
        sep := s;
      }
    }

    /** `enable_auto_convert()` (route_v2.py:103-105). */
    method EnableAutoConvert()
      requires Valid()
      modifies this
      ensures Valid() && autoCvt && sep == old(sep) && entries == old(entries)
    {
      autoCvt := true;
    }

    /** `disable_auto_convert()` (route_v2.py:107-109). */
    method DisableAutoConvert()
      requires Valid()
      modifies this
      ensures Valid() && !autoCvt && sep == old(sep) && entries == old(entries)
    {
      autoCvt := false;
    }

    /** `update(*args, **kwargs)` (route_v2.py:129-149). */
    method Update(args: seq<Items>, kwargs: Items) returns (out: Outcome)
      requires Valid()
      modifies this
      ensures Valid() && sep == old(sep) && autoCvt == old(autoCvt)
      ensures (entries, out) == Update2(old(entries), args, kwargs, autoCvt, sep)
    {
      if |args| > 1 {
        return Raised(TypeError);
      }
      out := Done;
      if |args| == 1 {
        out := UpdatePairs(args[0]);
        if out.Raised? {
          return;
        }
      }
      if |kwargs| > 0 {
        out := UpdatePairs(kwargs);
      }
    }

    /** The loop of `update` over one mapping or iterable. */
    method UpdatePairs(it: Items) returns (out: Outcome)
      requires Valid()
      modifies this
      ensures Valid() && sep == old(sep) && autoCvt == old(autoCvt)
      ensures (entries, out) == Fold2(old(entries), it, autoCvt, sep)
    {
      var i := 0;
      while i < |it|
        invariant 0 <= i <= |it| && Valid() && sep == old(sep) && autoCvt == old(autoCvt)
        invariant Fold2(entries, it[i..], autoCvt, sep) == Fold2(old(entries), it, autoCvt, sep)
        decreases |it| - i
      {
        var k, x := it[i].0, it[i].1;
        assert it[i..][0] == it[i] && it[i..][1..] == it[i + 1..];
        ghost var before := entries;
        Fold2Step(before, it[i..], autoCvt, sep);
        ghost var r := Assign2(before, k, Wrapped(x, autoCvt, sep), autoCvt, sep);
        out := SetItem(k, Wrapped(x, autoCvt, sep));
        if out.Raised? {
          assert Fold2(old(entries), it, autoCvt, sep) == (before, Raised(r.error));
          return;
        }
        assert Fold2(old(entries), it, autoCvt, sep) == Fold2(entries, it[i + 1..], autoCvt, sep);
        i := i + 1;
      }
      assert it[i..] == [];
      return Done;
    }

    /** `self[key] = item` (route_v2.py:151-177): on a raise nothing has
        changed. */
    method SetItem(key: Key, item: Val) returns (out: Outcome)
      requires Valid()
      modifies this
      ensures Valid() && sep == old(sep) && autoCvt == old(autoCvt)
      ensures var r := Assign2(old(entries), key, item, autoCvt, sep);
              && (r.Ok? ==> out == Done && entries == r.value)
              && (r.Err? ==> out == Raised(r.error) && entries == old(entries))
    {
      if Assign2(entries, key, item, autoCvt, sep).Ok? {
        Assign2Sets(entries, key, item, autoCvt, sep);
      }
      match Assign2(entries, key, item, autoCvt, sep)
      case Ok(e) =>
        entries := e;
        out := Done;
      case Err(err) =>
        out := Raised(err);
    }

    /** `self[key]` (route_v2.py:179-186): it returns exactly for the keys
        `in` reports. */
    method GetItem(key: Key) returns (r: Result<Val>)
      requires Valid()
      ensures r == Index(entries, key, sep)
      ensures r.Ok? <==> Contains2(entries, key, sep)
    {
      r := Index(entries, key, sep);
      ContainsIffIndex(entries, key, sep);
    }

    /** `del self[key]` (route_v2.py:188-195): it succeeds exactly for the
        keys `in` reports, and on error nothing has changed. */
    method DelItem(key: Key) returns (out: Outcome)
      requires Valid()
      modifies this
      ensures Valid() && sep == old(sep) && autoCvt == old(autoCvt)
      ensures Delete(old(entries), key, sep).Ok? ==>
                out == Done && entries == Delete(old(entries), key, sep).value
      ensures Delete(old(entries), key, sep).Err? ==>
                out == Raised(Delete(old(entries), key, sep).error) && entries == old(entries)
      ensures out == Done <==> Contains2(old(entries), key, sep)
      ensures out == Done ==> !Contains2(entries, key, sep)
    {
      ContainsIffDelete(entries, key, sep);
      if Contains2(entries, key, sep) {
        DeleteRemoves2(entries, key, sep);
      }
      match Delete(entries, key, sep)
      case Ok(e) =>
        entries := e;
        out := Done;
      case Err(err) =>
        out := Raised(err);
    }

    /** `key in self` (route_v2.py:198-207). */
    method ContainsKey(key: Key) returns (b: bool)
      requires Valid()
      ensures b == Contains2(entries, key, sep)
    {
      b := Contains2(entries, key, sep);
    }

    /** `self.get(key, default)` (route_v2.py:209-214). */
    method GetValue(key: Key, default: Val) returns (r: Val)
      requires Valid()
      ensures r == Get2(entries, key, default, sep)
    {
      r := Get2(entries, key, default, sep);
    }

    /** `self.pop(key, default)` (route_v2.py:216-223). */
    method Pop(key: Key, default: Val) returns (r: Val)
      requires Valid()
      modifies this
      ensures Valid() && sep == old(sep) && autoCvt == old(autoCvt)
      ensures (r, entries) == Pop2(old(entries), key, default, sep)
    {
      if Contains2(entries, key, sep) {
        r := GetValue(key, default);
        ContainsIffDelete(entries, key, sep);
        entries := Delete(entries, key, sep).value;
      } else {
        r := default;
      }
    }

    /** `copy.copy(self)` (route_v2.py:225-232): a new Route given every
        item of this one in order; the values themselves are shared. */
    method Copy() returns (c: Route)
      requires Valid()
      ensures fresh(c) && c.Valid()
      ensures c.entries == entries && c.sep == sep && c.autoCvt == autoCvt
    {
      c := new Route();
      c.sep, c.autoCvt := sep, autoCvt;
      var i := 0;
      while i < |entries|
        invariant 0 <= i <= |entries|
        invariant fresh(c) && c.entries == entries[..i] && c.sep == sep && c.autoCvt == autoCvt
        decreases |entries| - i
      {
        var k, x := entries[i].0, entries[i].1;
        DistinctAt(entries, i);
        PutAppends(c.entries, k, x);
        c.entries := Put(c.entries, k, x);
        assert entries[..i + 1] == entries[..i] + [entries[i]];
        i := i + 1;
      }
      assert entries[..i] == entries;
    }

    /** `plain(sep)` (route_v2.py:246-261): flattened with the given
        separator, or the Route's own when none is given. */
    method PlainDict(s: string) returns (r: Result<Items>)
      requires Valid()
      ensures r == RouteV1.Flat(Node(entries), if |s| > 0 then s else sep)
      ensures RouteV1.Flattenable(Node(entries), if |s| > 0 then s else sep) ==>
                r.Ok? && forall p :: Lookup(r.value, Str(p)) == RouteV1.LeafAt(entries, Str(p), if |s| > 0 then s else sep)
    {
      var use := if |s| > 0 then s else sep;
      r := RouteV1.Flatten(Node(entries), use);
      if RouteV1.Flattenable(Node(entries), use) {
        RouteV1.FlatLookup(Node(entries), use);
      }
    }

    /** `to_base()` (route_v2.py:263-265): converting the result back with
        auto-convert gives this Route again when it holds only converted
        values. */
    method ToBaseDict() returns (r: Items)
      requires Valid()
      ensures r == ToBase(entries)
      ensures Tidy(Node(entries), sep) ==> Convert(Plain(r), sep) == Node(entries)
    {
      r := ToBase(entries);
      if Tidy(Node(entries), sep) {
        BaseThenConvert(Node(entries), sep);
      }
    }
  }
}
