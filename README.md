# Route: a path-addressable nested dictionary, in Dafny

Route is a Python `dict` subclass whose string keys are paths. A key such
as `'settings.cpu.number'` is cut at the first separator into a head
(`'settings'`) and a rest (`'cpu.number'`). Setting, reading, deleting and
membership then recurse into the child path map stored under the head. The
repository shows three generations of the same container:

- `map.py`, class `Map`: the oldest. Its separator is always `'.'`.
- `route.py`, class `Route`: a dict set through a composite key is wrapped
  into a Route, `update` also takes a list of pairs, and `plain()`
  flattens the tree into one entry per leaf.
- `route_v2.py`, class `Route`: the current version. It adds a guard that
  keeps the old separator when `set_sep` is given an empty one, an
  auto-convert switch, a membership test that reads through plain dicts,
  a `get` that never raises (the `get` of map.py and route.py already
  reads through plain dicts, but can raise), `pop`, `__copy__`,
  `plain(sep)` and `to_base()`.

The Dafny project has one module per concern:

- `Base` (`base.dfy`) holds the values and the few operations of Python's
  own dict that the classes call through `super()`.
  - A dict is the list of its items in insertion order, because each path
    map rebuilds nested dicts by iterating them. `Put` overwrites in place
    and appends a new key. `Remove` drops a key. `DictOf` is `dict(pairs)`.
  - A value is `Null` (None), `Leaf` (an opaque scalar), `Plain` (a mapping
    that is not a path map) or `Node` (a nested path map).
  - A key is a string (`Str`) or any other hashable value (`Other`).
- `Split` (`split.dfy`) is `splitkey`, which is the same in all three
  generations: `key.split(sep, 1)` on a string, and no split for any
  other key.
- `Map` (`map.dfy`) is map.py. Indexing, deletion, membership and `get`
  are the same code in route.py, and indexing and deletion are also the
  same in route_v2.py. So `Map.Index` and `Map.Delete` serve all three
  generations, and `Map.Contains` and `Map.Get` serve map.py and route.py.
  route_v2.py's membership test and `get` are `RouteV2.Contains2` and
  `RouteV2.Get2`. `Map.Convert` is the constructor applied to a
  mapping (`Map(v)`), which converts every nested mapping.
- `RouteV1` (`route.dfy`) is route.py, named so that its module and its
  class do not share a name.
- `RouteV2` (`route_v2.dfy`) is route_v2.py.

The pure operations are functions over item lists with their properties as
lemmas. The objects are Dafny classes whose `entries` field stands for the
dict's own items. Each state-changing method states its new state through
the function that specifies it. The `update`, `plain` and `__copy__` loops
become `while` loops with invariants.

A nested child is a value. Python updates a child in place through
`super().__getitem__(key).__setitem__(rem, item)`; the model stores the
updated child back under its key.

`Route(item)`, which route.py and route_v2.py call inside their own
`__setitem__` and `update`, is modelled by the shared conversion
`Map.Convert`. Two lemmas prove this is exact:

- `RouteV1.RouteConvertIsMap` shows that `Convert` is what route.py's own
  `update` loop builds from a fresh Route.
- `RouteV2.RouteV2ConvertIsMap` shows the same for route_v2.py's loop with
  auto-convert on.

Python's `None`-sensitive defaults are parameters. The separator and the
auto-convert switch, which Python keeps on the class, are fields of each
object here.

Facts about the source that the model keeps as they are:

- map.py:75-79 and route.py:100-104 call `.get` on the caller's default
  when the head of a composite key is absent (see Findings).
  route_v2.py:209-214 returns the default instead.
- route_v2.py:205-207 accepts any head that has `__contains__`, so a head
  holding a plain dict answers by looking up the whole rest
  (`RouteV2.Contains2`). map.py:65-67 and route.py:77-79 need a nested
  path map there.
- With auto-convert off, route_v2.py:177 sets the rest in whatever the head
  holds. A plain dict head receives the whole rest as one key. Only None or
  a number raises, and the model names that error TypeError
  (`RouteV2.Assign2Raises`).
- `__getitem__` and `__delitem__` of map.py (lines 49 and 57) and route.py
  (lines 61 and 69) call `.__getitem__(rem)` and `.__delitem__(rem)` on the
  head's value. On None or a number that raises AttributeError, which the
  model names TypeError. route_v2.py:186 and 195 index with `[rem]`, which
  raises TypeError on None or a number.

## Model

| member | source | states |
|---|---|---|
| Split.SplitKey | route_v2.py:112-121 | a non-string key, or a string without the separator, comes back whole with no rest; otherwise the head is a separator-free segment and head + sep + rest is the key, with the rest shorter than the key |
| Split.SplitJoin | map.py:12-20 | splitting sep.join([h, rest]) for a segment h (`Split.Segment`) gives h and rest back: the inverse of joining |
| Split.CharFreeSegment | route.py:15-23 | with a one-character separator, any string free of that character is a segment that is never cut |
| Map.Index | map.py:43-49 | definition of indexing; its properties are stated by IndexOfContained, MissingSegmentRaises and RouteV2.ContainsIffIndex |
| Map.Contains | map.py:59-67 | definition of membership; its properties are stated by IndexOfContained, DeleteRemoves, GetOfContained and RouteV2.ParentIsMapContains |
| Map.Get | map.py:69-79 | definition of the as-written get; its properties are stated by GetOfContained, GetOfIndexed, GetMissingLast, GetAbsentHead and GetAgreesWhereResolved |
| Map.Convert | map.py:22-27 | definition of Map(v); its properties are stated by ConvertTidy, ConvertFixesTidy, ConvertIndex and StoredTwice |
| Map.Assign | map.py:29-41 | after the set the key is contained and indexes to the value; every other top-level key keeps its value; unique keys stay unique |
| Map.AssignPolicy | map.py:29-41 | a key with no rest overwrites the head unconditionally; a composite key replaces an absent or non-Map head by a fresh Map holding only the rest; a Map head gets the rest set inside it |
| Map.AssignIdem | map.py:29-41 | setting the same key to the same value twice leaves the state of setting it once |
| Map.AssignFresh | map.py:32-33 | a new unsplit key is appended after the existing items |
| Map.AssignFreshNested | map.py:35-41 | a composite key with a new head appends one fresh Map under the head, holding the rest set in an empty Map |
| Map.AssignKeepsIndependent | map.py:29-41 | a set leaves every contained key whose path is not a prefix of the set key's, or the reverse, contained and unchanged |
| Map.AssignTidy | map.py:29-41 | setting a converted value in a level with only unsplit keys and no plain dicts keeps the level in that form |
| Map.Delete | map.py:51-57 | a successful deletion leaves every other top-level key unchanged and keeps keys unique |
| Map.Stored | map.py:22-27 | the value update stores is never a plain dict, and a non-mapping is stored as it is |
| Map.SetAll | map.py:22-27 | the update loop keeps keys unique |
| Map.SetAllIndex | map.py:22-27 | after the update loop, a pair that no later pair overlaps is contained and indexes to its value |
| Map.SetAllKeeps | map.py:22-27 | the update loop leaves a contained key that no pair overlaps contained and unchanged |
| Map.SetAllAppends | map.py:22-27 | update with unique unsplit keys, none of them already present, appends the pairs in order |
| Map.ConvertTidy | map.py:5-10 | Map(v) is a level with unique unsplit keys and no plain dict anywhere below it |
| Map.ConvertFixesTidy | map.py:5-10 | Map(v) of a Map already in that form is a copy with the same content |
| Map.StoredTwice | map.py:22-27 | converting a converted value again changes nothing, so Map(Map(v)) equals Map(v) |
| Map.ConvertIndex | map.py:22-27 | when no two item keys of a mapping overlap, building from it makes every item reachable under its key, dotted or not, with its value converted: dotted keys create nesting |
| Map.IndexOfContained | map.py:43-67 | indexing never raises on a key that is contained |
| Map.MissingSegmentRaises | map.py:43-57 | when some segment of a key's path is missing under existing parent Maps, both indexing and deletion raise KeyError |
| Map.DeleteRemoves | map.py:51-67 | deleting a contained key succeeds and afterwards the key is not contained |
| Map.DeleteKeepsIndependent | map.py:51-57 | a deletion leaves every contained key whose path does not overlap the deleted key contained and unchanged: siblings survive |
| Map.DeleteKeepsAncestors | map.py:51-57 | a deletion never prunes: every contained ancestor of the deleted key is still contained, and a nested Map there is still a Map, possibly empty |
| Map.GetOfContained | map.py:69-79 | get of a contained key is what indexing returns |
| Map.GetMissingLast | map.py:69-79 | get of a key whose final segment is missing under existing parent Maps returns the caller's default |
| Map.GetAbsentHead | map.py:69-79 | get of a composite key with an absent head returns None for a None default, and raises TypeError for a number default |
| Map.GetIntended | map.py:69-79 | route_v2.py's get applied to a Map: the indexed value wherever indexing succeeds, a plain dict head included, else the default, never an error |
| Map.GetOfIndexed | map.py:69-79 | wherever indexing succeeds, get returns what indexing returns, a value read through a plain dict included |
| Map.GetAgreesWhereResolved | map.py:69-79 | wherever indexing succeeds, or every parent exists as a Map, the as-written get equals the intended one |
| Map.Map.constructor | map.py:5-10 | a new Map is empty with separator '.', then filled by update from the mapping and from the keyword arguments |
| Map.Map.Update | map.py:22-27 | the entries become the update loop applied to the old entries, with every mapping value converted first |
| Map.Map.SetItem | map.py:29-41 | the entries become the set of the value at the key in the old entries |
| Map.Map.GetItem | map.py:43-49 | returns the indexed value or its error, and never raises on a contained key |
| Map.Map.DelItem | map.py:51-57 | on success the entries become the deletion; on error nothing changes and the error is raised; a contained key is gone afterwards |
| Map.Map.ContainsKey | map.py:59-67 | answers whether every segment but the last names a nested Map and the last is present |
| Map.Map.GetValue | map.py:69-79 | returns the as-written get, which is the indexed value on a contained key |
| RouteV1.AssignWrap | route.py:38-53 | definition of route.py's set; its properties are stated by AssignWrapAsMap, SetThenGet, AssignWrapIdem and AssignWrapDistinct |
| RouteV1.SetAllWrap | route.py:25-36 | definition of route.py's update loop; its properties are stated by RouteBuildsMap and RouteConvertIsMap |
| RouteV1.AssignWrapAsMap | route.py:38-53 | route.py's set is map.py's set of the value itself under an unsplit key and of Route(value) under a composite key |
| RouteV1.SetThenGet | route.py:38-61 | after a set the key is contained; under an unsplit key a dict is read back verbatim, under a composite key as its conversion; other top-level keys are untouched |
| RouteV1.RouteBuildsMap | route.py:25-36 | route.py's update loop builds exactly what map.py's update builds from the same pairs |
| RouteV1.RouteConvertIsMap | route.py:8-36 | Route(v) built by route.py's own constructor is the shared conversion of v |
| RouteV1.AssignWrapIdem | route.py:38-53 | setting the same key to the same value twice leaves the state of setting it once |
| RouteV1.AssignWrapDistinct | route.py:38-53 | set keeps keys unique |
| RouteV1.Flat | route.py:81-92 | definition of plain(); its properties are stated by FlatLookup, FlatLeavesOnly, FlatFails and FlatNonStringRaises |
| RouteV1.FlatFrom | route.py:83-90 | definition of the loop of plain() from one item on; its properties are stated by FlatFromLookup, FlatFromFails and FlatFromRaises |
| RouteV1.PutJoined | route.py:86-87 | definition of the join of a nested Route's entries; its properties are stated by PutJoinedLookup and PutJoinedFails |
| RouteV1.LeafAtNotNode | route.py:85-90 | what plain() keeps for a path is never a nested Route |
| RouteV1.LeafAtIndex | route.py:81-92 | a path names a leaf exactly when it is contained and indexes to a value that is not a nested Route |
| RouteV1.FlatLeavesOnly | route.py:81-92 | when every key, all the way down, is one of the unique string keys that are segments (`Split.Segment`; for a one-character separator this is the same as containing no separator, by `Split.CharFreeSegment`), plain() succeeds and every entry has a string key and a value that is not a Route |
| RouteV1.FlatLookup | route.py:81-92 | when every key, all the way down, is one of the unique string keys that are segments (`Split.Segment`; for a one-character separator this is the same as containing no separator, by `Split.CharFreeSegment`), plain() has unique keys and maps exactly the joined path of each leaf to that leaf: one entry per leaf, none for empty Routes |
| RouteV1.FlatNonStringRaises | route.py:86-87 | a non-string key anywhere in a level, over a nested Route whose own plain() has an entry or raises, makes plain() raise TypeError |
| RouteV1.FlatFails | route.py:81-92 | the only error plain() raises is TypeError |
| RouteV1.PutJoinedFails | route.py:86-87 | the only error the join raises is TypeError |
| RouteV1.Flatten | route.py:81-92 | the loop of plain() computes the flattened items, or the TypeError of the join |
| RouteV1.JoinInto | route.py:86-87 | the inner loop puts every flattened child entry under its joined key, or raises TypeError for a non-string key |
| RouteV1.Route.constructor | route.py:8-13 | a new Route is empty with separator '.', then filled by update from the pairs and from the keyword arguments |
| RouteV1.Route.SetSep | route.py:4-6 | the separator becomes the given one and the entries are untouched |
| RouteV1.Route.Update | route.py:25-36 | the entries become route.py's update loop applied to the old entries |
| RouteV1.Route.SetItem | route.py:38-53 | the entries become route.py's set of the value at the key |
| RouteV1.Route.GetItem | route.py:55-61 | returns the indexed value or its error, and never raises on a contained key |
| RouteV1.Route.DelItem | route.py:63-69 | on success the entries become the deletion; on error nothing changes and the error is raised; a contained key is gone afterwards |
| RouteV1.Route.ContainsKey | route.py:71-79 | answers membership through nested Routes, and a contained key can be indexed |
| RouteV1.Route.GetValue | route.py:94-104 | returns the as-written get, which is the indexed value on a contained key |
| RouteV1.Route.PlainItems | route.py:81-92 | returns plain()'s items; for unique string keys that are segments (`Split.Segment`; for a one-character separator this is the same as containing no separator, by `Split.CharFreeSegment`) they map each leaf's joined path to the leaf and nothing else |
| RouteV2.Contains2 | route_v2.py:198-207 | definition of route_v2.py's membership test; its properties are stated by ContainsIffIndex, ContainsIffDelete, ContainsWidens and ParentIsMapContains |
| RouteV2.ContainsIffIndex | route_v2.py:179-207 | a key is contained exactly when indexing it does not raise |
| RouteV2.ContainsIffDelete | route_v2.py:188-207 | a key is contained exactly when deleting it does not raise |
| RouteV2.ContainsWidens | route_v2.py:198-207 | every key the older membership test accepts is accepted by route_v2.py's |
| RouteV2.ParentIsMapContains | route_v2.py:198-207 | when every parent is a nested Route, route_v2.py's membership agrees with the older one |
| RouteV2.Assign2 | route_v2.py:151-177 | definition of route_v2.py's set; its properties are stated by Assign2Raises, Assign2Sets, Assign2Policy, Assign2Auto, Assign2Idem and AutoSetThenGet |
| RouteV2.SetTarget | route_v2.py:163-173 | with auto-convert on, the head is always a Route before the rest is set |
| RouteV2.Assign2Raises | route_v2.py:151-177 | a set raises exactly when auto-convert is off and the path meets None or a number before its last segment, and the error is TypeError |
| RouteV2.Assign2Sets | route_v2.py:151-177 | after a set that does not raise the key is contained; it indexes to the wrapped value when auto-convert is on or the key is unsplit, and to the value as given when auto-convert is off; other top-level keys are untouched; keys stay unique |
| RouteV2.Assign2Idem | route_v2.py:151-177 | a set that does not raise, repeated with the same key and value, leaves the same state |
| RouteV2.AutoSetThenGet | route_v2.py:151-214 | with auto-convert on, setting a non-mapping never raises, and afterwards the key is contained and both indexing and get return the value |
| RouteV2.Assign2Policy | route_v2.py:160-177 | for a composite key: an absent head gets a fresh Route; with auto-convert on a plain dict head is converted and a scalar head replaced by a fresh Route; otherwise the head is kept; the rest is then set inside it |
| RouteV2.Assign2Auto | route_v2.py:151-177 | with auto-convert on, in a level with unsplit keys and no plain dicts, route_v2.py's set is map.py's set of the converted value |
| RouteV2.Get2 | route_v2.py:209-214 | get returns the indexed value of a contained key and the default otherwise, never raising |
| RouteV2.GetAgreesWithGet2 | route_v2.py:209-214 | on a key route_v2.py's membership test accepts, or one whose parents all exist as nested Routes, map.py's get agrees with route_v2.py's get |
| RouteV2.Get2IsIntended | route_v2.py:209-214 | route_v2.py's get is the corrected get of map.py |
| RouteV2.Pop2 | route_v2.py:216-223 | pop of a contained key returns its value and the deletion; pop of any other key returns the default and changes nothing |
| RouteV2.PopRemoves | route_v2.py:216-223 | after pop of a contained key the key is gone, and every other contained key whose path does not overlap is unchanged |
| RouteV2.DeleteRemoves2 | route_v2.py:188-207 | deleting a contained key succeeds and afterwards the key is not contained |
| RouteV2.DeleteKeeps2 | route_v2.py:188-195 | a deletion leaves every independent contained key contained and unchanged |
| RouteV2.Fold2 | route_v2.py:141-146 | definition of route_v2.py's update loop; its properties are stated by Fold2Auto, Fold2Raises and RouteV2ConvertIsMap |
| RouteV2.Fold2Auto | route_v2.py:129-149 | with auto-convert on, route_v2.py's update loop never raises and builds exactly what map.py's update builds, keeping the level in converted form |
| RouteV2.RouteV2ConvertIsMap | route_v2.py:125-149 | Route(v) built by route_v2.py's own constructor is the shared conversion of v |
| RouteV2.Fold2Raises | route_v2.py:129-149 | the update loop raises only TypeError, only with auto-convert off, and keeps keys unique |
| RouteV2.Update2 | route_v2.py:129-149 | more than one positional argument raises TypeError and changes nothing; with none, only the keyword pairs are set |
| RouteV2.ToBase | route_v2.py:263-265 | definition of to_base; its properties are stated by BaseFromKeys, BaseThenConvert and ConvertThenBase |
| RouteV2.BaseVal | route_v2.py:265 | definition of what to_base keeps for one value; its properties are stated by BaseThenConvert and ConvertThenBase |
| RouteV2.BaseFromKeys | route_v2.py:263-265 | to_base keeps the keys of a level in order and builds its dict without collisions |
| RouteV2.BaseThenConvert | route_v2.py:263-265 | converting to_base of a Route in converted form gives the same Route back |
| RouteV2.ConvertThenBase | route_v2.py:125-149 | to_base(Route(d)) is d for a nested dict d whose keys are unique and free of the separator |
| RouteV2.Route.constructor | route_v2.py:125-127 | a new Route is empty with separator '.' and auto-convert on |
| RouteV2.Route.Make | route_v2.py:125-127 | Route(*args, **kwargs) succeeds exactly when update does, and then holds what update builds from an empty Route; otherwise the update's error is raised |
| RouteV2.Route.SetSep | route_v2.py:100-101 | a non-empty separator replaces the old one and an empty one keeps it; entries and auto-convert are untouched |
| RouteV2.Route.EnableAutoConvert | route_v2.py:103-105 | auto-convert is on afterwards and nothing else changes |
| RouteV2.Route.DisableAutoConvert | route_v2.py:107-109 | auto-convert is off afterwards and nothing else changes |
| RouteV2.Route.Update | route_v2.py:129-149 | the entries and the outcome are those of update on the old entries |
| RouteV2.Route.UpdatePairs | route_v2.py:141-146 | the loop sets each pair in order and stops at the first error, as the update loop does |
| RouteV2.Route.SetItem | route_v2.py:151-177 | on success the entries become the set; on error nothing changes and TypeError is raised |
| RouteV2.Route.GetItem | route_v2.py:179-186 | returns the indexed value or its error, and succeeds exactly on contained keys |
| RouteV2.Route.DelItem | route_v2.py:188-195 | on success the entries become the deletion; on error nothing changes; it succeeds exactly on contained keys, which are gone afterwards |
| RouteV2.Route.ContainsKey | route_v2.py:198-207 | answers route_v2.py's membership test |
| RouteV2.Route.GetValue | route_v2.py:209-214 | returns route_v2.py's get, which never raises |
| RouteV2.Route.Pop | route_v2.py:216-223 | returns pop's value and leaves pop's entries |
| RouteV2.Route.Copy | route_v2.py:225-232 | a new Route with the same entries, separator and auto-convert setting |
| RouteV2.Route.PlainDict | route_v2.py:246-261 | returns plain() with the given separator, or the Route's own when that is empty; for unique string keys that are segments for that separator (`Split.Segment`; for a one-character separator this is the same as containing no separator, by `Split.CharFreeSegment`) it maps each leaf's joined path to the leaf and nothing else |
| RouteV2.Route.ToBaseDict | route_v2.py:263-265 | returns to_base, and converting it back gives the same Route when the Route is in converted form |

## Left out

- Aliasing and in-place mutation of shared children: children are values, so a child Route reachable from two places, or one the caller still holds, is not modelled.
- RouteV2.Route.Copy: states equal contents only; that `__copy__` shares the child Route objects with the original is not expressible over values.
- `__deepcopy__` (route_v2.py:234-241): copying arbitrary leaves with a memo has no counterpart over opaque leaf values.
- Class-level state: `_sep` and `_auto_convert_dict` are per-object fields, so a `set_sep` or auto-convert change on one object does not reach other objects as it does in Python.
- The `_Route` class factory, its metaclass parameter, `_ROUTE_LIST`, the module-level `set_sep`, `enable_auto_convert` and `set_base_dict_type`, and the annotation patching (route_v2.py:42-87, 269-283): Python metaprogramming with no behaviour of the container itself. The factory's `sep` and `auto_cvt` parameters are unused in the code.
- `OrderedRoute`: the same container over an ordered dict; the model already keeps insertion order.
- RouteV2.Contains2: a head holding a string answers `'a.b' in r` by a substring test in Python, because the code only checks for a `__contains__` attribute; leaves are opaque numbers here, so such a head makes the key not contained.
- RouteV1.Route.SetSep: requires a non-empty separator; with an empty one every later split raises ValueError in Python, which is not modelled.
- Every operation requires a non-empty separator for the same reason.
- AttributeError, raised when `get` or `__setitem__` of any generation, or `__getitem__` or `__delitem__` of map.py and route.py, reaches None or a number, is merged into TypeError.
- `update` on a non-mapping iterable is modelled only as a list of key/value pairs; an iterable whose items are not pairs is not modelled.
- `len(a)` counting top-level entries: this is the length of the top-level item list and has no separate member.
- The concrete traces of test.py (lines 22-92) are not evaluated literally. Each is an instance of a general lemma: `Map.AssignFreshNested` and `Map.SetAllIndex` for the sets, `Map.DeleteKeepsAncestors` and `Map.DeleteKeepsIndependent` for the deletions, `Map.MissingSegmentRaises` for the KeyError, `Map.GetMissingLast` for the default, `Map.ConvertIndex` for the nested construction, and `Map.Map.ContainsKey` for the membership answers.
- RouteV1.FlatLookup, RouteV1.Route.PlainItems and RouteV2.Route.PlainDict: the one-entry-per-leaf property is stated for levels whose keys are string keys that are segments (`Split.Segment`; for a one-character separator this is the same as containing no separator, by `Split.CharFreeSegment`). With other string keys it can fail in two ways. Two paths can join to the same flat key, and then the later one wins. A joined key can also be cut at a different place than the join: with separator `::`, the key `a:` over `{'b': 1}` flattens to `a:::b`, which splits as `a` and `:b`, so the flat key names another path.
- The codec registry and the archive/restore operations are not part of this model; no file of the container defines them.
- I/O, printing and the demonstration scripts are not modelled.

## Findings

| source | as written | input that shows it | evidently intended | confidence | as-written member | corrected member |
|---|---|---|---|---|---|---|
| map.py:69-79 | `get` on a composite key whose head is absent calls `.get` on the caller's default itself; route.py:94-104 is the same | `Map().get('a.b', 0)` raises AttributeError instead of returning 0 | return the default whenever indexing the path fails, and otherwise what indexing returns, as route_v2.py:209-214 does | not executed | Map.GetAbsentHead | Map.GetIntended |
