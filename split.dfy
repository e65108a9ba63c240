/**
 * `splitkey`, shared by all three generations: a string key is cut at the
 * first occurrence of the separator, exactly like Python's
 * `key.split(sep, 1)`; any other key is never cut.
 */
module Split {
  import opened Base

  /** `sep` occurs in `s` starting at index `j`. */
  predicate OccursAt(s: string, sep: string, j: nat) {
    j + |sep| <= |s| && s[j..j + |sep|] == sep
  }

  /** `sep not in s`. */
  predicate SepFree(s: string, sep: string) {
    forall j: nat :: j <= |s| ==> !OccursAt(s, sep, j)
  }

  /** `h + sep` holds no occurrence of `sep` before the one at its end, so a
      key that starts with `h + sep` is cut right after `h`.  For a
      one-character separator this is just `SepFree(h, sep)`. */
  predicate Segment(h: string, sep: string) {
    forall j: nat :: j < |h| ==> !OccursAt(h + sep, sep, j)
  }

  /** Index of the first occurrence of `sep` in `s` at or after `i`. */
  function FirstFrom(s: string, sep: string, i: nat): (r: Option<nat>)
    requires |sep| > 0 && i <= |s|
    ensures r.Some? ==> i <= r.value && OccursAt(s, sep, r.value)
    ensures r.Some? ==> forall j: nat :: i <= j < r.value ==> !OccursAt(s, sep, j)
    ensures r.None? ==> forall j: nat :: i <= j <= |s| ==> !OccursAt(s, sep, j)
    decreases |s| - i
  {
    if i + |sep| > |s| then None
    else if s[i..i + |sep|] == sep then Some(i)
    else FirstFrom(s, sep, i + 1)
  }

  datatype Parts = Parts(head: Key, rest: Option<string>)

  /** A key `splitkey` leaves whole: not a string, or a string without the
      separator. */
  predicate Unsplit(k: Key, sep: string) {
    k.Str? ==> SepFree(k.s, sep)
  }

  /** Termination measure for the recursive descent on the rest of a key. */
  function KeyLen(k: Key): nat {
    if k.Str? then |k.s| else 0
  }

  /** `splitkey(key)`: `(head, rest)` for a string holding the separator,
      `(key, None)` for every other key. */
  function SplitKey(key: Key, sep: string): (p: Parts)
    requires |sep| > 0
    ensures !key.Str? ==> p == Parts(key, None)
    ensures key.Str? && SepFree(key.s, sep) ==> p == Parts(key, None)
    ensures key.Str? && !SepFree(key.s, sep) ==>
              && p.head.Str? && p.rest.Some?
              && Segment(p.head.s, sep)
              && p.head.s + sep + p.rest.value == key.s
    ensures p.rest.Some? ==> key.Str? && |p.rest.value| < |key.s|
    ensures Unsplit(p.head, sep)
    ensures Unsplit(key, sep) <==> p.rest.None?
  {
    match key
    case Other(_) => Parts(key, None)
    case Str(s) =>
      match FirstFrom(s, sep, 0)
      case None => Parts(key, None)
      case Some(i) =>
        HeadIsSegment(s, sep, i);
        SegmentIsSepFree(s[..i], sep);
        Parts(Str(s[..i]), Some(s[i + |sep|..]))
  }

  /** Cutting at the first occurrence leaves a head that is a segment. */
  lemma HeadIsSegment(s: string, sep: string, i: nat)
    requires OccursAt(s, sep, i)
    requires forall j: nat :: j < i ==> !OccursAt(s, sep, j)
    ensures Segment(s[..i], sep)
    ensures s[..i] + sep + s[i + |sep|..] == s
  {
    var h := s[..i];
    assert h + sep == s[..i + |sep|];
    forall j: nat | j < |h|
      ensures !OccursAt(h + sep, sep, j)
    {
      forall n | j <= n < j + |sep|
        ensures (h + sep)[n] == s[n]
      {
      }
      assert (h + sep)[j..j + |sep|] == s[j..j + |sep|];
      assert !OccursAt(s, sep, j);
    }
    assert s == s[..i + |sep|] + s[i + |sep|..];
  }

  /** A segment never holds the separator. */
  lemma SegmentIsSepFree(h: string, sep: string)
    requires |sep| > 0 && Segment(h, sep)
    ensures SepFree(h, sep)
  {
    forall j: nat | j <= |h|
      ensures !OccursAt(h, sep, j)
    {
      if j + |sep| <= |h| {
        assert (h + sep)[j..j + |sep|] == h[j..j + |sep|];
        assert OccursAt(h, sep, j) ==> OccursAt(h + sep, sep, j);
      }
    }
  }

  /** Joining a segment, the separator and any rest, then splitting, gives
      the segment and the rest back: the inverse of `sep.join([h, rest])`. */
  lemma {:induction false} SplitJoin(h: string, rest: string, sep: string)
    requires |sep| > 0 && Segment(h, sep)
    ensures SplitKey(Str(h + sep + rest), sep) == Parts(Str(h), Some(rest))
  {
    var s := h + sep + rest;
    assert s[|h|..|h| + |sep|] == sep;
    assert OccursAt(s, sep, |h|);
    forall j: nat | j < |h|
      ensures !OccursAt(s, sep, j)
    {
      assert s[j..j + |sep|] == (h + sep)[j..j + |sep|];
      assert !OccursAt(h + sep, sep, j);
    }
    var r := FirstFrom(s, sep, 0);
    assert r == Some(|h|);
    assert s[..|h|] == h;
    assert s[|h| + |sep|..] == rest;
  }

  /** `c` does not occur in `s`. */
  predicate CharFree(s: string, c: char) {
    forall i :: 0 <= i < |s| ==> s[i] != c
  }

  /** With a one-character separator a segment is a string free of it. */
  lemma CharFreeSegment(h: string, c: char)
    requires CharFree(h, c)
    ensures Segment(h, [c]) && SepFree(h, [c])
  {
    forall j: nat | j < |h|
      ensures !OccursAt(h + [c], [c], j)
    {
      assert (h + [c])[j..j + 1][0] == h[j];
    }
    forall j: nat | j <= |h|
      ensures !OccursAt(h, [c], j)
    {
      if j < |h| {
        assert h[j..j + 1][0] == h[j];
      }
    }
  }
}
