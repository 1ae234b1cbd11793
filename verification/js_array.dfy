/** The `Array.prototype` methods the handlers use, on immutable sequences. */
module JsArray {
  import opened Wrappers

  /** `k` is the position `findIndex(p)` reports: the first element satisfying `p`. */
  ghost predicate IsFirstIndex<T>(a: seq<T>, p: T -> bool, k: int) {
    && 0 <= k < |a|
    && p(a[k])
    && forall j :: 0 <= j < k ==> !p(a[j])
  }

  /** `a.findIndex(p)`: the index of the first element satisfying `p`, or -1 when there is none. */
  function FindIndex<T>(a: seq<T>, p: T -> bool): (r: int)
    ensures r == -1 <==> forall i :: 0 <= i < |a| ==> !p(a[i])
    ensures r != -1 ==> IsFirstIndex(a, p, r)
    decreases |a|
  {
    if |a| == 0 then -1
    else if p(a[0]) then 0
    else
      var k := FindIndex(a[1..], p);
      assert forall i :: 1 <= i < |a| ==> a[i] == a[1..][i - 1];
      if k == -1 then -1 else k + 1
  }

  /** `a.find(p)`: the first element satisfying `p`, or `undefined`. */
  function Find<T>(a: seq<T>, p: T -> bool): (r: Option<T>)
    ensures r.None? <==> forall i :: 0 <= i < |a| ==> !p(a[i])
    ensures r.Some? ==> exists k :: IsFirstIndex(a, p, k) && a[k] == r.value
  {
    var k := FindIndex(a, p);
    if k == -1 then None else Some(a[k])
  }

  /** The number of elements satisfying `p`. */
  function Count<T>(a: seq<T>, p: T -> bool): (n: nat)
    ensures n <= |a|
  {
    if |a| == 0 then 0
    else (if p(a[0]) then 1 else 0) + Count(a[1..], p)
  }

  /** `a.filter(p)`: the elements satisfying `p`, in their original order. */
  function Filter<T>(a: seq<T>, p: T -> bool): (r: seq<T>)
    ensures |r| == Count(a, p)
    ensures forall i :: 0 <= i < |r| ==> r[i] in a && p(r[i])
    ensures forall i :: 0 <= i < |a| && p(a[i]) ==> a[i] in r
    ensures multiset(r) <= multiset(a)
  {
    if |a| == 0 then []
    else
      assert a == [a[0]] + a[1..];
      (if p(a[0]) then [a[0]] else []) + Filter(a[1..], p)
  }

  /** Filtering a concatenation filters each part: no element moves across another. */
  lemma {:induction false} FilterConcat<T>(a: seq<T>, b: seq<T>, p: T -> bool)
    ensures Filter(a + b, p) == Filter(a, p) + Filter(b, p)
  {
    if |a| == 0 {
      assert a + b == b;
    } else {
      assert (a + b)[1..] == a[1..] + b;
      FilterConcat(a[1..], b, p);
    }
  }

  /** Filtering keeps every element when all of them pass. */
  lemma {:induction false} FilterAllPass<T>(a: seq<T>, p: T -> bool)
    requires forall i :: 0 <= i < |a| ==> p(a[i])
    ensures Filter(a, p) == a
  {
    if |a| > 0 {
      FilterAllPass(a[1..], p);
    }
  }

  /** Filtering twice by the same test is filtering once. */
  lemma FilterIdempotent<T>(a: seq<T>, p: T -> bool)
    ensures Filter(Filter(a, p), p) == Filter(a, p)
  {
    FilterAllPass(Filter(a, p), p);
  }

  /** `filter` keeps each passing element as often as it occurs and drops every other one. */
  lemma {:induction false} FilterMultiplicity<T>(a: seq<T>, p: T -> bool)
    ensures forall e :: multiset(Filter(a, p))[e] == if p(e) then multiset(a)[e] else 0
  {
    if |a| > 0 {
      FilterMultiplicity(a[1..], p);
      assert a == [a[0]] + a[1..];
      assert multiset(a) == multiset([a[0]]) + multiset(a[1..]);
    }
  }

  /** The element JavaScript prints for an array slot: a hole or `undefined` prints as "". */
  function Render(e: Option<string>): string {
    e.GetOr("")
  }

  /** `a.join(sep)`: the rendered elements with `sep` between neighbours. */
  function Join(a: seq<Option<string>>, sep: string): (r: string)
    ensures |a| == 0 ==> r == ""
    ensures |a| == 1 ==> r == Render(a[0])
  {
    if |a| == 0 then ""
    else if |a| == 1 then Render(a[0])
    else
      Join(a[..|a| - 1], sep) + sep + Render(a[|a| - 1])
  }

  /** Appending one element to a non-empty array appends a separator and that element's rendering. */
  lemma JoinSnoc(a: seq<Option<string>>, e: Option<string>, sep: string)
    requires |a| > 0
    ensures Join(a + [e], sep) == Join(a, sep) + sep + Render(e)
  {
    assert (a + [e])[..|a|] == a;
  }

  /** Joining two non-empty arrays end to end puts one separator between their joins. */
  lemma {:induction false} JoinSplit(a: seq<Option<string>>, b: seq<Option<string>>, sep: string)
    requires |a| > 0 && |b| > 0
    ensures Join(a + b, sep) == Join(a, sep) + sep + Join(b, sep)
    decreases |b|
  {
    var x := b[|b| - 1];
    var b' := b[..|b| - 1];
    assert b == b' + [x];
    if |b| == 1 {
      assert b == [x] && a + b == a + [x];
      JoinSnoc(a, x, sep);
    } else {
      assert a + b == (a + b') + [x];
      var ja, jb' := Join(a, sep), Join(b', sep);
      JoinSnoc(a + b', x, sep);
      JoinSplit(a, b', sep);
      JoinSnoc(b', x, sep);
      calc {
        Join(a + b, sep);
        Join(a + b', sep) + sep + Render(x);
        (ja + sep + jb') + sep + Render(x);
        ja + sep + (jb' + sep + Render(x));
        ja + sep + Join(b, sep);
      }
    }
  }

  /** The largest length `Array(len)` accepts: 2^32 - 1. */
  const MAX_ARRAY_LENGTH: nat := 0xFFFF_FFFF

  datatype RangeError = InvalidArrayLength

  /** `n` holes: the contents of a freshly constructed array. */
  function Holes(n: nat): (a: seq<Option<string>>)
    ensures |a| == n && forall i :: 0 <= i < n ==> a[i].None?
  {
    seq(n, _ => None)
  }

  /** `Array(len)`: `len` holes, or a RangeError when `len` is not a valid array length. */
  function NewArray(len: nat): (r: Result<seq<Option<string>>, RangeError>)
    ensures r.Ok? <==> len <= MAX_ARRAY_LENGTH
    ensures r.Ok? ==> |r.value| == len && forall i :: 0 <= i < len ==> r.value[i].None?
    ensures r.Err? ==> r.error == InvalidArrayLength
  {
    if len <= MAX_ARRAY_LENGTH then Ok(Holes(len)) else Err(InvalidArrayLength)
  }

  /** A string of `n` spaces. */
  function Spaces(n: nat): string {
    seq(n, _ => ' ')
  }

  /** Joining `k + 1` holes with `sep` writes `sep` exactly `k` times. */
  lemma {:induction false} JoinHoles(k: nat)
    ensures Join(Holes(k + 1), " ") == Spaces(k)
  {
    if k > 0 {
      JoinHoles(k - 1);
      assert Holes(k + 1)[..k] == Holes(k);
      assert Spaces(k - 1) + " " == Spaces(k);
    }
  }
}
