/** Small sequence helpers that stand for the JavaScript array methods the stores use
    (`filter`, `findIndex`, `find`, `slice(0, n)`), and the Option type that stands for
    a value that may be `undefined` or `null`. */
module Common {

  datatype Option<T> = None | Some(value: T)

  /** The elements of `s` that satisfy `p`, in their original order (`Array.prototype.filter`). */
  function Filter<T(!new)>(s: seq<T>, p: T -> bool): (r: seq<T>)
    ensures |r| <= |s|
    ensures forall x :: x in r <==> x in s && p(x)
    ensures forall i :: 0 <= i < |r| ==> p(r[i])
    decreases |s|
  {
    if s == [] then []
    else (if p(s[0]) then [s[0]] else []) + Filter(s[1..], p)
  }

  /** Filtering distributes over concatenation: the survivors keep their relative order. */
  lemma {:induction false} FilterAppend<T(!new)>(a: seq<T>, b: seq<T>, p: T -> bool)
    ensures Filter(a + b, p) == Filter(a, p) + Filter(b, p)
    decreases |a|
  {
    if a == [] {
      assert a + b == b;
    } else {
      assert (a + b)[1..] == a[1..] + b;
      FilterAppend(a[1..], b, p);
    }
  }

  /** A filter that every element passes changes nothing. */
  lemma {:induction false} FilterKeepsAll<T(!new)>(s: seq<T>, p: T -> bool)
    requires forall i :: 0 <= i < |s| ==> p(s[i])
    ensures Filter(s, p) == s
    decreases |s|
  {
    if s != [] {
      FilterKeepsAll(s[1..], p);
    }
  }

  lemma SplitAt<T>(s: seq<T>, i: int)
    requires 0 <= i < |s|
    ensures s == (s[..i] + [s[i]]) + s[i + 1..]
  {
  }

  /** Filtering a list is filtering the part before `i`, the element at `i`, and the rest. */
  lemma FilterSplit<T(!new)>(s: seq<T>, i: int, p: T -> bool)
    requires 0 <= i < |s|
    ensures Filter(s, p) == Filter(s[..i], p) + Filter([s[i]], p) + Filter(s[i + 1..], p)
  {
    SplitAt(s, i);
    FilterAppend(s[..i] + [s[i]], s[i + 1..], p);
    FilterAppend(s[..i], [s[i]], p);
  }

  lemma FilterDropsOnly<T(!new)>(x: T, p: T -> bool)
    requires !p(x)
    ensures Filter([x], p) == []
  {
  }

  /** A filter that every element after `i` passes keeps the tail after `i`. */
  lemma FilterKeepsTail<T(!new)>(s: seq<T>, i: int, p: T -> bool)
    requires 0 <= i < |s|
    requires forall k :: i < k < |s| ==> p(s[k])
    ensures Filter(s[i + 1..], p) == s[i + 1..]
  {
    var after := s[i + 1..];
    forall k | 0 <= k < |after| ensures p(after[k]) {
      assert after[k] == s[i + 1 + k];
    }
    FilterKeepsAll(after, p);
  }

  /** A filter that every element before `i` passes keeps the head before `i`. */
  lemma FilterKeepsHead<T(!new)>(s: seq<T>, i: int, p: T -> bool)
    requires 0 <= i < |s|
    requires forall k :: 0 <= k < i ==> p(s[k])
    ensures Filter(s[..i], p) == s[..i]
  {
    FilterKeepsAll(s[..i], p);
  }

  /** A filter that only the element at `i` fails splices that element out. */
  lemma FilterDropsAt<T(!new)>(s: seq<T>, i: int, p: T -> bool)
    requires 0 <= i < |s| && !p(s[i])
    requires forall k :: 0 <= k < |s| && k != i ==> p(s[k])
    ensures Filter(s, p) == s[..i] + s[i + 1..]
  {
    FilterSplit(s, i, p);
    FilterDropsOnly(s[i], p);
    FilterKeepsHead(s, i, p);
    FilterKeepsTail(s, i, p);
    assert s[..i] + [] == s[..i];
  }

  /** The index of the first element satisfying `p`, or -1 (`Array.prototype.findIndex`). */
  function IndexWhere<T>(s: seq<T>, p: T -> bool): (r: int)
    ensures -1 <= r < |s|
    ensures r == -1 <==> forall i :: 0 <= i < |s| ==> !p(s[i])
    ensures r >= 0 ==> p(s[r]) && forall i :: 0 <= i < r ==> !p(s[i])
    decreases |s|
  {
    if s == [] then -1
    else if p(s[0]) then 0
    else
      var k := IndexWhere(s[1..], p);
      if k == -1 then -1 else k + 1
  }

  /** The first element satisfying `p`, if any (`Array.prototype.find`). */
  function Find<T>(s: seq<T>, p: T -> bool): (r: Option<T>)
    ensures r.None? <==> forall i :: 0 <= i < |s| ==> !p(s[i])
    ensures r.Some? ==> exists i :: 0 <= i < |s| && s[i] == r.value && p(s[i]) &&
                         forall j :: 0 <= j < i ==> !p(s[j])
  {
    var k := IndexWhere(s, p);
    if k == -1 then None else Some(s[k])
  }

  /** `s.split(sep)[0]`: the text before the first `sep`, or all of `s` when there is none. */
  function TextBefore(s: string, sep: char): (r: string)
    ensures r <= s
    ensures sep !in r
    ensures |r| < |s| ==> s[|r|] == sep
  {
    var i := IndexWhere(s, (c: char) => c == sep);
    if i == -1 then s else s[..i]
  }

  /** The text before `sep` in `head + [sep] + tail` is `head` when `head` has no `sep`. */
  lemma TextBeforeJoin(head: string, sep: char, tail: string)
    requires sep !in head
    ensures TextBefore(head + [sep] + tail, sep) == head
  {
    var s := head + [sep] + tail;
    assert s[|head|] == sep;
    assert TextBefore(s, sep) == s[..|TextBefore(s, sep)|] == head;
  }

  /** Where `slice(0, end)` stops on an array of length `len`: a negative `end` counts back
      from the end of the array, and the result is clamped to `0..len`. */
  function SliceEnd(len: nat, end: int): (k: nat)
    ensures k <= len
    ensures 0 <= end ==> k == if end < len then end else len
    ensures end < 0 ==> k == if len + end < 0 then 0 else len + end
  {
    if end < 0 then (if len + end < 0 then 0 else len + end)
    else if end < len then end
    else len
  }

  /** `s.slice(0, end)`. */
  function SliceTo<T>(s: seq<T>, end: int): (r: seq<T>)
    ensures r <= s
    ensures |r| == SliceEnd(|s|, end)
    ensures |s| <= end ==> r == s
  {
    s[..SliceEnd(|s|, end)]
  }
}
