/**
 * The JavaScript array operations the application relies on, over Dafny sequences:
 * `find` (first match), `filter` (order-preserving selection), `slice` (with
 * JavaScript's clamping and negative offsets), and one page of a paginated list.
 */
module Seqs {
  import opened Wrappers

  /** `a` is obtained from `b` by deleting elements, keeping the order of the rest. */
  predicate IsSubsequence<T(==)>(a: seq<T>, b: seq<T>)
    decreases |b|
  {
    if a == [] then true
    else if b == [] then false
    else if a[0] == b[0] then IsSubsequence(a[1..], b[1..])
    else IsSubsequence(a, b[1..])
  }

  /** `a` is a run of consecutive elements of `b`. */
  ghost predicate IsContiguousIn<T>(a: seq<T>, b: seq<T>) {
    exists k :: RunAt(a, b, k)
  }

  /** `a` occurs in `b` starting at position `k`. */
  ghost predicate RunAt<T>(a: seq<T>, b: seq<T>, k: int) {
    0 <= k <= |b| - |a| && b[k..k + |a|] == a
  }

  /** No element occurs twice. */
  predicate NoDuplicates<T(==)>(s: seq<T>) {
    forall i, j :: 0 <= i < j < |s| ==> s[i] != s[j]
  }

  /** JavaScript's `Array.prototype.find`: the first element satisfying `p`, if any. */
  function Find<T>(s: seq<T>, p: T -> bool): (r: Option<T>)
    ensures r.None? <==> forall i :: 0 <= i < |s| ==> !p(s[i])
    ensures r.Some? ==> exists i :: 0 <= i < |s| && s[i] == r.value && p(s[i]) &&
                                    forall j :: 0 <= j < i ==> !p(s[j])
  {
    if s == [] then None
    else if p(s[0]) then Some(s[0])
    else
      var r := Find(s[1..], p);
      assert r.Some? ==> exists i :: 0 <= i < |s[1..]| && s[1..][i] == r.value && p(s[1..][i]) &&
                                     forall j :: 0 <= j < i ==> !p(s[1..][j]);
      assert r.Some? ==> exists i :: 1 <= i < |s| && s[i] == r.value && p(s[i]) &&
                                     forall j :: 0 <= j < i ==> !p(s[j]) by {
        if r.Some? {
          var i :| 0 <= i < |s[1..]| && s[1..][i] == r.value && p(s[1..][i]) &&
                   forall j :: 0 <= j < i ==> !p(s[1..][j]);
          assert forall j :: 1 <= j < i + 1 ==> s[j] == s[1..][j - 1];
        }
      }
      r
  }

  /** The first element satisfying `p` is the first element that does. */
  lemma FindFirst<T>(s: seq<T>, p: T -> bool, i: nat)
    requires i < |s| && p(s[i])
    requires forall j :: 0 <= j < i ==> !p(s[j])
    ensures Find(s, p) == Some(s[i])
  {
    var r := Find(s, p);
    var k :| 0 <= k < |s| && s[k] == r.value && p(s[k]) && forall j :: 0 <= j < k ==> !p(s[j]);
    assert k == i;
  }

  /** The last element satisfying `p`, if any: what survives when later entries overwrite earlier ones. */
  function FindLast<T>(s: seq<T>, p: T -> bool): Option<T> {
    if s == [] then None
    else if p(s[|s| - 1]) then Some(s[|s| - 1])
    else FindLast(s[..|s| - 1], p)
  }

  /** Position `i` holds the last element of `s` satisfying `p`. */
  ghost predicate IsLastMatch<T>(s: seq<T>, p: T -> bool, i: int) {
    0 <= i < |s| && p(s[i]) && forall j :: i < j < |s| ==> !p(s[j])
  }

  /** `FindLast` finds nothing exactly when nothing matches, and otherwise the last match. */
  lemma {:induction false} FindLastIsLast<T>(s: seq<T>, p: T -> bool)
    ensures FindLast(s, p).None? <==> forall i :: 0 <= i < |s| ==> !p(s[i])
    ensures FindLast(s, p).Some? ==> exists i :: IsLastMatch(s, p, i) && s[i] == FindLast(s, p).value
    decreases |s|
  {
    if s != [] && !p(s[|s| - 1]) {
      var init := s[..|s| - 1];
      FindLastIsLast(init, p);
      assert forall i :: 0 <= i < |init| ==> init[i] == s[i];
      if FindLast(init, p).Some? {
        var i :| IsLastMatch(init, p, i) && init[i] == FindLast(init, p).value;
        assert IsLastMatch(s, p, i);
      }
    } else if s != [] {
      assert IsLastMatch(s, p, |s| - 1);
    }
  }

  /** Extending a sequence at the end: the new element wins if it matches. */
  lemma FindLastSnoc<T>(s: seq<T>, i: nat, p: T -> bool)
    requires i < |s|
    ensures FindLast(s[..i + 1], p) == if p(s[i]) then Some(s[i]) else FindLast(s[..i], p)
  {
    var prefix := s[..i + 1];
    assert prefix[..i] == s[..i] && prefix[i] == s[i];
  }

  /** JavaScript's `Array.prototype.filter`: the elements satisfying `p`, in order. */
  function Filter<T>(s: seq<T>, p: T -> bool): (r: seq<T>)
    ensures |r| <= |s|
    ensures forall i :: 0 <= i < |r| ==> r[i] in s && p(r[i])
    ensures forall i :: 0 <= i < |s| && p(s[i]) ==> s[i] in r
  {
    if s == [] then []
    else
      var rest := Filter(s[1..], p);
      assert forall i :: 1 <= i < |s| ==> s[i] == s[1..][i - 1];
      if p(s[0]) then [s[0]] + rest else rest
  }

  /** The two halves of what `Filter` keeps, for one element. */
  lemma FilterMember<T>(s: seq<T>, p: T -> bool, x: T)
    ensures x in Filter(s, p) <==> x in s && p(x)
  {
    var r := Filter(s, p);
    if x in r {
      var i :| 0 <= i < |r| && r[i] == x;
    }
    if x in s && p(x) {
      var i :| 0 <= i < |s| && s[i] == x;
    }
  }

  /** When every element satisfies `p`, `filter` returns its input unchanged. */
  lemma {:induction false} FilterKeepsAll<T>(s: seq<T>, p: T -> bool)
    requires forall i :: 0 <= i < |s| ==> p(s[i])
    ensures Filter(s, p) == s
    decreases |s|
  {
    if s != [] {
      assert forall i :: 0 <= i < |s[1..]| ==> p(s[1..][i]) by {
        forall i | 0 <= i < |s[1..]| ensures p(s[1..][i]) {
          assert s[1..][i] == s[i + 1];
        }
      }
      FilterKeepsAll(s[1..], p);
    }
  }

  /** Filtering a duplicate-free sequence leaves a duplicate-free sequence. */
  lemma {:induction false} FilterNoDuplicates<T>(s: seq<T>, p: T -> bool)
    requires NoDuplicates(s)
    ensures NoDuplicates(Filter(s, p))
    decreases |s|
  {
    if s != [] {
      var rest := Filter(s[1..], p);
      FilterNoDuplicates(s[1..], p);
      assert forall i :: 0 <= i < |rest| ==> rest[i] in s[1..];
      assert s[0] !in s[1..];
    }
  }

  /** `filter` keeps every copy of an element satisfying `p` and no copy of any other element. */
  lemma {:induction false} FilterMultiset<T>(s: seq<T>, p: T -> bool)
    ensures forall x :: multiset(Filter(s, p))[x] == if p(x) then multiset(s)[x] else 0
    decreases |s|
  {
    if s != [] {
      FilterMultiset(s[1..], p);
      assert s == [s[0]] + s[1..];
    }
  }

  /** Filtering a sequence extended at the end extends the filtered sequence. */
  lemma {:induction false} FilterAppend<T>(s: seq<T>, x: T, p: T -> bool)
    ensures Filter(s + [x], p) == Filter(s, p) + (if p(x) then [x] else [])
    decreases |s|
  {
    if s == [] {
      assert [x][1..] == [];
    } else {
      assert (s + [x])[1..] == s[1..] + [x];
      FilterAppend(s[1..], x, p);
    }
  }

  /** What `filter` returns is a subsequence of its input. */
  lemma {:induction false} FilterIsSubsequence<T>(s: seq<T>, p: T -> bool)
    ensures IsSubsequence(Filter(s, p), s)
    decreases |s|
  {
    if s != [] {
      FilterIsSubsequence(s[1..], p);
      if !p(s[0]) {
        SubsequenceSkip(Filter(s[1..], p), s[0], s[1..]);
      }
    }
  }

  /** A subsequence of the tail is a subsequence of the whole sequence. */
  lemma {:induction false} SubsequenceSkip<T>(a: seq<T>, x: T, b: seq<T>)
    requires IsSubsequence(a, b)
    ensures IsSubsequence(a, [x] + b)
    decreases |b|, 1
  {
    assert ([x] + b)[1..] == b;
    if a != [] && a[0] == x {
      SubsequenceDropHead(a, b);
    }
  }

  /** Dropping the first element of a subsequence leaves a subsequence. */
  lemma {:induction false} SubsequenceDropHead<T>(a: seq<T>, b: seq<T>)
    requires a != [] && IsSubsequence(a, b)
    ensures IsSubsequence(a[1..], b)
    decreases |b|, 0
  {
    assert [b[0]] + b[1..] == b;
    if a[0] != b[0] {
      SubsequenceDropHead(a, b[1..]);
    }
    SubsequenceSkip(a[1..], b[0], b[1..]);
  }

  /** Turns one offset argument of `slice` into a position: negative counts from the end; clamped to `[0, len]`. */
  function SliceIndex(k: int, len: nat): (r: nat)
    ensures r <= len
    ensures 0 <= k <= len ==> r == k
  {
    if k < 0 then (if len + k < 0 then 0 else len + k)
    else if k > len then len
    else k
  }

  /** JavaScript's `Array.prototype.slice(start, end)`. */
  function JsSlice<T>(s: seq<T>, start: int, end: int): (r: seq<T>)
    ensures |r| <= |s|
  {
    var from := SliceIndex(start, |s|);
    var to := SliceIndex(end, |s|);
    if from <= to then s[from..to] else []
  }

  /** Whatever its arguments, `slice` returns a contiguous run of its input. */
  lemma JsSliceIsContiguous<T>(s: seq<T>, start: int, end: int)
    ensures IsContiguousIn(JsSlice(s, start, end), s)
  {
    var from := SliceIndex(start, |s|);
    var to := SliceIndex(end, |s|);
    var r := JsSlice(s, start, end);
    if from <= to {
      assert |r| == to - from && s[from..from + |r|] == r;
      assert RunAt(r, s, from);
    } else {
      assert RunAt(r, s, 0);
    }
  }

  /** One page of a list, as the table components compute it: `s.slice((page-1)*size, (page-1)*size + size)`. */
  function Page<T>(s: seq<T>, page: int, pageSize: int): seq<T> {
    var start := (page - 1) * pageSize;
    JsSlice(s, start, start + pageSize)
  }

  lemma ProductNonNegative(a: int, b: int)
    requires a >= 0 && b >= 0
    ensures a * b >= 0
  {
  }

  /**
   * For a page number of at least 1 and a non-negative page size, a page holds at most
   * `pageSize` elements, and they are the elements of `s` from position `(page-1)*pageSize` on.
   */
  lemma PageContents<T>(s: seq<T>, page: int, pageSize: int)
    requires page >= 1 && pageSize >= 0
    ensures |Page(s, page, pageSize)| <= pageSize
    ensures |Page(s, page, pageSize)| == (if (page - 1) * pageSize >= |s| then 0
                                          else if (page - 1) * pageSize + pageSize > |s| then |s| - (page - 1) * pageSize
                                          else pageSize)
    ensures forall j :: 0 <= j < |Page(s, page, pageSize)| ==>
              (page - 1) * pageSize + j < |s| && Page(s, page, pageSize)[j] == s[(page - 1) * pageSize + j]
    ensures IsContiguousIn(Page(s, page, pageSize), s)
  {
    var start := (page - 1) * pageSize;
    ProductNonNegative(page - 1, pageSize);
    JsSliceIsContiguous(s, start, start + pageSize);
  }

  /** The first page holds the first `pageSize` elements (or all of them, when fewer). */
  lemma FirstPage<T>(s: seq<T>, pageSize: int)
    requires pageSize >= 0
    ensures Page(s, 1, pageSize) == if pageSize <= |s| then s[..pageSize] else s
  {
  }
}
