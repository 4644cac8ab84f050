/** Sequence helpers shared by the server and client models: the JavaScript
    array operations `filter`, `find` and `new Set(...)` as pure functions. */
module Common {

  datatype Option<+T> = None | Some(value: T)

  /** The reply to an HTTP request: the response body, or an error carrying the response's
      status code (`None` when no response arrived). */
  datatype Http<T> = Reply(body: T) | HttpError(status: Option<int>)

  /** The key of every element, in order. */
  function Keys<T, K>(s: seq<T>, key: T -> K): (r: seq<K>)
    ensures |r| == |s|
    ensures forall i :: 0 <= i < |s| ==> r[i] == key(s[i])
  {
    seq(|s|, i requires 0 <= i < |s| => key(s[i]))
  }

  /** Filters by two predicates that agree on every element keep the same elements. */
  lemma {:induction false} FilterExt<T(!new)>(s: seq<T>, p: T -> bool, q: T -> bool)
    requires forall i :: 0 <= i < |s| ==> p(s[i]) == q(s[i])
    ensures Filter(s, p) == Filter(s, q)
    decreases |s|
  {
    if |s| > 0 {
      FilterExt(s[1..], p, q);
    }
  }

  /** `s.filter(p)`: the elements of `s` that satisfy `p`, in their original order. */
  function Filter<T(!new)>(s: seq<T>, p: T -> bool): (r: seq<T>)
    ensures |r| <= |s|
    ensures forall x :: x in r <==> x in s && p(x)
    decreases |s|
  {
    if |s| == 0 then [] else (if p(s[0]) then [s[0]] else []) + Filter(s[1..], p)
  }

  /** Filtering distributes over concatenation, so the kept elements stay in order. */
  lemma {:induction false} FilterAppend<T(!new)>(s: seq<T>, t: seq<T>, p: T -> bool)
    ensures Filter(s + t, p) == Filter(s, p) + Filter(t, p)
    decreases |s|
  {
    if |s| == 0 {
      assert s + t == t;
    } else {
      assert (s + t)[1..] == s[1..] + t;
      FilterAppend(s[1..], t, p);
    }
  }

  /** The conjunction of two element predicates. */
  function Both<T>(p: T -> bool, q: T -> bool): T -> bool
  {
    x => p(x) && q(x)
  }

  /** Two successive filters are one filter by the conjunction. */
  lemma {:induction false} FilterFilter<T(!new)>(s: seq<T>, p: T -> bool, q: T -> bool)
    ensures Filter(Filter(s, p), q) == Filter(s, Both(p, q))
    decreases |s|
  {
    if |s| > 0 {
      FilterFilter(s[1..], p, q);
      var head := if p(s[0]) then [s[0]] else [];
      FilterAppend(head, Filter(s[1..], p), q);
    }
  }

  /** A filter that keeps everything is the identity. */
  lemma {:induction false} FilterAll<T(!new)>(s: seq<T>, p: T -> bool)
    requires forall i :: 0 <= i < |s| ==> p(s[i])
    ensures Filter(s, p) == s
    decreases |s|
  {
    if |s| > 0 {
      FilterAll(s[1..], p);
    }
  }

  /** A filter that keeps nothing gives the empty sequence. */
  lemma {:induction false} FilterNone<T(!new)>(s: seq<T>, p: T -> bool)
    requires forall i :: 0 <= i < |s| ==> !p(s[i])
    ensures Filter(s, p) == []
    decreases |s|
  {
    if |s| > 0 {
      FilterNone(s[1..], p);
    }
  }

  /** Two filters by predicates that never hold together keep at most |s| elements between them. */
  lemma {:induction false} FilterDisjointCounts<T(!new)>(s: seq<T>, p: T -> bool, q: T -> bool)
    requires forall i :: 0 <= i < |s| ==> !(p(s[i]) && q(s[i]))
    ensures |Filter(s, p)| + |Filter(s, q)| <= |s|
    decreases |s|
  {
    if |s| > 0 {
      FilterDisjointCounts(s[1..], p, q);
    }
  }

  /** The index of the first element of `s` satisfying `p`, or -1 when there is none. */
  function FindIndex<T>(s: seq<T>, p: T -> bool): (i: int)
    ensures -1 <= i < |s|
    ensures 0 <= i ==> p(s[i]) && forall j :: 0 <= j < i ==> !p(s[j])
    ensures i < 0 ==> forall j :: 0 <= j < |s| ==> !p(s[j])
    decreases |s|
  {
    if |s| == 0 then -1
    else if p(s[0]) then 0
    else
      var k := FindIndex(s[1..], p);
      if k < 0 then -1 else k + 1
  }

  /** `s.find(p)`: the first element satisfying `p`, if any (JavaScript's `undefined` is `None`). */
  function Find<T>(s: seq<T>, p: T -> bool): (r: Option<T>)
    ensures r.None? <==> forall j :: 0 <= j < |s| ==> !p(s[j])
    ensures r.Some? ==> exists i :: 0 <= i < |s| && s[i] == r.value && p(s[i]) && forall j :: 0 <= j < i ==> !p(s[j])
  {
    var i := FindIndex(s, p);
    if i < 0 then None else Some(s[i])
  }

  predicate NoDuplicates<T(==)>(s: seq<T>)
  {
    forall i, j :: 0 <= i < j < |s| ==> s[i] != s[j]
  }

  /** `[...new Set(s)]`: the distinct elements of `s` in order of first appearance. */
  function Distinct<T(==,!new)>(s: seq<T>): (r: seq<T>)
    ensures forall x :: x in r <==> x in s
    ensures NoDuplicates(r)
    decreases |s|
  {
    if |s| == 0 then []
    else
      var d := Distinct(s[..|s| - 1]);
      if s[|s| - 1] in d then d else d + [s[|s| - 1]]
  }

  /** Elements seen later never reorder the ones already listed: the distinct list of a
      prefix is a prefix of the distinct list of the whole sequence. */
  lemma {:induction false} DistinctPrefix<T(!new)>(s: seq<T>, t: seq<T>)
    ensures Distinct(s) <= Distinct(s + t)
    decreases |t|
  {
    if |t| == 0 {
      assert s + t == s;
    } else {
      var u := t[..|t| - 1];
      DistinctPrefix(s, u);
      assert (s + t)[..|s + t| - 1] == s + u;
    }
  }

  /** `x` occurs in `s` before the first occurrence of `y`. */
  predicate OccursBefore<T(==)>(s: seq<T>, x: T, y: T)
  {
    exists k :: 0 <= k < |s| && s[k] == x && forall m :: 0 <= m <= k ==> s[m] != y
  }

  /** `Distinct` lists the elements in order of their first appearance. */
  lemma {:induction false} DistinctInOrder<T(!new)>(s: seq<T>)
    ensures forall i, j :: 0 <= i < j < |Distinct(s)| ==> OccursBefore(s, Distinct(s)[i], Distinct(s)[j])
    decreases |s|
  {
    if |s| > 0 {
      var init, x := s[..|s| - 1], s[|s| - 1];
      DistinctInOrder(init);
      var d, r := Distinct(init), Distinct(s);
      forall i, j | 0 <= i < j < |r|
        ensures OccursBefore(s, r[i], r[j])
      {
        assert r[i] == d[i];
        if j < |d| {
          assert OccursBefore(init, d[i], d[j]);
          var k :| 0 <= k < |init| && init[k] == d[i] && forall m :: 0 <= m <= k ==> init[m] != d[j];
          assert s[k] == r[i] && forall m :: 0 <= m <= k ==> s[m] == init[m];
        } else {
          assert d[i] in init && x !in init;
          var k :| 0 <= k < |init| && init[k] == d[i];
          assert s[k] == r[i] && forall m :: 0 <= m <= k ==> s[m] == init[m];
        }
      }
    }
  }

  /** Filtering keeps the relative order of the kept elements. */
  lemma {:induction false} FilterKeepsOrder<T(!new)>(s: seq<T>, p: T -> bool, x: T, y: T)
    requires p(y) && OccursBefore(Filter(s, p), x, y)
    ensures OccursBefore(s, x, y)
    decreases |s|
  {
    var f := Filter(s, p);
    var k :| 0 <= k < |f| && f[k] == x && forall m :: 0 <= m <= k ==> f[m] != y;
    var rest := Filter(s[1..], p);
    var head := if p(s[0]) then [s[0]] else [];
    assert f == head + rest;
    assert s[0] != y by {
      if p(s[0]) { assert f[0] == s[0]; }
    }
    if p(s[0]) && k == 0 {
      assert s[0] == x;
    } else {
      var k' := k - |head|;
      assert rest[k'] == x;
      assert forall m :: 0 <= m <= k' ==> rest[m] == f[m + |head|];
      assert forall m :: 0 <= m <= k' ==> rest[m] != y;
      assert OccursBefore(rest, x, y);
      FilterKeepsOrder(s[1..], p, x, y);
      var t := s[1..];
      var n :| 0 <= n < |t| && t[n] == x && forall m :: 0 <= m <= n ==> t[m] != y;
      assert s[n + 1] == x;
      assert forall m :: 1 <= m <= n + 1 ==> s[m] == t[m - 1];
    }
  }

  /** `[...new Set(s.filter(p))]` lists the kept elements in order of their first appearance in `s`. */
  lemma DistinctFilterInOrder<T(!new)>(s: seq<T>, p: T -> bool)
    ensures forall i, j :: 0 <= i < j < |Distinct(Filter(s, p))| ==>
              OccursBefore(s, Distinct(Filter(s, p))[i], Distinct(Filter(s, p))[j])
  {
    var f := Filter(s, p);
    var d := Distinct(f);
    DistinctInOrder(f);
    forall i, j | 0 <= i < j < |d|
      ensures OccursBefore(s, d[i], d[j])
    {
      assert d[j] in f;
      FilterKeepsOrder(s, p, d[i], d[j]);
    }
  }
}
