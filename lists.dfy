/**
 * The JavaScript array operations the stores and the picker build their new
 * lists with. Each is defined by recursion over the list, the way the
 * array method walks it, and its contract says what the result means.
 */
module Lists {
  import opened Wrappers

  /** `s.includes(x)`. */
  function Includes<T(==)>(s: seq<T>, x: T): (b: bool)
    ensures b <==> x in s
  {
    if s == [] then false else s[0] == x || Includes(s[1..], x)
  }

  /** `s.filter(keep)`. */
  function Filter<T>(s: seq<T>, keep: T -> bool): (r: seq<T>)
    ensures |r| <= |s|
    ensures forall k :: 0 <= k < |r| ==> keep(r[k])
    ensures forall k :: 0 <= k < |r| ==> r[k] in s
    ensures forall k :: 0 <= k < |s| && keep(s[k]) ==> s[k] in r
    ensures (forall k :: 0 <= k < |s| ==> keep(s[k])) ==> r == s
  {
    if s == [] then []
    else
      var rest := Filter(s[1..], keep);
      if keep(s[0]) then [s[0]] + rest else rest
  }

  /** Filtering distributes over concatenation: survivors keep their order. */
  lemma {:induction false} FilterConcat<T>(a: seq<T>, b: seq<T>, keep: T -> bool)
    ensures Filter(a + b, keep) == Filter(a, keep) + Filter(b, keep)
  {
    if a == [] {
      assert a + b == b;
    } else {
      assert (a + b)[1..] == a[1..] + b;
      FilterConcat(a[1..], b, keep);
    }
  }

  /** Filtering keeps every occurrence of a kept value and none of a dropped one. */
  lemma {:induction false} FilterCount<T>(s: seq<T>, keep: T -> bool, x: T)
    ensures multiset(Filter(s, keep))[x] == if keep(x) then multiset(s)[x] else 0
  {
    if s != [] {
      FilterCount(s[1..], keep, x);
      assert s == [s[0]] + s[1..];
    }
  }

  /** `s.map(e => hit(e) ? x : e)`: every element that `hit` selects becomes `x`. */
  function ReplaceWhere<T>(s: seq<T>, hit: T -> bool, x: T): (r: seq<T>)
    ensures |r| == |s|
    ensures forall k :: 0 <= k < |s| ==> r[k] == if hit(s[k]) then x else s[k]
  {
    if s == [] then []
    else [if hit(s[0]) then x else s[0]] + ReplaceWhere(s[1..], hit, x)
  }

  /** Replacing where nothing matches changes nothing. */
  lemma ReplaceNoMatch<T>(s: seq<T>, hit: T -> bool, x: T)
    requires forall k :: 0 <= k < |s| ==> !hit(s[k])
    ensures ReplaceWhere(s, hit, x) == s
  {
  }

  /** `s.find(hit)`: the first element that `hit` selects, or undefined. */
  function Find<T>(s: seq<T>, hit: T -> bool): (r: Option<T>)
    ensures r.None? <==> forall k :: 0 <= k < |s| ==> !hit(s[k])
    ensures r.Some? ==> exists k :: 0 <= k < |s| && s[k] == r.value && hit(s[k]) &&
                                      forall j :: 0 <= j < k ==> !hit(s[j])
  {
    if s == [] then None
    else if hit(s[0]) then Some(s[0])
    else
      var r := Find(s[1..], hit);
      assert r.Some? ==> exists k :: 1 <= k < |s| && s[k] == r.value && hit(s[k]) &&
                                       forall j :: 1 <= j < k ==> !hit(s[j]) by {
        if r.Some? {
          var k :| 0 <= k < |s[1..]| && s[1..][k] == r.value && hit(s[1..][k]) &&
                   forall j :: 0 <= j < k ==> !hit(s[1..][j]);
          assert forall j :: 1 <= j < k + 1 ==> s[j] == s[1..][j - 1];
        }
      }
      r
  }

  /** Appending an element: a lookup finds an earlier match first, else the new element. */
  lemma {:induction false} FindAppend<T>(s: seq<T>, x: T, hit: T -> bool)
    ensures Find(s + [x], hit) ==
              if Find(s, hit).Some? then Find(s, hit)
              else if hit(x) then Some(x) else None
  {
    if s != [] {
      assert (s + [x])[1..] == s[1..] + [x];
      FindAppend(s[1..], x, hit);
    }
  }

  /** A lookup on a list filtered by the complement of its test finds nothing. */
  lemma FindAfterFilter<T>(s: seq<T>, keep: T -> bool, hit: T -> bool)
    requires forall y :: keep(y) == !hit(y)
    ensures Find(Filter(s, keep), hit) == None
  {
  }

  /** After replacing with an `x` that the test selects, a lookup returns `x` when anything matched. */
  lemma FindAfterReplace<T>(s: seq<T>, hit: T -> bool, x: T)
    requires hit(x)
    ensures Find(ReplaceWhere(s, hit, x), hit) ==
              if exists k :: 0 <= k < |s| && hit(s[k]) then Some(x) else None
  {
    var r := ReplaceWhere(s, hit, x);
    var f := Find(r, hit);
    if f.Some? {
      var k :| 0 <= k < |r| && r[k] == f.value && hit(r[k]);
      assert hit(s[k]);
    } else {
      assert forall k :: 0 <= k < |s| ==> !hit(r[k]);
    }
  }
}
