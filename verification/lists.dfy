/**
 * The array idioms the client code is built from: `xs.filter(p)`, `xs.find(p)` and
 * `xs.map(x => hit(x) ? f(x) : x)`.
 */
module Lists {
  import opened Wrappers

  /** `s.filter(keep)`: the elements that satisfy `keep`, in their original order. */
  function Filter<T>(s: seq<T>, keep: T -> bool): (r: seq<T>)
    ensures |r| <= |s|
    ensures forall i :: 0 <= i < |r| ==> r[i] in s && keep(r[i])
    ensures forall i :: 0 <= i < |s| && keep(s[i]) ==> s[i] in r
  {
    if s == [] then []
    else if keep(s[0]) then [s[0]] + Filter(s[1..], keep)
    else Filter(s[1..], keep)
  }

  /** Filtering distributes over concatenation, so the kept elements keep their order. */
  lemma {:induction false} FilterConcat<T>(a: seq<T>, b: seq<T>, keep: T -> bool)
    ensures Filter(a + b, keep) == Filter(a, keep) + Filter(b, keep)
  {
    if a != [] {
      assert (a + b)[0] == a[0] && (a + b)[1..] == a[1..] + b;
      FilterConcat(a[1..], b, keep);
      if keep(a[0]) {
        assert Filter(a + b, keep) == [a[0]] + Filter(a[1..] + b, keep);
        assert Filter(a, keep) == [a[0]] + Filter(a[1..], keep);
      }
    } else {
      assert a + b == b;
    }
  }

  /** When every element is kept, filtering changes nothing. */
  lemma {:induction false} FilterKeepsAll<T>(s: seq<T>, keep: T -> bool)
    requires forall x :: x in s ==> keep(x)
    ensures Filter(s, keep) == s
  {
    if s != [] {
      FilterKeepsAll(s[1..], keep);
    }
  }

  /** Filtering out an element appended to a list whose elements are all kept gives the list back. */
  lemma {:induction false} FilterUndoesAppend<T>(s: seq<T>, x: T, keep: T -> bool)
    requires forall y :: y in s ==> keep(y)
    requires !keep(x)
    ensures Filter(s + [x], keep) == s
  {
    FilterConcat(s, [x], keep);
    FilterKeepsAll(s, keep);
    assert Filter([x], keep) == Filter([x][1..], keep) == [];
  }

  /**
   * Removing what `hit` selects after replacing it is the same as removing it straight away,
   * when neither the selected elements nor their images survive the filter.
   */
  lemma {:induction false} FilterAfterMapWhere<T>(s: seq<T>, hit: T -> bool, f: T -> T,
                                                  keep: T -> bool)
    requires forall x :: hit(x) ==> !keep(x) && !keep(f(x))
    ensures Filter(MapWhere(s, hit, f), keep) == Filter(s, keep)
  {
    if s != [] {
      var m := MapWhere(s, hit, f);
      assert m[1..] == MapWhere(s[1..], hit, f);
      FilterAfterMapWhere(s[1..], hit, f, keep);
    }
  }

  /** Every element lands on one side of a filter and its complement. */
  lemma {:induction false} FilterPartition<T>(s: seq<T>, keep: T -> bool, drop: T -> bool)
    requires forall x :: drop(x) == !keep(x)
    ensures multiset(Filter(s, keep)) + multiset(Filter(s, drop)) == multiset(s)
    ensures |Filter(s, keep)| + |Filter(s, drop)| == |s|
  {
    if s != [] {
      FilterPartition(s[1..], keep, drop);
      assert s == [s[0]] + s[1..];
    }
  }

  /**
   * `s.map(x => hit(x) ? f(x) : x)`: the elements `hit` selects are replaced by their image
   * under `f`, every other element stays where it is.
   */
  function MapWhere<T>(s: seq<T>, hit: T -> bool, f: T -> T): (r: seq<T>)
    ensures |r| == |s|
    ensures forall i :: 0 <= i < |s| && !hit(s[i]) ==> r[i] == s[i]
    ensures forall i :: 0 <= i < |s| && hit(s[i]) ==> r[i] == f(s[i])
  {
    if s == [] then []
    else [if hit(s[0]) then f(s[0]) else s[0]] + MapWhere(s[1..], hit, f)
  }

  /** `s.find(hit)`: the first element `hit` selects, if any. */
  function Find<T>(s: seq<T>, hit: T -> bool): (r: Option<T>)
    ensures r.None? <==> forall i :: 0 <= i < |s| ==> !hit(s[i])
    ensures r.Some? ==>
              exists i :: 0 <= i < |s| && s[i] == r.value && hit(s[i])
                          && forall j :: 0 <= j < i ==> !hit(s[j])
  {
    if s == [] then None
    else if hit(s[0]) then Some(s[0])
    else
      var r := Find(s[1..], hit);
      assert r.Some? ==> exists i :: 0 <= i < |s| && s[i] == r.value && hit(s[i])
                                     && forall j :: 0 <= j < i ==> !hit(s[j]) by {
        if r.Some? {
          var i :| 0 <= i < |s[1..]| && s[1..][i] == r.value && hit(s[1..][i])
                   && forall j :: 0 <= j < i ==> !hit(s[1..][j]);
          assert s[i + 1] == r.value;
        }
      }
      r
  }
}
