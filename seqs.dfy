/** Generic sequence helpers: an optional value, first-match search and
    order-preserving filtering. Every "first match wins" loop and every
    list comprehension of the scorecard is specified with these. */
module Seqs {

  datatype Option<T> = None | Some(value: T)

  /** `k` is the index of the first element of `s` that satisfies `p`. */
  ghost predicate FirstMatchAt<T>(s: seq<T>, p: T -> bool, k: int)
  {
    0 <= k < |s| && p(s[k]) && forall j :: 0 <= j < k ==> !p(s[j])
  }

  /** The index of the first element of `s` satisfying `p`, or None. */
  function FindFirst<T>(s: seq<T>, p: T -> bool): (r: Option<nat>)
    ensures r.Some? ==> FirstMatchAt(s, p, r.value)
    ensures r.None? <==> forall j :: 0 <= j < |s| ==> !p(s[j])
  {
    if s == [] then None
    else if p(s[0]) then Some(0)
    else match FindFirst(s[1..], p)
      case None => None
      case Some(k) =>
        assert forall j :: 1 <= j < k + 1 ==> s[j] == s[1..][j - 1];
        Some(k + 1)
  }

  /** A first match, once found, is what FindFirst reports. */
  lemma FindFirstAt<T>(s: seq<T>, p: T -> bool, k: int)
    requires FirstMatchAt(s, p, k)
    ensures FindFirst(s, p) == Some(k)
  {
  }

  /** FindFirst succeeds exactly when some element satisfies `p`. */
  lemma FindFirstFound<T>(s: seq<T>, p: T -> bool)
    ensures FindFirst(s, p).Some? <==> exists x :: x in s && p(x)
  {
    if FindFirst(s, p).None? {
      forall x | x in s ensures !p(x) {
        var i :| 0 <= i < |s| && s[i] == x;
      }
    }
  }

  /** The elements of `s` that satisfy `p`, in their order in `s`. */
  function Filter<T>(s: seq<T>, p: T -> bool): (r: seq<T>)
    ensures |r| <= |s|
  {
    if s == [] then []
    else Filter(s[..|s| - 1], p) + (if p(s[|s| - 1]) then [s[|s| - 1]] else [])
  }

  /** Filter keeps exactly the elements that satisfy `p`. */
  lemma {:induction false} FilterMembers<T>(s: seq<T>, p: T -> bool)
    ensures forall i :: 0 <= i < |Filter(s, p)| ==> Filter(s, p)[i] in s && p(Filter(s, p)[i])
    ensures forall i :: 0 <= i < |s| && p(s[i]) ==> s[i] in Filter(s, p)
  {
    if s != [] {
      var init, last := s[..|s| - 1], s[|s| - 1];
      assert s == init + [last];
      FilterMembers(init, p);
      var f := Filter(init, p);
      assert Filter(s, p) == f + (if p(last) then [last] else []);
      forall i | 0 <= i < |s| && p(s[i]) ensures s[i] in Filter(s, p) {
        if i < |init| {
          assert s[i] == init[i];
        }
      }
    }
  }

  /** Filtering one more element appends that element exactly when it passes. */
  lemma FilterSnoc<T>(s: seq<T>, x: T, p: T -> bool)
    ensures Filter(s + [x], p) == Filter(s, p) + (if p(x) then [x] else [])
  {
    assert (s + [x])[..|s|] == s;
  }

  /** Filtering commutes with concatenation, so it keeps the relative order
      of the elements it retains. */
  lemma {:induction false} FilterAppend<T>(a: seq<T>, b: seq<T>, p: T -> bool)
    ensures Filter(a + b, p) == Filter(a, p) + Filter(b, p)
  {
    if b == [] {
      assert a + b == a;
    } else {
      var init, last := b[..|b| - 1], b[|b| - 1];
      assert b == init + [last];
      assert a + b == (a + init) + [last];
      FilterAppend(a, init, p);
      FilterSnoc(a + init, last, p);
      FilterSnoc(init, last, p);
    }
  }

  /** Filtering a prefix yields a prefix of the filtered whole. */
  lemma FilterPrefix<T>(s: seq<T>, n: nat, p: T -> bool)
    requires n <= |s|
    ensures Filter(s[..n], p) <= Filter(s, p)
  {
    assert s == s[..n] + s[n..];
    FilterAppend(s[..n], s[n..], p);
  }

  /** `[f(x) for x in s]`, built from the front as a loop appends. */
  function Map<A, B>(s: seq<A>, f: A -> B): seq<B>
  {
    if s == [] then [] else Map(s[..|s| - 1], f) + [f(s[|s| - 1])]
  }

  /** Element i of the mapped sequence is f of element i. */
  lemma {:induction false} MapAt<A, B>(s: seq<A>, f: A -> B)
    ensures |Map(s, f)| == |s|
    ensures forall i :: 0 <= i < |s| ==> Map(s, f)[i] == f(s[i])
  {
    if s != [] {
      MapAt(s[..|s| - 1], f);
    }
  }
}
