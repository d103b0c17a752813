/** The array operations the screens are built from: `filter` and `find`.
    Every filtered view of the dashboard is an instance of `Filter`, and every
    lookup by id or e-mail an instance of `Find`. */
module Listas {
  import opened Tipos

  /** `Array.prototype.filter`: the elements that satisfy `p`, in their order. */
  function Filter<T>(s: seq<T>, p: T -> bool): (r: seq<T>)
    ensures |r| <= |s|
    ensures forall i :: 0 <= i < |r| ==> r[i] in s && p(r[i])
    ensures forall i :: 0 <= i < |s| && p(s[i]) ==> s[i] in r
  {
    if s == [] then []
    else (if p(s[0]) then [s[0]] else []) + Filter(s[1..], p)
  }

  /** `r` can be obtained from `s` by deleting elements: `r` keeps the
      relative order that its elements have in `s`. */
  ghost predicate Subsecuencia<T>(r: seq<T>, s: seq<T>)
    decreases |s|
  {
    if r == [] then true
    else if s == [] then false
    else (r[0] == s[0] && Subsecuencia(r[1..], s[1..])) || Subsecuencia(r, s[1..])
  }

  lemma {:induction false} FilterSubsecuencia<T>(s: seq<T>, p: T -> bool)
    ensures Subsecuencia(Filter(s, p), s)
    decreases |s|
  {
    if s != [] {
      FilterSubsecuencia(s[1..], p);
      var r := Filter(s, p);
      if p(s[0]) {
        assert r[0] == s[0] && r[1..] == Filter(s[1..], p);
      } else {
        assert r == Filter(s[1..], p);
      }
    }
  }

  /** Filtering distributes over concatenation: what comes first in the input
      comes first in the output. */
  lemma {:induction false} FilterConcat<T>(a: seq<T>, b: seq<T>, p: T -> bool)
    ensures Filter(a + b, p) == Filter(a, p) + Filter(b, p)
    decreases |a|
  {
    if a != [] {
      assert (a + b)[0] == a[0];
      assert (a + b)[1..] == a[1..] + b;
      FilterConcat(a[1..], b, p);
    } else {
      assert a + b == b;
    }
  }

  /** Each element occurs in the output as often as in the input when it
      satisfies `p`, and never otherwise. */
  lemma {:induction false} FilterCuenta<T>(s: seq<T>, p: T -> bool, x: T)
    ensures multiset(Filter(s, p))[x] == if p(x) then multiset(s)[x] else 0
    decreases |s|
  {
    if s != [] {
      FilterCuenta(s[1..], p, x);
      assert s == [s[0]] + s[1..];
      assert multiset(s) == multiset([s[0]]) + multiset(s[1..]);
    }
  }

  /** A filter applied twice gives what it gives once. */
  lemma {:induction false} FilterIdempotente<T>(s: seq<T>, p: T -> bool)
    ensures Filter(Filter(s, p), p) == Filter(s, p)
    decreases |s|
  {
    if s != [] {
      FilterIdempotente(s[1..], p);
      var head := if p(s[0]) then [s[0]] else [];
      FilterConcat(head, Filter(s[1..], p), p);
    }
  }

  /** A filter every element passes is the identity. */
  lemma {:induction false} FilterTodos<T>(s: seq<T>, p: T -> bool)
    requires forall i :: 0 <= i < |s| ==> p(s[i])
    ensures Filter(s, p) == s
    decreases |s|
  {
    if s != [] {
      FilterTodos(s[1..], p);
      assert s == [s[0]] + s[1..];
    }
  }

  /** Two predicates that agree on the elements of `s` filter it alike. */
  lemma {:induction false} FilterCongruente<T>(s: seq<T>, p: T -> bool, q: T -> bool)
    requires forall i :: 0 <= i < |s| ==> p(s[i]) == q(s[i])
    ensures Filter(s, p) == Filter(s, q)
    decreases |s|
  {
    if s != [] {
      FilterCongruente(s[1..], p, q);
    }
  }

  /** Filtering by `p` and then by `q` is filtering by their conjunction. */
  lemma {:induction false} FilterConjuncion<T>(s: seq<T>, p: T -> bool, q: T -> bool, pq: T -> bool)
    requires forall x :: pq(x) == (p(x) && q(x))
    ensures Filter(Filter(s, p), q) == Filter(s, pq)
    decreases |s|
  {
    if s != [] {
      FilterConjuncion(s[1..], p, q, pq);
      var head := if p(s[0]) then [s[0]] else [];
      FilterConcat(head, Filter(s[1..], p), q);
    }
  }

  /** Two predicates that no element satisfies together select at most
      `|s|` elements between them. */
  lemma {:induction false} FilterDisjuntos<T>(s: seq<T>, p: T -> bool, q: T -> bool)
    requires forall i :: 0 <= i < |s| ==> !(p(s[i]) && q(s[i]))
    ensures |Filter(s, p)| + |Filter(s, q)| <= |s|
    decreases |s|
  {
    if s != [] {
      FilterDisjuntos(s[1..], p, q);
    }
  }

  /** `Array.prototype.find`: the first element that satisfies `p`. */
  function Find<T>(s: seq<T>, p: T -> bool): (r: Option<T>)
    ensures r.None? <==> forall i :: 0 <= i < |s| ==> !p(s[i])
    ensures r.Some? ==> exists i :: 0 <= i < |s| && s[i] == r.value && p(s[i])
                                    && forall j :: 0 <= j < i ==> !p(s[j])
  {
    if s == [] then None
    else if p(s[0]) then Some(s[0])
    else
      var r := Find(s[1..], p);
      assert r.Some? ==> exists i :: 0 <= i < |s| - 1 && s[1..][i] == r.value && p(s[1..][i])
                                     && forall j :: 0 <= j < i ==> !p(s[1..][j]);
      assert r.Some? ==> exists i :: 1 <= i < |s| && s[i] == r.value && p(s[i])
                                     && forall j :: 0 <= j < i ==> !p(s[j]) by {
        if r.Some? {
          var i :| 0 <= i < |s| - 1 && s[1..][i] == r.value && p(s[1..][i])
                   && forall j :: 0 <= j < i ==> !p(s[1..][j]);
          assert s[i + 1] == r.value && forall j :: 0 <= j < i + 1 ==> !p(s[j]);
        }
      }
      r
  }
}
