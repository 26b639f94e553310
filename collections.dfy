/** Sequence helpers standing in for the LINQ and List<T> operations the plugin
    uses: Distinct, Where, Contains and List.Remove. */
module Collections {

  datatype Option<+T> = None | Some(value: T)

  datatype Result<+R, +E> = Success(value: R) | Failure(error: E)

  /** No element occurs twice. */
  predicate NoDuplicates<T(==)>(s: seq<T>) {
    forall i, j :: 0 <= i < j < |s| ==> s[i] != s[j]
  }

  /** No element of `a` occurs in `b`. */
  predicate Disjoint<T(==)>(a: seq<T>, b: seq<T>) {
    forall i, j :: 0 <= i < |a| && 0 <= j < |b| ==> a[i] != b[j]
  }

  lemma DisjointConcat<T>(a: seq<T>, b: seq<T>, c: seq<T>)
    requires Disjoint(a, c) && Disjoint(b, c)
    ensures Disjoint(a + b, c)
  {
    forall i, j | 0 <= i < |a + b| && 0 <= j < |c| ensures (a + b)[i] != c[j] {
      if i >= |a| { assert (a + b)[i] == b[i - |a|]; }
    }
  }

  /** Two duplicate-free sequences with no common element concatenate to a
      duplicate-free sequence. */
  lemma NoDuplicatesConcat<T>(a: seq<T>, b: seq<T>)
    requires NoDuplicates(a) && NoDuplicates(b) && Disjoint(a, b)
    ensures NoDuplicates(a + b)
  {
    forall i, j | 0 <= i < j < |a + b| ensures (a + b)[i] != (a + b)[j] {
      if j < |a| {
      } else if i >= |a| {
        assert (a + b)[i] == b[i - |a|] && (a + b)[j] == b[j - |a|];
      } else {
        assert (a + b)[j] == b[j - |a|];
      }
    }
  }

  /** Membership form of Disjoint. */
  lemma DisjointNotIn<T>(a: seq<T>, b: seq<T>)
    requires Disjoint(a, b)
    ensures forall x :: x in a ==> x !in b
  {
    forall x | x in a ensures x !in b {
      var i :| 0 <= i < |a| && a[i] == x;
      forall j | 0 <= j < |b| ensures b[j] != x { assert a[i] != b[j]; }
    }
  }

  lemma NoDuplicatesCons<T>(x: T, rest: seq<T>)
    ensures NoDuplicates([x] + rest) <==> x !in rest && NoDuplicates(rest)
  {
    var s := [x] + rest;
    if NoDuplicates(s) {
      forall i, j | 0 <= i < j < |rest| ensures rest[i] != rest[j] { assert s[i + 1] == rest[i] && s[j + 1] == rest[j]; }
      forall j | 0 <= j < |rest| ensures rest[j] != x { assert s[0] == x && s[j + 1] == rest[j]; }
    }
    if x !in rest && NoDuplicates(rest) {
      forall i, j | 0 <= i < j < |s| ensures s[i] != s[j] {
        if i == 0 { assert s[j] == rest[j - 1]; } else { assert s[i] == rest[i - 1] && s[j] == rest[j - 1]; }
      }
    }
  }

  /** LINQ's Distinct: the first occurrence of every element, in order of
      first appearance. Defined from the back, so that appending one element
      either leaves the result alone or appends that element. */
  function Distinct<T(==)>(s: seq<T>): (r: seq<T>)
    ensures NoDuplicates(r)
    ensures forall i :: 0 <= i < |r| ==> r[i] in s
    ensures forall i :: 0 <= i < |s| ==> s[i] in r
    ensures |r| <= |s|
  {
    if s == [] then []
    else
      var rest := Distinct(s[..|s| - 1]);
      if s[|s| - 1] in rest then rest else rest + [s[|s| - 1]]
  }

  /** `s.Count() == s.Distinct().Count()` holds exactly when no element repeats. */
  lemma {:induction false} DistinctKeepsLengthIff<T>(s: seq<T>)
    ensures |Distinct(s)| == |s| <==> NoDuplicates(s)
  {
    if s != [] {
      var p, x := s[..|s| - 1], s[|s| - 1];
      assert s == p + [x];
      DistinctKeepsLengthIff(p);
      if NoDuplicates(s) {
        assert NoDuplicates(p) by {
          forall i, j | 0 <= i < j < |p| ensures p[i] != p[j] { assert p[i] == s[i] && p[j] == s[j]; }
        }
        assert x !in p by {
          forall i | 0 <= i < |p| ensures p[i] != x { assert p[i] == s[i] && x == s[|s| - 1]; }
        }
      }
      if |Distinct(s)| == |s| {
        assert s[..|s| - 1] == p;
        assert x !in Distinct(p);
        assert x !in p;
        assert NoDuplicates(p);
        forall i, j | 0 <= i < j < |s| ensures s[i] != s[j] {
          if j == |s| - 1 { assert s[i] == p[i]; } else { assert s[i] == p[i] && s[j] == p[j]; }
        }
      }
    }
  }

  /** LINQ's Where: the elements satisfying `keep`, in their original order. */
  function Filter<T>(s: seq<T>, keep: T -> bool): (r: seq<T>)
    ensures forall i :: 0 <= i < |r| ==> r[i] in s && keep(r[i])
    ensures forall i :: 0 <= i < |s| && keep(s[i]) ==> s[i] in r
    ensures |r| <= |s|
  {
    if s == [] then []
    else (if keep(s[0]) then [s[0]] else []) + Filter(s[1..], keep)
  }

  /** Where keeps every kept element as often as the input holds it, and no
      other element. */
  lemma {:induction false} FilterCounts<T>(s: seq<T>, keep: T -> bool)
    ensures forall x :: multiset(Filter(s, keep))[x] == if keep(x) then multiset(s)[x] else 0
  {
    if s != [] {
      FilterCounts(s[1..], keep);
      var head := if keep(s[0]) then [s[0]] else [];
      assert s == [s[0]] + s[1..];
      assert Filter(s, keep) == head + Filter(s[1..], keep);
    }
  }

  /** Where keeps order: filtering a concatenation filters each part in turn. */
  lemma {:induction false} FilterAppend<T>(s: seq<T>, t: seq<T>, keep: T -> bool)
    ensures Filter(s + t, keep) == Filter(s, keep) + Filter(t, keep)
  {
    if s == [] {
      assert s + t == t;
    } else {
      assert (s + t)[0] == s[0] && (s + t)[1..] == s[1..] + t;
      FilterAppend(s[1..], t, keep);
      AppendAssoc(if keep(s[0]) then [s[0]] else [], Filter(s[1..], keep), Filter(t, keep));
    }
  }

  /** Filtering a duplicate-free sequence leaves it duplicate-free. */
  lemma {:induction false} FilterKeepsNoDuplicates<T>(s: seq<T>, keep: T -> bool)
    requires NoDuplicates(s)
    ensures NoDuplicates(Filter(s, keep))
  {
    if s != [] {
      assert NoDuplicates(s[1..]) by {
        forall i, j | 0 <= i < j < |s[1..]| ensures s[1..][i] != s[1..][j] { assert s[1..][i] == s[i + 1]; }
      }
      FilterKeepsNoDuplicates(s[1..], keep);
      var rest := Filter(s[1..], keep);
      assert s[0] !in s[1..] by {
        forall i | 0 <= i < |s[1..]| ensures s[1..][i] != s[0] { assert s[1..][i] == s[i + 1]; }
      }
      assert s[0] !in rest;
    }
  }

  /** The elements Where keeps repeat exactly when two kept positions of the
      source hold the same element. */
  lemma {:induction false} FilterNoDuplicatesIff<T>(s: seq<T>, keep: T -> bool)
    ensures NoDuplicates(Filter(s, keep)) <==>
      forall i, j :: 0 <= i < j < |s| && keep(s[i]) && keep(s[j]) ==> s[i] != s[j]
  {
    if s != [] {
      var t := s[1..];
      var rest := Filter(t, keep);
      FilterNoDuplicatesIff(t, keep);
      var tailOk := forall i, j :: 0 <= i < j < |t| && keep(t[i]) && keep(t[j]) ==> t[i] != t[j];
      var headOk := forall j :: 1 <= j < |s| && keep(s[j]) ==> s[j] != s[0];
      assert headOk <==> s[0] !in rest by {
        if s[0] in rest {
          var k :| 0 <= k < |rest| && rest[k] == s[0];
          assert rest[k] in t && keep(rest[k]);
          var m :| 0 <= m < |t| && t[m] == rest[k];
          assert s[m + 1] == s[0] && keep(s[m + 1]);
        } else {
          forall j | 1 <= j < |s| && keep(s[j]) ensures s[j] != s[0] {
            assert t[j - 1] == s[j];
          }
        }
      }
      var allOk := forall i, j :: 0 <= i < j < |s| && keep(s[i]) && keep(s[j]) ==> s[i] != s[j];
      assert allOk <==> tailOk && (keep(s[0]) ==> headOk) by {
        if allOk {
          forall i, j | 0 <= i < j < |t| && keep(t[i]) && keep(t[j]) ensures t[i] != t[j] {
            assert t[i] == s[i + 1] && t[j] == s[j + 1];
          }
        }
        if tailOk && (keep(s[0]) ==> headOk) {
          forall i, j | 0 <= i < j < |s| && keep(s[i]) && keep(s[j]) ensures s[i] != s[j] {
            if i > 0 { assert s[i] == t[i - 1] && s[j] == t[j - 1]; }
          }
        }
      }
      if keep(s[0]) {
        assert Filter(s, keep) == [s[0]] + rest;
        NoDuplicatesCons(s[0], rest);
      } else {
        assert Filter(s, keep) == rest;
      }
    }
  }

  /** List<T>.Remove: drops the first occurrence of `x`, if there is one. */
  function RemoveFirst<T(==)>(s: seq<T>, x: T): (r: seq<T>)
    ensures x !in s ==> r == s
    ensures x in s ==> |r| == |s| - 1
    ensures multiset(r) == multiset(s) - multiset{x}
  {
    if s == [] then []
    else
      assert s == [s[0]] + s[1..];
      if s[0] == x then s[1..] else [s[0]] + RemoveFirst(s[1..], x)
  }

  /** List.Remove keeps the other elements in their order: it cuts the
      sequence at the first occurrence of `x`. */
  lemma RemoveFirstKeepsOrder<T>(s: seq<T>, x: T, i: nat)
    requires i < |s| && s[i] == x && x !in s[..i]
    ensures RemoveFirst(s, x) == s[..i] + s[i + 1..]
  {
    assert s == s[..i] + ([x] + s[i + 1..]);
    RemoveFirstAfter(s[..i], x, s[i + 1..]);
  }

  lemma {:induction false} RemoveFirstAfter<T>(p: seq<T>, x: T, q: seq<T>)
    requires x !in p
    ensures RemoveFirst(p + ([x] + q), x) == p + q
  {
    if p == [] {
      assert p + ([x] + q) == [x] + q;
      assert ([x] + q)[1..] == q;
    } else {
      assert p == [p[0]] + p[1..];
      AppendAssoc([p[0]], p[1..], [x] + q);
      AppendAssoc([p[0]], p[1..], q);
      RemoveFirstAfter(p[1..], x, q);
      RemoveFirstCons(p[0], p[1..] + ([x] + q), x);
    }
  }

  lemma RemoveFirstCons<T>(y: T, s: seq<T>, x: T)
    requires y != x
    ensures RemoveFirst([y] + s, x) == [y] + RemoveFirst(s, x)
  {
    assert ([y] + s)[1..] == s;
  }

  lemma AppendAssoc<T>(a: seq<T>, b: seq<T>, c: seq<T>)
    ensures a + (b + c) == (a + b) + c
  {
  }

  /** In a sequence without repeats, an element it holds occurs once. */
  lemma {:induction false} NoDuplicatesOccursOnce<T>(s: seq<T>, x: T)
    requires NoDuplicates(s) && x in s
    ensures multiset(s)[x] == 1
  {
    var t := s[1..];
    assert s == [s[0]] + t;
    assert NoDuplicates(t) by {
      forall i, j | 0 <= i < j < |t| ensures t[i] != t[j] { assert t[i] == s[i + 1] && t[j] == s[j + 1]; }
    }
    if s[0] == x {
      assert x !in t by {
        forall k | 0 <= k < |t| ensures t[k] != x { assert t[k] == s[k + 1]; }
      }
    } else {
      NoDuplicatesOccursOnce(t, x);
    }
  }

  /** An element held at two positions occurs at least twice. */
  lemma RepeatOccursTwice<T>(s: seq<T>, i: nat, j: nat)
    requires i < j < |s| && s[i] == s[j]
    ensures multiset(s)[s[i]] >= 2
  {
    var p := s[..j];
    assert s == p + [s[j]] + s[j + 1..];
    assert p[i] == s[i];
    assert multiset(p)[s[i]] >= 1;
  }

  /** Distinct leaves a sequence without repeats exactly as it was. */
  lemma {:induction false} DistinctOfNoDuplicates<T>(s: seq<T>)
    requires NoDuplicates(s)
    ensures Distinct(s) == s
  {
    if s != [] {
      var p := s[..|s| - 1];
      assert NoDuplicates(p) by {
        forall i, j | 0 <= i < j < |p| ensures p[i] != p[j] { assert p[i] == s[i] && p[j] == s[j]; }
      }
      DistinctOfNoDuplicates(p);
      assert s[|s| - 1] !in p by {
        forall i | 0 <= i < |p| ensures p[i] != s[|s| - 1] { assert p[i] == s[i]; }
      }
      assert s == p + [s[|s| - 1]];
    }
  }

  /** Removing an element that was just appended to a sequence without it
      gives back the original sequence. */
  lemma {:induction false} RemoveFirstOfAppended<T>(s: seq<T>, x: T)
    requires x !in s
    ensures RemoveFirst(s + [x], x) == s
  {
    if s != [] {
      assert (s + [x])[1..] == s[1..] + [x];
      RemoveFirstOfAppended(s[1..], x);
    }
  }

  /** Removing one occurrence from a duplicate-free sequence keeps it
      duplicate-free and leaves no occurrence behind. */
  lemma {:induction false} RemoveFirstKeepsNoDuplicates<T>(s: seq<T>, x: T)
    requires NoDuplicates(s)
    ensures NoDuplicates(RemoveFirst(s, x))
    ensures x !in RemoveFirst(s, x)
  {
    if s != [] {
      var t := s[1..];
      assert s == [s[0]] + t;
      NoDuplicatesCons(s[0], t);
      if s[0] != x {
        RemoveFirstKeepsNoDuplicates(t, x);
        RemoveFirstConsKeepsNoDuplicates(s[0], t, x);
      }
    }
  }

  lemma RemoveFirstConsKeepsNoDuplicates<T>(y: T, t: seq<T>, x: T)
    requires y != x && y !in t && NoDuplicates(RemoveFirst(t, x)) && x !in RemoveFirst(t, x)
    ensures NoDuplicates(RemoveFirst([y] + t, x)) && x !in RemoveFirst([y] + t, x)
  {
    var rest := RemoveFirst(t, x);
    assert y !in rest by {
      assert multiset(rest) <= multiset(t);
      assert y !in multiset(t);
    }
    RemoveFirstCons(y, t, x);
    NoDuplicatesCons(y, rest);
  }
}
