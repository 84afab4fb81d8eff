/** Failure-carrying results and finite-sequence vocabulary shared by every component. */
module Prelude {

  datatype Option<+T> = None | Some(value: T)

  datatype Result<+T, +E> = Success(value: T) | Failure(error: E)

  /** The unit value of results that carry no payload. */
  datatype Unit = Unit

  const I64_MAX: int := 0x7FFF_FFFF_FFFF_FFFF
  const I64_MIN: int := -0x8000_0000_0000_0000

  /** `checked_sub` on 64-bit signed integers. */
  function CheckedSub(a: int, b: int): Option<int> {
    if I64_MIN <= a - b <= I64_MAX then Some(a - b) else None
  }

  /** Integer division as the machine performs it: the quotient is truncated toward zero. */
  function TruncDiv(a: int, b: int): int
    requires b > 0
  {
    if a >= 0 then a / b else -(-a / b)
  }

  function Abs(x: int): nat {
    if x < 0 then -x else x
  }

  function Min(a: int, b: int): int {
    if a <= b then a else b
  }

  function Max(a: int, b: int): int {
    if a <= b then b else a
  }
}

/** Distinctness of sequences and its relation to the sets that loops accumulate. */
module Sequences {
  import opened Prelude

  ghost predicate Distinct<T>(s: seq<T>) {
    forall i, j :: 0 <= i < j < |s| ==> s[i] != s[j]
  }

  ghost function Elements<T>(s: seq<T>): set<T> {
    set x | x in s
  }

  lemma DistinctSnoc<T>(s: seq<T>, x: T)
    ensures Distinct(s + [x]) <==> Distinct(s) && x !in s
  {
    var t := s + [x];
    if x in s {
      var i :| 0 <= i < |s| && s[i] == x;
      assert t[i] == t[|s|];
    }
    if Distinct(t) {
      forall i, j | 0 <= i < j < |s| ensures s[i] != s[j] {
        assert t[i] == s[i] && t[j] == s[j];
      }
    }
  }

  lemma RepeatInPrefix<T>(s: seq<T>, n: nat)
    requires n <= |s| && !Distinct(s[..n])
    ensures !Distinct(s)
  {
    var i, j :| 0 <= i < j < n && s[..n][i] == s[..n][j];
    assert s[i] == s[j];
  }

  lemma {:induction false} DistinctCardinality<T>(s: seq<T>)
    ensures |Elements(s)| <= |s|
    ensures |Elements(s)| == |s| <==> Distinct(s)
  {
    if s == [] {
      assert Elements(s) == {};
    } else {
      var p, x := s[..|s| - 1], s[|s| - 1];
      assert s == p + [x];
      DistinctCardinality(p);
      DistinctSnoc(p, x);
      assert Elements(s) == Elements(p) + {x};
    }
  }

  lemma SubsetCardinality<T>(a: set<T>, b: set<T>)
    requires a <= b
    ensures |a| <= |b|
  {
    if a == {} {
    } else {
      var x :| x in a;
      SubsetCardinality(a - {x}, b - {x});
    }
  }

  /** A permutation has the same members, and is duplicate-free when the original is. */
  lemma PermutationDistinct<T>(s: seq<T>, t: seq<T>)
    requires multiset(s) == multiset(t)
    ensures forall x :: x in s <==> x in t
    ensures Distinct(s) <==> Distinct(t)
  {
    forall x ensures x in s <==> x in t {
      assert x in multiset(s) <==> x in multiset(t);
    }
    assert Elements(s) == Elements(t);
    assert |s| == |multiset(s)| == |multiset(t)| == |t|;
    DistinctCardinality(s);
    DistinctCardinality(t);
  }

  function Without<T>(s: seq<T>, k: nat): seq<T>
    requires k < |s|
  {
    s[..k] + s[k + 1..]
  }

  lemma WithoutMultiset<T>(s: seq<T>, k: nat)
    requires k < |s|
    ensures multiset(Without(s, k)) == multiset(s) - multiset{s[k]}
  {
    assert s == s[..k] + [s[k]] + s[k + 1..];
  }

  /** A permutation of a nonempty sequence holds its first element somewhere, and permutes the rest. */
  lemma PermutationStep<T>(s: seq<T>, t: seq<T>) returns (k: nat)
    requires |s| > 0 && multiset(s) == multiset(t)
    ensures k < |t| && t[k] == s[0] && multiset(s[1..]) == multiset(Without(t, k))
  {
    assert s[0] in multiset(s);
    assert s[0] in multiset(t);
    k :| k < |t| && t[k] == s[0];
    WithoutMultiset(s, 0);
    WithoutMultiset(t, k);
    assert Without(s, 0) == s[1..];
  }

  /** Appending keeps a sequence duplicate-free exactly when each new element is new at its place. */
  lemma {:induction false} DistinctAppend<T>(p: seq<T>, t: seq<T>)
    ensures Distinct(p + t) <==> Distinct(p) && forall j :: 0 <= j < |t| ==> t[j] !in p + t[..j]
    decreases |t|
  {
    if |t| == 0 {
      assert p + t == p;
    } else {
      var n := |t| - 1;
      var u := t[..n];
      DistinctAppend(p, u);
      assert p + t == (p + u) + [t[n]];
      DistinctSnoc(p + u, t[n]);
      assert forall j :: 0 <= j < n ==> u[j] == t[j] && u[..j] == t[..j];
    }
  }

  /** Duplicate-free means each element is new at its place. */
  lemma DistinctIndexed<T>(t: seq<T>)
    ensures Distinct(t) <==> forall j :: 0 <= j < |t| ==> t[j] !in t[..j]
  {
    if Distinct(t) {
      forall j | 0 <= j < |t| ensures t[j] !in t[..j] {
        assert forall i :: 0 <= i < j ==> t[..j][i] == t[i] != t[j];
      }
    }
    if i, j :| 0 <= i < j < |t| && t[i] == t[j] {
      assert t[..j][i] == t[j];
    }
  }

  /** The first failure among a sequence of checks. */
  function First<E>(checks: seq<Option<E>>): Option<E> {
    if |checks| == 0 then None
    else if checks[0].Some? then checks[0]
    else First(checks[1..])
  }

  lemma {:induction false} FirstNone<E>(checks: seq<Option<E>>)
    ensures First(checks) == None <==> forall i :: 0 <= i < |checks| ==> checks[i] == None
    decreases |checks|
  {
    if |checks| == 0 {
    } else {
      FirstNone(checks[1..]);
      assert forall i :: 0 < i < |checks| ==> checks[i] == checks[1..][i - 1];
    }
  }

  lemma {:induction false} FirstAt<E>(checks: seq<Option<E>>, k: nat)
    requires k < |checks| && checks[k].Some?
    requires forall i :: 0 <= i < k ==> checks[i] == None
    ensures First(checks) == checks[k]
    decreases k
  {
    if k == 0 {
    } else {
      FirstAt(checks[1..], k - 1);
    }
  }

  lemma {:induction false} FirstFound<E>(checks: seq<Option<E>>) returns (k: nat)
    requires First(checks).Some?
    ensures k < |checks| && checks[k] == First(checks) && forall i :: 0 <= i < k ==> checks[i] == None
    decreases |checks|
  {
    if checks[0].Some? {
      k := 0;
    } else {
      k := FirstFound(checks[1..]);
      assert forall i :: 0 < i <= k + 1 ==> checks[i] == checks[1..][i - 1];
      k := k + 1;
    }
  }
}
