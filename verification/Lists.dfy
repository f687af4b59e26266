/** Finite lists as sequences, and the facts about them that the models share. */
module Lists {

  datatype Option<+T> = None | Some(value: T)

  ghost predicate Distinct<T>(s: seq<T>) {
    forall i, j :: 0 <= i < j < |s| ==> s[i] != s[j]
  }

  predicate Below(s: seq<nat>, n: nat) {
    forall i :: 0 <= i < |s| ==> s[i] < n
  }

  /** The position of the first occurrence of `x`. */
  function IndexOf<T(==)>(s: seq<T>, x: T): (k: nat)
    requires x in s
    ensures k < |s| && s[k] == x && x !in s[..k]
  {
    if s[0] == x then 0 else 1 + IndexOf(s[1..], x)
  }

  /** The list without its first occurrence of `x`. */
  function Without<T(==)>(s: seq<T>, x: T): (r: seq<T>) {
    if x in s then s[..IndexOf(s, x)] + s[IndexOf(s, x) + 1..] else s
  }

  function MoveToFront<T(==)>(s: seq<T>, x: T): (r: seq<T>) {
    [x] + Without(s, x)
  }

  function Last<T>(s: seq<T>): T
    requires s != []
  {
    s[|s| - 1]
  }

  function Prefix<T>(s: seq<T>, n: nat): seq<T> {
    if n <= |s| then s[..n] else s
  }

  lemma SameHead<T>(head: seq<T>, a: seq<T>, b: seq<T>)
    ensures head + a == head + b <==> a == b
  {
    assert (head + a)[|head|..] == a && (head + b)[|head|..] == b;
  }

  function Repeat<T>(x: T, n: nat): (s: seq<T>)
    ensures |s| == n && forall i :: 0 <= i < n ==> s[i] == x
  {
    if n == 0 then [] else [x] + Repeat(x, n - 1)
  }

  lemma WithoutSplits<T>(s: seq<T>, x: T)
    requires x in s
    ensures var k := IndexOf(s, x); k < |s| && Without(s, x) == s[..k] + s[k + 1..]
  {
  }

  /** Where every element of the list stands after one of its elements moved to the front. */
  lemma MoveToFrontAt<T>(s: seq<T>, x: T)
    requires Distinct(s) && x in s
    ensures var k := IndexOf(s, x); var r := MoveToFront(s, x);
            && |r| == |s|
            && r[0] == x
            && (forall i :: 1 <= i <= k ==> r[i] == s[i - 1])
            && (forall i :: k < i < |s| ==> r[i] == s[i])
  {
    WithoutSplits(s, x);
  }

  lemma MoveToFrontShifts<T>(s: seq<T>, x: T, i: nat)
    requires Distinct(s) && x in s && 0 < i < |s|
    ensures var j := if i <= IndexOf(s, x) then i - 1 else i;
            MoveToFront(s, x)[i] == s[j] && s[j] != x
  {
    MoveToFrontAt(s, x);
    assert s[IndexOf(s, x)] == x;
  }

  lemma MoveToFrontDistinct<T>(s: seq<T>, x: T)
    requires Distinct(s)
    ensures Distinct(MoveToFront(s, x))
  {
    var r := MoveToFront(s, x);
    forall i, j | 0 <= i < j < |r| ensures r[i] != r[j] {
      if x in s {
        MoveToFrontShifts(s, x, j);
        if i > 0 { MoveToFrontShifts(s, x, i); }
      }
    }
  }

  lemma MoveToFrontElements<T>(s: seq<T>, x: T, y: T)
    ensures y in MoveToFront(s, x) <==> y == x || y in s
  {
    if x in s {
      var k := IndexOf(s, x);
      assert s == s[..k] + [x] + s[k + 1..];
    }
  }

  lemma WithoutAt<T>(s: seq<T>, x: T, i: nat)
    requires x in s && i < |Without(s, x)|
    ensures var j := if i < IndexOf(s, x) then i else i + 1; j < |s| && Without(s, x)[i] == s[j]
  {
    WithoutSplits(s, x);
  }

  lemma WithoutDistinct<T>(s: seq<T>, x: T)
    requires Distinct(s) && x in s
    ensures Distinct(Without(s, x)) && x !in Without(s, x)
  {
    var r := Without(s, x);
    forall i, j | 0 <= i < j < |r| ensures r[i] != r[j] {
      WithoutAt(s, x, i);
      WithoutAt(s, x, j);
    }
    forall i | 0 <= i < |r| ensures r[i] != x { WithoutAt(s, x, i); }
  }

  lemma WithoutElements<T>(s: seq<T>, x: T, y: T)
    requires Distinct(s) && x in s
    ensures y in Without(s, x) <==> y in s && y != x
  {
    WithoutDistinct(s, x);
    var k := IndexOf(s, x);
    assert s == s[..k] + [x] + s[k + 1..];
  }

  lemma DistinctAppend<T>(s: seq<T>, x: T)
    requires Distinct(s) && x !in s
    ensures Distinct(s + [x])
  {
  }

  ghost function Range(n: nat): (r: set<nat>)
    ensures |r| == n
    ensures forall i: nat :: i in r <==> i < n
  {
    if n == 0 then {} else Range(n - 1) + {n - 1}
  }

  lemma {:induction false} DistinctSize<T>(s: seq<T>)
    requires Distinct(s)
    ensures |set x | x in s| == |s|
  {
    if s == [] {
    } else {
      var init, x := s[..|s| - 1], s[|s| - 1];
      DistinctSize(init);
      assert s == init + [x];
      assert (set y | y in s) == (set y | y in init) + {x};
    }
  }

  lemma SubsetSize<T>(a: set<T>, b: set<T>)
    requires a <= b
    ensures |a| <= |b|
  {
    assert b == a + (b - a);
  }

  /** A list without repetitions of numbers below `n` has at most `n` entries. */
  lemma Pigeonhole(s: seq<nat>, n: nat)
    requires Distinct(s)
    requires Below(s, n)
    ensures |s| <= n
  {
    DistinctSize(s);
    SubsetSize((set x | x in s), Range(n));
  }

  lemma {:induction false} ElementsSize<T>(s: seq<T>)
    ensures |set x | x in s| <= |s|
  {
    if s == [] {
    } else {
      var init := s[..|s| - 1];
      ElementsSize(init);
      assert s == init + [s[|s| - 1]];
      assert (set x | x in s) == (set x | x in init) + {s[|s| - 1]};
    }
  }

  lemma CoveredSize<T>(a: seq<T>, b: seq<T>)
    requires Distinct(a)
    requires forall x :: x in a ==> x in b
    ensures |a| <= |b|
  {
    DistinctSize(a);
    ElementsSize(b);
    SubsetSize((set x | x in a), (set x | x in b));
  }
}
