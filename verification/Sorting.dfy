/** Sorting by a numeric key, and what strictly sorted sequences determine. */
module Sorting {

  predicate Sorted<T>(s: seq<T>, key: T -> nat) { forall i, j :: 0 <= i < j < |s| ==> key(s[i]) <= key(s[j]) }

  predicate Strict<T>(s: seq<T>, key: T -> nat) { forall i, j :: 0 <= i < j < |s| ==> key(s[i]) < key(s[j]) }

  predicate NoDuplicates<T(==)>(s: seq<T>) { forall i, j :: 0 <= i < j < |s| ==> s[i] != s[j] }

  function Elements<T>(s: seq<T>): set<T> { set x | x in s }

  /** The place where a key belongs. */
  method Insert<T>(s: seq<T>, x: T, key: T -> nat) returns (t: seq<T>)
    requires Sorted(s, key)
    ensures Sorted(t, key) && multiset(t) == multiset(s) + multiset{x}
  {
    var i := |s|;
    while i > 0 && key(x) < key(s[i - 1])
      invariant 0 <= i <= |s| && forall j :: i <= j < |s| ==> key(x) <= key(s[j])
    {
      i := i - 1;
    }
    InsertSorted(s, i, x, key);
    t := s[..i] + [x] + s[i..];
    assert s == s[..i] + s[i..];
  }

  lemma InsertSorted<T>(s: seq<T>, i: nat, x: T, key: T -> nat)
    requires Sorted(s, key) && i <= |s| && (i > 0 ==> key(s[i - 1]) <= key(x))
    requires forall j :: i <= j < |s| ==> key(x) <= key(s[j])
    ensures Sorted(s[..i] + [x] + s[i..], key)
  {
    var t := s[..i] + [x] + s[i..];
    forall a, b | 0 <= a < b < |t| ensures key(t[a]) <= key(t[b]) {
      if b == i {
        assert a < i && t[a] == s[a] && (a < i - 1 ==> key(s[a]) <= key(s[i - 1]));
      }
    }
  }

  lemma ElementsAppend<T>(s: seq<T>, x: T)
    ensures Elements(s + [x]) == Elements(s) + {x}
  {
  }

  method SortBy<T>(s: seq<T>, key: T -> nat) returns (t: seq<T>)
    ensures Sorted(t, key) && multiset(t) == multiset(s)
  {
    t := [];
    for i := 0 to |s|
      invariant Sorted(t, key) && multiset(t) == multiset(s[..i])
    {
      assert s[..i + 1] == s[..i] + [s[i]];
      t := Insert(t, s[i], key);
    }
    assert s[..|s|] == s;
  }

  /** A strictly sorted sequence is the only sorted arrangement of its elements. */
  lemma {:induction false} SortedUnique<T>(s: seq<T>, t: seq<T>, key: T -> nat)
    requires Strict(s, key) && Sorted(t, key) && multiset(s) == multiset(t)
    ensures s == t
    decreases |s|
  {
    assert |s| == |multiset(s)| == |multiset(t)| == |t|;
    if s != [] {
      FirstIsLeast(s, t, key);
      DropFirst(s);
      DropFirst(t);
      SortedUnique(s[1..], t[1..], key);
    }
  }

  lemma DropFirst<T>(s: seq<T>)
    requires s != []
    ensures s == [s[0]] + s[1..] && multiset(s[1..]) == multiset(s) - multiset{s[0]}
  {
    assert s == [s[0]] + s[1..];
  }

  lemma FirstIsLeast<T>(s: seq<T>, t: seq<T>, key: T -> nat)
    requires s != [] && t != [] && Strict(s, key) && Sorted(t, key) && multiset(s) == multiset(t)
    ensures s[0] == t[0]
  {
    assert s[0] in multiset(t) && t[0] in multiset(s);
    var i :| 0 <= i < |t| && t[i] == s[0];
    var j :| 0 <= j < |s| && s[j] == t[0];
    assert key(t[0]) <= key(t[i]);
    StrictFirst(s, key, j);
  }

  lemma StrictFirst<T>(s: seq<T>, key: T -> nat, j: nat)
    requires Strict(s, key) && j < |s|
    ensures key(s[0]) <= key(s[j]) && (key(s[0]) == key(s[j]) ==> j == 0)
  {
  }

  lemma {:induction false} ElementsCount<T>(s: seq<T>)
    ensures |Elements(s)| <= |s|
    ensures |Elements(s)| == |s| <==> NoDuplicates(s)
  {
    if s != [] {
      var n := |s| - 1;
      var front := s[..n];
      ElementsCount(front);
      assert s == front + [s[n]];
      assert Elements(s) == Elements(front) + {s[n]};
      if NoDuplicates(s) {
        assert s[n] !in front;
      }
    }
  }

  lemma PermutationElements<T>(s: seq<T>, t: seq<T>)
    requires multiset(s) == multiset(t)
    ensures |s| == |t| && Elements(s) == Elements(t)
    ensures NoDuplicates(s) ==> NoDuplicates(t)
  {
    assert |multiset(s)| == |s| && |multiset(t)| == |t|;
    assert forall x :: x in s <==> x in multiset(s);
    assert forall x :: x in t <==> x in multiset(t);
    ElementsCount(s);
    ElementsCount(t);
  }

  /** `dedup` on a sorted sequence of numbers: consecutive repeats are dropped. */
  method Dedup(s: seq<nat>) returns (t: seq<nat>)
    requires Sorted(s, (x: nat) => x)
    ensures Strict(t, (x: nat) => x) && Elements(t) == Elements(s)
  {
    t := [];
    for i := 0 to |s|
      invariant Strict(t, (x: nat) => x) && Elements(t) == Elements(s[..i])
      invariant t == [] <==> i == 0
      invariant i > 0 ==> t[|t| - 1] == s[i - 1]
    {
      assert s[..i + 1] == s[..i] + [s[i]];
      ElementsAppend(s[..i], s[i]);
      ElementsAppend(t, s[i]);
      if i == 0 || t[|t| - 1] != s[i] {
        LastIsLargest(t, s[i]);
        t := t + [s[i]];
      }
    }
    assert s[..|s|] == s;
  }

  lemma LastIsLargest(t: seq<nat>, x: nat)
    requires Strict(t, (x: nat) => x) && (t != [] ==> t[|t| - 1] < x)
    ensures Strict(t + [x], (x: nat) => x)
  {
  }

  /** Rearranging adds no duplicates. */
  lemma SameDuplicates<T>(s: seq<T>, t: seq<T>)
    requires NoDuplicates(s) && multiset(s) == multiset(t)
    ensures NoDuplicates(t)
  {
    forall i, j | 0 <= i < j < |t| ensures t[i] != t[j] {
      if t[i] == t[j] {
        CountTwice(t, i, j);
        CountOnce(s, t[i]);
        assert false;
      }
    }
  }

  lemma CountTwice<T>(t: seq<T>, i: nat, j: nat)
    requires i < j < |t| && t[i] == t[j]
    ensures multiset(t)[t[i]] >= 2
  {
    assert t == t[..i] + [t[i]] + t[i + 1..j] + [t[j]] + t[j + 1..];
  }

  lemma {:induction false} CountOnce<T>(s: seq<T>, x: T)
    requires NoDuplicates(s)
    ensures multiset(s)[x] <= 1
  {
    if s != [] {
      var front := s[..|s| - 1];
      assert s == front + [s[|s| - 1]];
      CountOnce(front, x);
      if x == s[|s| - 1] {
        assert x !in front;
      }
    }
  }
}
