// Lexicographic keys and sorting by them.

/** Tuples of small numbers and text compare as sequences of numbers. */
module Ranking {

  predicate Less(a: seq<nat>, b: seq<nat>) {
    b != [] && (a == [] || a[0] < b[0] || (a[0] == b[0] && Less(a[1..], b[1..])))
  }

  lemma {:induction false} LessIsTotal(a: seq<nat>, b: seq<nat>)
    ensures Less(a, b) || a == b || Less(b, a)
    ensures !(Less(a, b) && Less(b, a)) && !Less(a, a)
    decreases |a|
  {
    if a != [] && b != [] {
      LessIsTotal(a[1..], b[1..]);
      assert a == [a[0]] + a[1..] && b == [b[0]] + b[1..];
    }
    if a != [] {
      LessIsTotal(a[1..], a[1..]);
    }
  }

  lemma {:induction false} LessIsTransitive(a: seq<nat>, b: seq<nat>, c: seq<nat>)
    requires !Less(b, a) && !Less(c, b)
    ensures !Less(c, a)
    ensures Less(a, b) || Less(b, c) ==> Less(a, c)
    decreases |a|
  {
    if a != [] && b != [] && c != [] && a[0] == b[0] == c[0] {
      LessIsTransitive(a[1..], b[1..], c[1..]);
    }
  }

  function Codes(s: string): seq<nat> {
    seq(|s|, k requires 0 <= k < |s| => s[k] as nat)
  }

  lemma CodesInjective(s: string, t: string)
    requires Codes(s) == Codes(t)
    ensures s == t
  {
    assert |s| == |Codes(s)| == |t|;
    forall k | 0 <= k < |s|
      ensures s[k] == t[k]
    {
      assert Codes(s)[k] == Codes(t)[k];
    }
  }

  /** `b` comes after `a`: they first differ at `n`, where `a` ends or is smaller. */
  predicate DiffersAt(a: seq<nat>, b: seq<nat>, n: nat) {
    n <= |a| && n < |b| && a[..n] == b[..n] && (n == |a| || a[n] < b[n])
  }

  lemma {:induction false} LessIsLexicographic(a: seq<nat>, b: seq<nat>)
    ensures Less(a, b) <==> exists n: nat :: DiffersAt(a, b, n)
    decreases |a|
  {
    if b == [] {
    } else if a == [] || a[0] < b[0] {
      assert DiffersAt(a, b, 0);
    } else if a[0] == b[0] {
      LessIsLexicographic(a[1..], b[1..]);
      if n: nat :| DiffersAt(a[1..], b[1..], n) {
        DiffersLater(a, b, n);
      }
      if n: nat :| DiffersAt(a, b, n) {
        assert n > 0;
        DiffersEarlier(a, b, n);
      }
    } else {
      assert forall n: nat :: n > 0 && n <= |a| && n <= |b| ==> a[..n][0] != b[..n][0];
    }
  }

  lemma DiffersLater(a: seq<nat>, b: seq<nat>, n: nat)
    requires a != [] && b != [] && a[0] == b[0] && DiffersAt(a[1..], b[1..], n)
    ensures DiffersAt(a, b, n + 1)
  {
    assert a[..n + 1] == [a[0]] + a[1..][..n] && b[..n + 1] == [b[0]] + b[1..][..n];
  }

  lemma DiffersEarlier(a: seq<nat>, b: seq<nat>, n: nat)
    requires n > 0 && DiffersAt(a, b, n)
    ensures DiffersAt(a[1..], b[1..], n - 1)
  {
    assert a[1..][..n - 1] == a[..n][1..] && b[1..][..n - 1] == b[..n][1..];
  }

  /** Text is ordered by its characters, a beginning before what it begins. */
  lemma TextOrder(s: string, t: string)
    ensures Less(Codes(s), Codes(t)) <==>
              exists n: nat :: n <= |s| && n < |t| && s[..n] == t[..n] && (n == |s| || s[n] < t[n])
  {
    LessIsLexicographic(Codes(s), Codes(t));
    if n: nat :| DiffersAt(Codes(s), Codes(t), n) {
      forall k | 0 <= k < n
        ensures s[k] == t[k]
      {
        assert Codes(s)[..n][k] == Codes(t)[..n][k];
      }
      assert s[..n] == t[..n];
      assert n < |s| ==> Codes(s)[n] < Codes(t)[n];
    }
    if n: nat :| n <= |s| && n < |t| && s[..n] == t[..n] && (n == |s| || s[n] < t[n]) {
      forall k | 0 <= k < n
        ensures Codes(s)[k] == Codes(t)[k]
      {
        assert s[..n][k] == t[..n][k];
      }
      assert DiffersAt(Codes(s), Codes(t), n);
    }
  }

  lemma SameMembers<T(!new)>(s: seq<T>, t: seq<T>)
    requires multiset(s) == multiset(t)
    ensures forall x :: x in s <==> x in t
  {
    forall x
      ensures x in s <==> x in t
    {
      assert x in s <==> x in multiset(s);
      assert x in t <==> x in multiset(t);
    }
  }

  ghost predicate Distinct<T>(s: seq<T>) {
    forall i, j :: 0 <= i < j < |s| ==> s[i] != s[j]
  }

  lemma {:induction false} DistinctCounts<T(!new)>(s: seq<T>)
    ensures Distinct(s) <==> forall x :: x in s ==> multiset(s)[x] == 1
  {
    if s != [] {
      var n := |s| - 1;
      var rest, last := s[..n], s[n];
      assert s == rest + [last];
      DistinctCounts(rest);
      assert multiset(s) == multiset(rest) + multiset{last};
      if Distinct(s) {
        assert last !in rest;
        assert forall x :: x in rest ==> multiset(s)[x] == multiset(rest)[x];
      } else if last in rest {
        assert multiset(s)[last] >= 2;
      } else {
        assert !Distinct(rest);
        var x :| x in rest && multiset(rest)[x] != 1;
        assert x in s && multiset(s)[x] != 1;
      }
    }
  }

  lemma DistinctKept<T(!new)>(s: seq<T>, t: seq<T>)
    requires multiset(s) == multiset(t) && Distinct(s)
    ensures Distinct(t)
  {
    DistinctCounts(s);
    DistinctCounts(t);
    SameMembers(s, t);
  }

  // ---- Sorting ----------------------------------------------------------------

  ghost predicate Sorted<T(!new)>(s: seq<T>, key: T -> seq<nat>) {
    forall i, j :: 0 <= i < j < |s| ==> !Less(key(s[j]), key(s[i]))
  }

  ghost predicate StrictlySorted<T(!new)>(s: seq<T>, key: T -> seq<nat>) {
    forall i, j :: 0 <= i < j < |s| ==> Less(key(s[i]), key(s[j]))
  }

  /** Inserts after everything that is not greater. */
  function Insert<T>(s: seq<T>, x: T, key: T -> seq<nat>): seq<T> {
    if s == [] || Less(key(x), key(s[0])) then [x] + s else [s[0]] + Insert(s[1..], x, key)
  }

  /** The stable sort by key. */
  function SortBy<T>(s: seq<T>, key: T -> seq<nat>): seq<T> {
    if s == [] then [] else Insert(SortBy(s[..|s| - 1], key), s[|s| - 1], key)
  }

  lemma {:induction false} InsertKeeps<T>(s: seq<T>, x: T, key: T -> seq<nat>)
    ensures multiset(Insert(s, x, key)) == multiset(s) + multiset{x}
  {
    if s != [] && !Less(key(x), key(s[0])) {
      InsertKeeps(s[1..], x, key);
      assert s == [s[0]] + s[1..];
    }
  }

  lemma {:induction false} InsertSorts<T(!new)>(s: seq<T>, x: T, key: T -> seq<nat>)
    requires Sorted(s, key)
    ensures Sorted(Insert(s, x, key), key)
  {
    var r := Insert(s, x, key);
    if s == [] {
    } else if Less(key(x), key(s[0])) {
      forall i, j | 0 <= i < j < |r|
        ensures !Less(key(r[j]), key(r[i]))
      {
        if i == 0 {
          LessIsTotal(key(x), key(s[0]));
          if j > 1 {
            LessIsTransitive(key(x), key(s[0]), key(s[j - 1]));
          }
        }
      }
    } else {
      var rest := s[1..];
      InsertSorts(rest, x, key);
      InsertKeeps(rest, x, key);
      var t := Insert(rest, x, key);
      forall j | 0 <= j < |t|
        ensures !Less(key(t[j]), key(s[0]))
      {
        assert t[j] in multiset(t);
        if t[j] != x {
          assert t[j] in multiset(rest);
          assert t[j] in rest;
          var k :| 0 <= k < |rest| && rest[k] == t[j];
          assert rest[k] == s[k + 1];
        }
      }
    }
  }

  lemma {:induction false} SortIsCorrect<T(!new)>(s: seq<T>, key: T -> seq<nat>)
    ensures multiset(SortBy(s, key)) == multiset(s) && Sorted(SortBy(s, key), key)
  {
    if s != [] {
      var n := |s| - 1;
      SortIsCorrect(s[..n], key);
      InsertIsCorrect(s, SortBy(s[..n], key), key);
    }
  }

  lemma {:induction false} InsertIsCorrect<T(!new)>(s: seq<T>, rest: seq<T>, key: T -> seq<nat>)
    requires s != [] && multiset(rest) == multiset(s[..|s| - 1]) && Sorted(rest, key)
    ensures var all := Insert(rest, s[|s| - 1], key); multiset(all) == multiset(s) && Sorted(all, key)
  {
    var last := s[|s| - 1];
    InsertSorts(rest, last, key);
    InsertKeeps(rest, last, key);
    assert s == s[..|s| - 1] + [last];
  }

  /** Sorted elements with distinct keys are strictly sorted. */
  lemma SortedStrictly<T(!new)>(s: seq<T>, key: T -> seq<nat>)
    requires Sorted(s, key) && forall i, j :: 0 <= i < j < |s| ==> key(s[i]) != key(s[j])
    ensures StrictlySorted(s, key)
  {
    forall i, j | 0 <= i < j < |s|
      ensures Less(key(s[i]), key(s[j]))
    {
      LessIsTotal(key(s[i]), key(s[j]));
    }
  }

  /** A strictly sorted sequence is determined by its elements. */
  lemma {:induction false} SortedIsUnique<T(!new)>(s: seq<T>, t: seq<T>, key: T -> seq<nat>)
    requires StrictlySorted(s, key) && StrictlySorted(t, key)
    requires forall x :: x in s <==> x in t
    ensures s == t
    decreases |s|
  {
    assert t == [] || t[0] in s;
    if s != [] {
      assert s[0] in t && t != [] && t[0] in s;
      FirstIsSame(s, t, key);
      forall x
        ensures x in s[1..] <==> x in t[1..]
      {
        TailMembers(s, x, key);
        TailMembers(t, x, key);
      }
      SortedIsUnique(s[1..], t[1..], key);
      assert s == [s[0]] + s[1..] && t == [t[0]] + t[1..];
    }
  }

  lemma FirstIsSame<T(!new)>(s: seq<T>, t: seq<T>, key: T -> seq<nat>)
    requires StrictlySorted(s, key) && StrictlySorted(t, key) && s != [] && t != []
    requires s[0] in t && t[0] in s
    ensures s[0] == t[0]
  {
    LessIsTotal(key(s[0]), key(t[0]));
  }

  lemma TailMembers<T(!new)>(s: seq<T>, x: T, key: T -> seq<nat>)
    requires StrictlySorted(s, key) && s != []
    ensures x in s[1..] <==> x in s && x != s[0]
  {
    LessIsTotal(key(x), key(x));
    assert s == [s[0]] + s[1..];
    if x in s[1..] {
      var k :| 0 <= k < |s[1..]| && s[1..][k] == x;
      assert s[k + 1] == x;
    }
  }
}
