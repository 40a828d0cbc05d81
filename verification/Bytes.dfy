/** Byte strings and the lexicographic order that `bytes.Compare` and `sort.Strings` use. */
module Bytes {

  type Byte = x: int | 0 <= x < 256

  type Bytes = seq<Byte>

  /** `a` comes strictly before `b`; a proper prefix comes before its extensions. */
  predicate Less(a: Bytes, b: Bytes) {
    if |b| == 0 then false
    else if |a| == 0 then true
    else a[0] < b[0] || (a[0] == b[0] && Less(a[1..], b[1..]))
  }

  predicate AtMost(a: Bytes, b: Bytes) {
    a == b || Less(a, b)
  }

  lemma {:induction false} LessIrreflexive(a: Bytes)
    ensures !Less(a, a)
  {
    if |a| != 0 {
      LessIrreflexive(a[1..]);
    }
  }

  lemma {:induction false} LessTransitive(a: Bytes, b: Bytes, c: Bytes)
    requires Less(a, b) && Less(b, c)
    ensures Less(a, c)
  {
    if |a| != 0 && a[0] == b[0] && b[0] == c[0] {
      LessTransitive(a[1..], b[1..], c[1..]);
    }
  }

  lemma {:induction false} LessTotal(a: Bytes, b: Bytes)
    ensures a == b || Less(a, b) || Less(b, a)
  {
    if |a| != 0 && |b| != 0 && a[0] == b[0] {
      LessTotal(a[1..], b[1..]);
      assert a == [a[0]] + a[1..] && b == [b[0]] + b[1..];
    }
  }

  lemma LessAsymmetric(a: Bytes, b: Bytes)
    requires Less(a, b)
    ensures !Less(b, a) && a != b
  {
    LessIrreflexive(a);
    if Less(b, a) {
      LessTransitive(a, b, a);
    }
  }

  ghost predicate StrictlyAscending(s: seq<Bytes>) {
    forall i, j :: 0 <= i < j < |s| ==> Less(s[i], s[j])
  }

  /** A neighbour-by-neighbour check is enough. */
  lemma {:induction false} NeighboursSuffice(s: seq<Bytes>, i: nat, j: nat)
    requires forall k :: 0 <= k < |s| - 1 ==> Less(s[k], s[k + 1])
    requires i < j < |s|
    ensures Less(s[i], s[j])
    decreases j
  {
    if i + 1 < j {
      NeighboursSuffice(s, i, j - 1);
      assert Less(s[j - 1], s[j - 1 + 1]);
      LessTransitive(s[i], s[j - 1], s[j]);
    }
  }

  /** A strictly ascending list is determined by its elements. */
  lemma {:induction false} AscendingUnique(s: seq<Bytes>, t: seq<Bytes>)
    requires StrictlyAscending(s) && StrictlyAscending(t)
    requires forall x :: x in s <==> x in t
    ensures s == t
  {
    assert s != [] ==> s[0] in t;
    assert t != [] ==> t[0] in s;
    if s != [] && t != [] {
      var i :| 0 <= i < |t| && t[i] == s[0];
      var j :| 0 <= j < |s| && s[j] == t[0];
      assert i == 0 || Less(t[0], s[0]);
      assert j == 0 || Less(s[0], t[0]);
      if Less(t[0], s[0]) {
        LessAsymmetric(t[0], s[0]);
      }
      assert s[0] == t[0];
      LessIrreflexive(s[0]);
      assert s == [s[0]] + s[1..] && t == [t[0]] + t[1..];
      forall x ensures x in s[1..] <==> x in t[1..] {
        if x in s[1..] {
          var k :| 1 <= k < |s| && s[k] == x;
          assert Less(s[0], s[k]) && x in t;
        }
        if x in t[1..] {
          var k :| 1 <= k < |t| && t[k] == x;
          assert Less(t[0], t[k]) && x in s;
        }
      }
      AscendingUnique(s[1..], t[1..]);
    }
  }

  /** The elements of a list. */
  function Elements(s: seq<Bytes>): (r: set<Bytes>)
    ensures forall x :: x in r <==> x in s
  {
    set x | x in s
  }

  lemma ElementsOfPrefix(s: seq<Bytes>, n: nat)
    requires n < |s|
    ensures Elements(s[..n + 1]) == Elements(s[..n]) + {s[n]}
  {
    assert s[..n + 1] == s[..n] + [s[n]];
  }

  lemma {:induction false} HasLeast(s: set<Bytes>) returns (m: Bytes)
    requires s != {}
    ensures m in s && forall x :: x in s ==> AtMost(m, x)
  {
    var y :| y in s;
    if s == {y} {
      m := y;
    } else {
      var rest := HasLeast(s - {y});
      LessTotal(rest, y);
      m := if Less(y, rest) then y else rest;
      forall x | x in s ensures AtMost(m, x) {
        if x != y && m == y && rest != x {
          assert x in s - {y};
          LessTransitive(y, rest, x);
        }
      }
    }
  }

  lemma LeastUnique(s: set<Bytes>, m: Bytes, n: Bytes)
    requires m in s && forall x :: x in s ==> AtMost(m, x)
    requires n in s && forall x :: x in s ==> AtMost(n, x)
    ensures m == n
  {
    if m != n {
      LessAsymmetric(m, n);
    }
  }

  function Least(s: set<Bytes>): (m: Bytes)
    requires s != {}
    ensures m in s && forall x :: x in s ==> AtMost(m, x)
  {
    assert exists m :: m in s && forall x :: x in s ==> AtMost(m, x) by {
      var m := HasLeast(s);
    }
    assert forall m, n ::
        (m in s && forall x :: x in s ==> AtMost(m, x)) && (n in s && forall x :: x in s ==> AtMost(n, x)) ==> m == n by {
      forall m, n | (m in s && forall x :: x in s ==> AtMost(m, x)) && (n in s && forall x :: x in s ==> AtMost(n, x))
        ensures m == n
      {
        LeastUnique(s, m, n);
      }
    }
    var m :| m in s && forall x :: x in s ==> AtMost(m, x);
    m
  }

  lemma PrependLeast(s: set<Bytes>, m: Bytes, rest: seq<Bytes>)
    requires m in s && (forall x :: x in s ==> AtMost(m, x))
    requires StrictlyAscending(rest) && forall x :: x in rest <==> x in s - {m}
    ensures StrictlyAscending([m] + rest) && forall x :: x in [m] + rest <==> x in s
  {
    hide Less;
    assert forall i :: 0 <= i < |rest| ==> rest[i] in s - {m} && AtMost(m, rest[i]);
  }

  /** The elements of a set in ascending order: what `sort.Strings` leaves of a duplicate-free list. */
  function Sorted(s: set<Bytes>): (r: seq<Bytes>)
    ensures forall x :: x in r <==> x in s
    ensures StrictlyAscending(r)
    ensures |r| == |s|
  {
    if s == {} then []
    else
      var m := Least(s);
      var rest := Sorted(s - {m});
      PrependLeast(s, m, rest);
      [m] + rest
  }

  // ----- Sorting a list that may hold repetitions -----

  ghost predicate Ascending(s: seq<Bytes>) {
    forall i, j :: 0 <= i < j < |s| ==> AtMost(s[i], s[j])
  }

  function Inserted(x: Bytes, s: seq<Bytes>): seq<Bytes> {
    if s == [] || !Less(s[0], x) then [x] + s else [s[0]] + Inserted(x, s[1..])
  }

  /** What `sort.Strings` leaves of a list. */
  function SortedList(s: seq<Bytes>): seq<Bytes> {
    if s == [] then [] else Inserted(s[|s| - 1], SortedList(s[..|s| - 1]))
  }

  lemma {:induction false} InsertedSorts(x: Bytes, s: seq<Bytes>)
    requires Ascending(s)
    ensures Ascending(Inserted(x, s)) && multiset(Inserted(x, s)) == multiset(s) + multiset{x}
  {
    hide Less;
    if s == [] || !Less(s[0], x) {
      forall i | 0 <= i < |s| ensures AtMost(x, s[i]) {
        LessTotal(x, s[0]);
        if x != s[0] && i > 0 && s[0] != s[i] {
          assert AtMost(s[0], s[i]);
          LessTransitive(x, s[0], s[i]);
        }
      }
    } else {
      var rest := Inserted(x, s[1..]);
      assert s == [s[0]] + s[1..];
      InsertedSorts(x, s[1..]);
      forall i | 0 <= i < |rest| ensures AtMost(s[0], rest[i]) {
        assert rest[i] in multiset(rest);
        assert rest[i] in multiset(s[1..]) + multiset{x};
      }
    }
  }

  lemma {:induction false} SortedListSorts(s: seq<Bytes>)
    ensures Ascending(SortedList(s)) && multiset(SortedList(s)) == multiset(s)
  {
    if s != [] {
      SortedListSorts(s[..|s| - 1]);
      InsertedSorts(s[|s| - 1], SortedList(s[..|s| - 1]));
      assert s == s[..|s| - 1] + [s[|s| - 1]];
    }
  }

  lemma RepeatedCounts(s: seq<Bytes>, i: nat, j: nat)
    requires i < j < |s| && s[i] == s[j]
    ensures multiset(s)[s[i]] >= 2
  {
    assert s == s[..j] + [s[j]] + s[j + 1..];
    assert s[i] in s[..j];
  }

  /** An ascending list without repetitions is strictly ascending. */
  lemma AscendingWithoutRepeats(s: seq<Bytes>)
    requires Ascending(s) && forall x :: x in s ==> multiset(s)[x] == 1
    ensures StrictlyAscending(s)
  {
    hide Less;
    forall i, j | 0 <= i < j < |s| ensures Less(s[i], s[j]) {
      if s[i] == s[j] {
        RepeatedCounts(s, i, j);
      }
    }
  }

  lemma {:induction false} DistinctCountsOne(s: seq<Bytes>, x: Bytes)
    requires forall i, j :: 0 <= i < j < |s| ==> s[i] != s[j]
    ensures multiset(s)[x] == if x in s then 1 else 0
  {
    if s != [] {
      var n := |s| - 1;
      assert s == s[..n] + [s[n]];
      DistinctCountsOne(s[..n], x);
    }
  }

  lemma AscendingCountsOne(s: seq<Bytes>, x: Bytes)
    requires StrictlyAscending(s)
    ensures multiset(s)[x] == if x in s then 1 else 0
  {
    hide Less;
    forall i, j | 0 <= i < j < |s| ensures s[i] != s[j] {
      LessAsymmetric(s[i], s[j]);
    }
    DistinctCountsOne(s, x);
  }
}
