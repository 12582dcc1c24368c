/** Stable sorting, as sort.SliceStable and sort.Slice with distinct keys do it. */
module Sorting {

  ghost predicate TotalPreorder<T(!new)>(leq: (T, T) -> bool) {
    && (forall a, b :: leq(a, b) || leq(b, a))
    && (forall a, b, c :: leq(a, b) && leq(b, c) ==> leq(a, c))
  }

  ghost predicate Sorted<T>(leq: (T, T) -> bool, s: seq<T>) {
    forall i, j :: 0 <= i < j < |s| ==> leq(s[i], s[j])
  }

  function Insert<T>(leq: (T, T) -> bool, x: T, s: seq<T>): seq<T> {
    if s == [] || leq(x, s[0]) then [x] + s else [s[0]] + Insert(leq, x, s[1..])
  }

  function Sort<T>(leq: (T, T) -> bool, s: seq<T>): seq<T> {
    if s == [] then [] else Insert(leq, s[0], Sort(leq, s[1..]))
  }

  lemma SortOne<T>(leq: (T, T) -> bool, x: T)
    ensures Sort(leq, [x]) == [x]
  {
    assert [x][1..] == [];
  }

  /** The elements of s that tie with a, in the order of s. */
  function Ties<T>(leq: (T, T) -> bool, a: T, s: seq<T>): seq<T> {
    if s == [] then []
    else (if leq(a, s[0]) && leq(s[0], a) then [s[0]] else []) + Ties(leq, a, s[1..])
  }

  lemma {:induction false} InsertMembers<T>(leq: (T, T) -> bool, x: T, s: seq<T>)
    ensures multiset(Insert(leq, x, s)) == multiset{x} + multiset(s)
    ensures forall y :: y in Insert(leq, x, s) ==> y == x || y in s
  {
    if s != [] && !leq(x, s[0]) {
      InsertMembers(leq, x, s[1..]);
      assert s == [s[0]] + s[1..];
    }
  }

  lemma {:induction false} InsertSorted<T(!new)>(leq: (T, T) -> bool, x: T, s: seq<T>)
    requires TotalPreorder(leq) && Sorted(leq, s)
    ensures Sorted(leq, Insert(leq, x, s))
  {
    if s != [] && !leq(x, s[0]) {
      var t := Insert(leq, x, s[1..]);
      InsertSorted(leq, x, s[1..]);
      InsertMembers(leq, x, s[1..]);
      forall j | 0 <= j < |t| ensures leq(s[0], t[j]) { assert t[j] in t; }
    }
  }

  lemma {:induction false} InsertTies<T(!new)>(leq: (T, T) -> bool, a: T, x: T, s: seq<T>)
    requires TotalPreorder(leq)
    ensures Ties(leq, a, Insert(leq, x, s)) == Ties(leq, a, [x] + s)
  {
    assert ([x] + s)[1..] == s;
    if s == [] || leq(x, s[0]) {
    } else {
      InsertTies(leq, a, x, s[1..]);
      assert ([x] + s[1..])[1..] == s[1..];
      assert Insert(leq, x, s)[1..] == Insert(leq, x, s[1..]);
    }
  }

  /** Sort gives an ascending permutation that keeps tied elements in their original order. */
  lemma {:induction false} SortIsStable<T(!new)>(leq: (T, T) -> bool, s: seq<T>)
    requires TotalPreorder(leq)
    ensures Sorted(leq, Sort(leq, s))
    ensures multiset(Sort(leq, s)) == multiset(s)
    ensures forall a :: Ties(leq, a, Sort(leq, s)) == Ties(leq, a, s)
  {
    if s == [] {
    } else {
      var t := Sort(leq, s[1..]);
      SortIsStable(leq, s[1..]);
      InsertSorted(leq, s[0], t);
      InsertMembers(leq, s[0], t);
      assert s == [s[0]] + s[1..];
      forall a
        ensures Ties(leq, a, Sort(leq, s)) == Ties(leq, a, s)
      {
        InsertTies(leq, a, s[0], t);
        assert ([s[0]] + t)[1..] == t;
      }
    }
  }

  lemma {:induction false} TiesMember<T>(leq: (T, T) -> bool, a: T, s: seq<T>, x: T)
    requires x in s && leq(a, x) && leq(x, a)
    ensures Ties(leq, a, s) != []
  {
    if s[0] != x {
      TiesMember(leq, a, s[1..], x);
    }
  }

  lemma {:induction false} TiesFrom<T>(leq: (T, T) -> bool, a: T, s: seq<T>)
    ensures forall x :: x in Ties(leq, a, s) ==> x in s && leq(a, x) && leq(x, a)
  {
    if s != [] {
      TiesFrom(leq, a, s[1..]);
    }
  }

  /** There is only one ascending sequence with given runs of ties, so Sort is the stable sort. */
  lemma {:induction false} StableSortIsUnique<T(!new)>(leq: (T, T) -> bool, s: seq<T>, t: seq<T>)
    requires TotalPreorder(leq) && Sorted(leq, s) && Sorted(leq, t)
    requires forall a :: Ties(leq, a, s) == Ties(leq, a, t)
    ensures s == t
  {
    if s == [] {
    } else {
      TiesMember(leq, s[0], s, s[0]);
      assert Ties(leq, s[0], t) != [];
      assert t != [];
      TiesMember(leq, t[0], t, t[0]);
      HeadBelow(leq, s, t);
      HeadBelow(leq, t, s);
      assert Ties(leq, s[0], s)[0] == s[0] && Ties(leq, s[0], t)[0] == t[0];
      forall a
        ensures Ties(leq, a, s[1..]) == Ties(leq, a, t[1..])
      {
        var hit := leq(a, s[0]) && leq(s[0], a);
        var n := if hit then 1 else 0;
        assert s[0] == t[0];
        assert Ties(leq, a, s)[n..] == Ties(leq, a, s[1..]);
        assert Ties(leq, a, t)[n..] == Ties(leq, a, t[1..]);
      }
      StableSortIsUnique(leq, s[1..], t[1..]);
      assert s == [s[0]] + s[1..] && t == [t[0]] + t[1..];
    }
  }

  lemma HeadBelow<T(!new)>(leq: (T, T) -> bool, s: seq<T>, t: seq<T>)
    requires TotalPreorder(leq) && Sorted(leq, s) && s != [] && t != []
    requires Ties(leq, t[0], s) == Ties(leq, t[0], t) != []
    ensures leq(s[0], t[0])
  {
    TiesFrom(leq, t[0], s);
    var x := Ties(leq, t[0], s)[0];
    assert x in s;
    assert leq(s[0], x);
  }

  /** Byte-wise string order, as Go compares strings. */
  predicate LexLeq(a: string, b: string) {
    a == "" || (b != "" && (a[0] < b[0] || (a[0] == b[0] && LexLeq(a[1..], b[1..]))))
  }

  lemma {:induction false} LexTotal(a: string, b: string)
    ensures LexLeq(a, b) || LexLeq(b, a)
  {
    if a != "" && b != "" && a[0] == b[0] {
      LexTotal(a[1..], b[1..]);
    }
  }

  lemma {:induction false} LexTransitive(a: string, b: string, c: string)
    requires LexLeq(a, b) && LexLeq(b, c)
    ensures LexLeq(a, c)
  {
    if a != "" && a[0] == b[0] == c[0] {
      LexTransitive(a[1..], b[1..], c[1..]);
    }
  }

  lemma LexIsOrder()
    ensures TotalPreorder(LexLeq)
  {
    forall a: string, b: string ensures LexLeq(a, b) || LexLeq(b, a) { LexTotal(a, b); }
    forall a: string, b: string, c: string | LexLeq(a, b) && LexLeq(b, c)
      ensures LexLeq(a, c)
    {
      LexTransitive(a, b, c);
    }
  }

  /** a is a beginning of b, or the first difference is a smaller character. */
  ghost predicate LexBefore(a: string, b: string) {
    a <= b || exists i: nat :: DiffersAt(a, b, i)
  }

  ghost predicate DiffersAt(a: string, b: string, i: nat) {
    i < |a| && i < |b| && a[..i] == b[..i] && a[i] < b[i]
  }

  /** The order in plain terms. */
  lemma {:induction false} LexMeans(a: string, b: string)
    ensures LexLeq(a, b) <==> LexBefore(a, b)
  {
    if a != "" && b != "" {
      if a[0] == b[0] {
        LexMeans(a[1..], b[1..]);
        LexTail(a, b);
      } else {
        assert DiffersAt(a, b, 0) <==> a[0] < b[0];
        assert forall i: nat :: 0 < i <= |a| && i <= |b| ==> a[..i][0] == a[0] && b[..i][0] == b[0];
      }
    }
  }

  lemma LexTail(a: string, b: string)
    requires a != "" && b != "" && a[0] == b[0]
    ensures LexBefore(a, b) <==> LexBefore(a[1..], b[1..])
  {
    var s, t := a[1..], b[1..];
    assert a == [a[0]] + s && b == [b[0]] + t;
    if exists i: nat :: DiffersAt(s, t, i) {
      var i: nat :| DiffersAt(s, t, i);
      assert a[..i + 1] == [a[0]] + s[..i] && b[..i + 1] == [b[0]] + t[..i];
      assert DiffersAt(a, b, i + 1);
    }
    if exists i: nat :: DiffersAt(a, b, i) {
      var i: nat :| DiffersAt(a, b, i);
      assert i > 0 && s[..i - 1] == a[..i][1..] && t[..i - 1] == b[..i][1..];
      assert DiffersAt(s, t, i - 1);
    }
  }

  // ---------- stability in terms of positions ----------

  ghost predicate Precedes<T(!new)>(s: seq<T>, a: T, b: T) {
    exists p, q :: 0 <= p < q < |s| && s[p] == a && s[q] == b
  }

  lemma {:induction false} TiesKeepOrder<T(!new)>(leq: (T, T) -> bool, a: T, s: seq<T>, x: T, y: T)
    requires leq(a, x) && leq(x, a) && leq(a, y) && leq(y, a)
    ensures x in Ties(leq, a, s) <==> x in s
    ensures Precedes(Ties(leq, a, s), x, y) <==> Precedes(s, x, y)
  {
    if s != [] {
      var first, rest := s[0], Ties(leq, a, s[1..]);
      TiesKeepOrder(leq, a, s[1..], x, y);
      TiesKeepOrder(leq, a, s[1..], y, y);
      PrecedesIn(first, s[1..], x, y);
      assert s == [first] + s[1..];
      if leq(a, first) && leq(first, a) {
        PrecedesIn(first, rest, x, y);
        assert Ties(leq, a, s) == [first] + rest;
      } else {
        assert Ties(leq, a, s) == rest && first != x && first != y;
      }
    }
  }

  lemma PrecedesIn<T(!new)>(first: T, rest: seq<T>, x: T, y: T)
    ensures Precedes([first] + rest, x, y) <==> (first == x && y in rest) || Precedes(rest, x, y)
  {
    var s := [first] + rest;
    if first == x && y in rest {
      var q :| 0 <= q < |rest| && rest[q] == y;
      assert s[0] == x && s[q + 1] == y;
    }
    if Precedes(rest, x, y) {
      var p, q :| 0 <= p < q < |rest| && rest[p] == x && rest[q] == y;
      assert s[p + 1] == x && s[q + 1] == y;
    }
    if Precedes(s, x, y) {
      var p, q :| 0 <= p < q < |s| && s[p] == x && s[q] == y;
      assert rest[q - 1] == y;
      assert p > 0 ==> rest[p - 1] == x;
    }
  }

  /** In a stable sort, later elements are greater, or tie and were later before. */
  lemma StableOrder<T(!new)>(leq: (T, T) -> bool, s: seq<T>, t: seq<T>, i: nat, j: nat)
    requires TotalPreorder(leq) && i < j < |t| && leq(t[j], t[i]) && leq(t[i], t[j])
    requires Ties(leq, t[i], t) == Ties(leq, t[i], s)
    ensures Precedes(s, t[i], t[j])
  {
    assert leq(t[i], t[i]);
    assert Precedes(t, t[i], t[j]);
    TiesKeepOrder(leq, t[i], t, t[i], t[j]);
    TiesKeepOrder(leq, t[i], s, t[i], t[j]);
  }

  lemma SameMembers<T>(s: seq<T>, t: seq<T>)
    requires multiset(s) == multiset(t)
    ensures forall x :: x in s <==> x in t
  {
    forall x ensures x in s <==> x in t {
      assert x in s <==> x in multiset(s);
      assert x in t <==> x in multiset(t);
    }
  }

  ghost predicate DistinctKeys<T>(key: T -> string, s: seq<T>) {
    forall i, j :: 0 <= i < j < |s| ==> key(s[i]) != key(s[j])
  }

  /** Reordering keeps keys distinct. */
  lemma PermutedKeys<T>(key: T -> string, s: seq<T>, t: seq<T>)
    requires multiset(s) == multiset(t) && DistinctKeys(key, s)
    ensures DistinctKeys(key, t)
  {
    SameMembers(s, t);
    forall i, j | 0 <= i < j < |t|
      ensures key(t[i]) != key(t[j])
    {
      assert t[i] in s && t[j] in s;
      if t[i] == t[j] {
        CountTwice(t, i, j);
        CountOnce(key, s, t[i]);
      }
    }
  }

  lemma CountTwice<T>(t: seq<T>, i: nat, j: nat)
    requires i < j < |t| && t[i] == t[j]
    ensures multiset(t)[t[i]] >= 2
  {
    assert t == t[..i] + [t[i]] + t[i + 1..j] + [t[j]] + t[j + 1..];
  }

  lemma {:induction false} CountOnce<T>(key: T -> string, s: seq<T>, x: T)
    requires DistinctKeys(key, s)
    ensures multiset(s)[x] <= 1
  {
    if s != [] {
      assert s == [s[0]] + s[1..];
      CountOnce(key, s[1..], x);
      if s[0] == x {
        assert x !in s[1..];
        assert x !in multiset(s[1..]);
      }
    }
  }

  // ---------- positions ----------

  function Shifted(at: seq<nat>, first: bool): seq<nat> {
    (if first then [0] else []) + seq(|at|, i requires 0 <= i < |at| => at[i] + 1)
  }

  lemma ShiftedAt(at: seq<nat>, first: bool)
    ensures var d := if first then 1 else 0;
            && |Shifted(at, first)| == |at| + d
            && (first ==> Shifted(at, first)[0] == 0)
            && forall i :: d <= i < |at| + d ==> Shifted(at, first)[i] == at[i - d] + 1
  {
  }

  lemma ShiftedMember(at: seq<nat>, first: bool, p: nat)
    ensures p in Shifted(at, first) <==> if p == 0 then first else p - 1 in at
  {
    ShiftedAt(at, first);
    var more, d := Shifted(at, first), if first then 1 else 0;
    if p != 0 && p - 1 in at {
      var i :| 0 <= i < |at| && at[i] == p - 1;
      assert more[i + d] == p;
    }
    if p in more {
      var i :| 0 <= i < |more| && more[i] == p;
      assert i >= d ==> at[i - d] == p - 1;
    }
  }

  ghost predicate Ascending(at: seq<nat>) {
    forall i, j :: 0 <= i < j < |at| ==> at[i] < at[j]
  }

  lemma ShiftedAscending(at: seq<nat>, first: bool)
    requires Ascending(at)
    ensures Ascending(Shifted(at, first))
  {
    ShiftedAt(at, first);
    hide Shifted;
  }
}
