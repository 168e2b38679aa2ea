/** The stable sort that the listings and the response blocks are put in order with, by any comparison. */
module Sorting {
  import opened Basics

  /** Inserts before the first that does not come first. */
  function Insert<T>(le: (T, T) -> bool, x: T, sorted: seq<T>): seq<T> {
    if sorted == [] then [x]
    else if le(x, sorted[0]) then [x] + sorted
    else [sorted[0]] + Insert(le, x, sorted[1..])
  }

  function Sort<T>(le: (T, T) -> bool, s: seq<T>): seq<T> {
    if s == [] then [] else Insert(le, s[0], Sort(le, s[1..]))
  }

  ghost predicate Total<T>(le: (T, T) -> bool, s: seq<T>) {
    forall i, j :: 0 <= i < |s| && 0 <= j < |s| ==> le(s[i], s[j]) || le(s[j], s[i])
  }

  ghost predicate Transitive<T>(le: (T, T) -> bool, s: seq<T>) {
    forall i, j, k :: 0 <= i < |s| && 0 <= j < |s| && 0 <= k < |s| && le(s[i], s[j]) && le(s[j], s[k]) ==> le(s[i], s[k])
  }

  ghost predicate Ordered<T>(before: (T, T) -> bool, s: seq<T>) {
    forall i, j :: 0 <= i < j < |s| ==> before(s[i], s[j])
  }

  /** Sorted, and where the comparison tells nothing in the order they came in. */
  ghost predicate Stable<T>(le: (T, T) -> bool, before: (T, T) -> bool, s: seq<T>) {
    forall i, j :: 0 <= i < j < |s| ==> le(s[i], s[j]) && (le(s[j], s[i]) ==> before(s[i], s[j]))
  }

  lemma {:induction false} InsertHolds<T>(le: (T, T) -> bool, x: T, sorted: seq<T>)
    ensures multiset(Insert(le, x, sorted)) == multiset(sorted) + multiset{x}
  {
    if sorted != [] && !le(x, sorted[0]) {
      InsertHolds(le, x, sorted[1..]);
      assert sorted == [sorted[0]] + sorted[1..];
    }
  }

  lemma {:induction false} SortHolds<T>(le: (T, T) -> bool, s: seq<T>)
    ensures multiset(Sort(le, s)) == multiset(s)
  {
    if s != [] {
      SortHolds(le, s[1..]);
      InsertHolds(le, s[0], Sort(le, s[1..]));
      assert s == [s[0]] + s[1..];
    }
  }

  lemma {:induction false} SortMember<T>(le: (T, T) -> bool, s: seq<T>, x: T)
    ensures x in Sort(le, s) <==> x in s
  {
    SortHolds(le, s);
    assert x in Sort(le, s) <==> x in multiset(Sort(le, s));
    assert x in s <==> x in multiset(s);
  }

  /** The comparison is told among the members of a list. */
  ghost predicate Tells<T>(le: (T, T) -> bool, among: seq<T>) {
    Total(le, among) && Transitive(le, among)
  }

  lemma {:induction false} InsertSorts<T>(le: (T, T) -> bool, before: (T, T) -> bool, x: T, sorted: seq<T>, among: seq<T>)
    requires Stable(le, before, sorted) && Tells(le, among)
    requires x in among && forall i :: 0 <= i < |sorted| ==> sorted[i] in among && before(x, sorted[i])
    ensures Stable(le, before, Insert(le, x, sorted))
  {
    if sorted == [] {
    } else if le(x, sorted[0]) {
      forall i | 0 <= i < |sorted| ensures le(x, sorted[i]) { if i > 0 { Chains(le, among, x, sorted[0], sorted[i]); } }
    } else {
      var rest := Insert(le, x, sorted[1..]);
      InsertSorts(le, before, x, sorted[1..], among);
      InsertHolds(le, x, sorted[1..]);
      Compares(le, among, x, sorted[0]);
      forall i | 0 <= i < |rest| ensures le(sorted[0], rest[i]) && (le(rest[i], sorted[0]) ==> before(sorted[0], rest[i])) {
        assert rest[i] in multiset(rest);
        if rest[i] != x {
          assert rest[i] in multiset(sorted[1..]) && rest[i] in sorted[1..];
          var k :| 0 <= k < |sorted| - 1 && sorted[1..][k] == rest[i];
          assert sorted[k + 1] == rest[i];
        }
      }
    }
  }

  lemma {:induction false} Chains<T>(le: (T, T) -> bool, among: seq<T>, a: T, b: T, c: T)
    requires Tells(le, among) && a in among && b in among && c in among && le(a, b) && le(b, c)
    ensures le(a, c)
  {
    var i :| 0 <= i < |among| && among[i] == a;
    var j :| 0 <= j < |among| && among[j] == b;
    var k :| 0 <= k < |among| && among[k] == c;
    assert le(among[i], among[j]) && le(among[j], among[k]);
  }

  lemma {:induction false} Compares<T>(le: (T, T) -> bool, among: seq<T>, a: T, b: T)
    requires Tells(le, among) && a in among && b in among
    ensures le(a, b) || le(b, a)
  {
    var i :| 0 <= i < |among| && among[i] == a;
    var j :| 0 <= j < |among| && among[j] == b;
    assert le(among[i], among[j]) || le(among[j], among[i]);
  }

  /** Sorting a list that stands in some order sorts it, and keeps that order where the comparison tells nothing. */
  lemma {:induction false} SortSorts<T>(le: (T, T) -> bool, before: (T, T) -> bool, s: seq<T>, among: seq<T>)
    requires Ordered(before, s) && Tells(le, among) && forall i :: 0 <= i < |s| ==> s[i] in among
    ensures Stable(le, before, Sort(le, s))
  {
    if s != [] {
      var rest := Sort(le, s[1..]);
      SortSorts(le, before, s[1..], among);
      forall i | 0 <= i < |rest| ensures rest[i] in among && before(s[0], rest[i]) {
        SortMember(le, s[1..], rest[i]);
        var k :| 0 <= k < |s| - 1 && s[1..][k] == rest[i];
        assert s[k + 1] == rest[i];
      }
      InsertSorts(le, before, s[0], rest, among);
    }
  }
}
