/** Splitting a string at its dots, as `split(".")` does, and joining the parts again. */
module Dots {
  ghost predicate NoDot(s: string) {
    forall i :: 0 <= i < |s| ==> s[i] != '.'
  }

  function FirstDot(s: string): (i: int)
    ensures -1 <= i < |s|
    ensures 0 <= i ==> s[i] == '.' && forall j :: 0 <= j < i ==> s[j] != '.'
    ensures i < 0 ==> NoDot(s)
  {
    if s == "" then -1
    else if s[0] == '.' then 0
    else var rest := FirstDot(s[1..]);
         if rest < 0 then -1 else rest + 1
  }

  /** `split(".")`. */
  function Split(s: string): (r: seq<string>)
    ensures r != []
    decreases |s|
  {
    var dot := FirstDot(s);
    if dot < 0 then [s] else [s[..dot]] + Split(s[dot + 1..])
  }

  lemma {:induction false} FirstDotOf(a: string, rest: string)
    requires NoDot(a)
    ensures FirstDot(a + "." + rest) == |a|
  {
    var s := a + "." + rest;
    var dot := FirstDot(s);
    assert s[|a|] == '.' && forall i :: 0 <= i < |a| ==> s[i] == a[i];
  }

  lemma {:induction false} SplitDotted(a: string, rest: string)
    ensures Split(a + "." + rest) == Split(a) + Split(rest)
    decreases |a|
  {
    hide Split, FirstDot;
    var dot := FirstDot(a);
    if dot < 0 {
      SplitOnce(a, rest);
      NoDots(a);
    } else {
      var head, tail := a[..dot], a[dot + 1..];
      assert a == head + "." + tail;
      assert a + "." + rest == head + "." + (tail + "." + rest);
      SplitOnce(head, tail + "." + rest);
      SplitOnce(head, tail);
      SplitDotted(tail, rest);
      assert [head] + (Split(tail) + Split(rest)) == [head] + Split(tail) + Split(rest);
    }
  }

  lemma {:induction false} NoDots(s: string)
    requires FirstDot(s) < 0
    ensures Split(s) == [s]
  {}

  /** The part before the first dot, and the parts after it. */
  lemma {:induction false} SplitOnce(head: string, rest: string)
    requires NoDot(head)
    ensures Split(head + "." + rest) == [head] + Split(rest)
  {
    FirstDotOf(head, rest);
    var s := head + "." + rest;
    assert s[..|head|] == head && s[|head| + 1..] == rest;
    hide FirstDot;
  }

  function Join(parts: seq<string>): string
    requires parts != []
  {
    if |parts| == 1 then parts[0] else parts[0] + "." + Join(parts[1..])
  }

  lemma {:induction false} JoinSplit(s: string)
    ensures Join(Split(s)) == s
    decreases |s|
  {
    hide Split, FirstDot;
    var dot := FirstDot(s);
    if dot < 0 {
      NoDots(s);
    } else {
      var head, tail := s[..dot], s[dot + 1..];
      JoinSplit(tail);
      assert s == head + "." + tail;
      SplitOnce(head, tail);
      JoinOnce(head, Split(tail));
    }
  }

  lemma {:induction false} JoinOnce(head: string, parts: seq<string>)
    requires parts != []
    ensures Join([head] + parts) == head + "." + Join(parts)
  {
    assert ([head] + parts)[1..] == parts;
  }

  lemma {:induction false} JoinConcat(a: seq<string>, b: seq<string>)
    requires a != [] && b != []
    ensures Join(a + b) == Join(a) + "." + Join(b)
  {
    if |a| > 1 {
      assert (a + b)[1..] == a[1..] + b;
      JoinConcat(a[1..], b);
    } else {
      assert (a + b)[1..] == b;
    }
  }

  lemma {:induction false} SplitInjective(a: string, b: string)
    ensures Split(a) == Split(b) <==> a == b
  {
    JoinSplit(a);
    JoinSplit(b);
  }
}
