/**
 * The complete lines of a transcript's bytes and the records on them (src/claude/native/pages.ts `parseLines`). Parsing
 * a line is any function of its bytes.
 */
module Lines {
  import opened Basics

  newtype byte = b: int | 0 <= b < 256

  const NEWLINE: byte := 10

  /** What a line parses as: a record; a blank line or another value; the start of a line still being written. */
  datatype Parsed<+R> = Record(record: R) | Blank | Partial

  /** A record and where its line starts in the file. */
  datatype Entry<+R> = Entry(record: R, position: nat)

  function IndexOfNewline(bytes: seq<byte>): (i: int)
    ensures -1 <= i < |bytes|
  {
    if bytes == [] then -1
    else if bytes[0] == NEWLINE then 0
    else var rest := IndexOfNewline(bytes[1..]);
         if rest < 0 then -1 else rest + 1
  }

  function EntryOf<R>(parsed: Parsed<R>, at: nat): seq<Entry<R>> {
    if parsed.Record? then [Entry(parsed.record, at)] else []
  }

  /** The records on the complete lines of bytes that start a line at `at`. */
  function Entries<R>(parse: seq<byte> -> Parsed<R>, bytes: seq<byte>, at: nat): seq<Entry<R>>
    decreases |bytes|
  {
    var newline := IndexOfNewline(bytes);
    if newline < 0 then []
    else EntryOf(parse(bytes[..newline]), at) + Entries(parse, bytes[newline + 1..], at + newline + 1)
  }

  /** Where the last complete line ends. */
  function LinesEnd(bytes: seq<byte>): (end: nat)
    ensures end <= |bytes|
    decreases |bytes|
  {
    var newline := IndexOfNewline(bytes);
    if newline < 0 then 0 else newline + 1 + LinesEnd(bytes[newline + 1..])
  }

  /** A line starts here. */
  predicate StartsLine(bytes: seq<byte>, at: int) {
    0 <= at <= |bytes| && (at == 0 || bytes[at - 1] == NEWLINE)
  }

  ghost predicate Increasing<R>(entries: seq<Entry<R>>) {
    forall i, j :: 0 <= i < j < |entries| ==> entries[i].position < entries[j].position
  }

  // ---- lemmas ----

  lemma {:induction false} FirstNewline(bytes: seq<byte>)
    ensures var i := IndexOfNewline(bytes);
            && (i >= 0 ==> bytes[i] == NEWLINE && forall k :: 0 <= k < i ==> bytes[k] != NEWLINE)
            && (i < 0 ==> forall k :: 0 <= k < |bytes| ==> bytes[k] != NEWLINE)
    decreases |bytes|
  {
    if bytes != [] && bytes[0] != NEWLINE {
      FirstNewline(bytes[1..]);
      var rest, i := bytes[1..], IndexOfNewline(bytes);
      assert forall k :: 1 <= k < |bytes| ==> bytes[k] == rest[k - 1];
    }
  }

  lemma {:induction false} IndexIs(bytes: seq<byte>, i: nat)
    requires i < |bytes| && bytes[i] == NEWLINE && forall k :: 0 <= k < i ==> bytes[k] != NEWLINE
    ensures IndexOfNewline(bytes) == i
  {
    hide IndexOfNewline;
    FirstNewline(bytes);
  }

  lemma {:induction false} NoneIs(bytes: seq<byte>)
    requires NoNewline(bytes)
    ensures IndexOfNewline(bytes) < 0
  {
    hide IndexOfNewline;
    FirstNewline(bytes);
  }

  /** One line read. */
  lemma {:induction false} EntriesOnce<R>(parse: seq<byte> -> Parsed<R>, bytes: seq<byte>, at: nat, line: seq<byte>, rest: seq<byte>)
    requires bytes == line + [NEWLINE] + rest && NoNewline(line)
    ensures Entries(parse, bytes, at) == EntryOf(parse(line), at) + Entries(parse, rest, at + |line| + 1)
    ensures LinesEnd(bytes) == |line| + 1 + LinesEnd(rest)
  {
    assert IndexOfNewline(bytes) == |line| by {
      hide *;
      assert forall k :: 0 <= k < |line| ==> bytes[k] == line[k];
      IndexIs(bytes, |line|);
    }
    assert bytes[..|line|] == line && bytes[|line| + 1..] == rest;
  }

  lemma {:induction false} NoLines<R>(parse: seq<byte> -> Parsed<R>, bytes: seq<byte>, at: nat)
    requires NoNewline(bytes)
    ensures Entries(parse, bytes, at) == [] && LinesEnd(bytes) == 0
  {
    NoneIs(bytes);
  }

  function FirstLine(bytes: seq<byte>): seq<byte>
    requires IndexOfNewline(bytes) >= 0
  {
    bytes[..IndexOfNewline(bytes)]
  }

  function LaterLines(bytes: seq<byte>): seq<byte>
    requires IndexOfNewline(bytes) >= 0
  {
    bytes[IndexOfNewline(bytes) + 1..]
  }

  lemma {:induction false} SplitFirst(bytes: seq<byte>)
    requires IndexOfNewline(bytes) >= 0
    ensures var line, rest := FirstLine(bytes), LaterLines(bytes);
            bytes == line + [NEWLINE] + rest && |rest| < |bytes| && |line| == IndexOfNewline(bytes) && NoNewline(line)
  {
    hide IndexOfNewline;
    FirstNewline(bytes);
    SplitsOff(bytes, IndexOfNewline(bytes));
  }

  lemma {:induction false} SplitsOff(bytes: seq<byte>, i: nat)
    requires i < |bytes|
    ensures bytes == bytes[..i] + [bytes[i]] + bytes[i + 1..]
  {}

  ghost predicate NoNewline(bytes: seq<byte>) {
    forall k :: 0 <= k < |bytes| ==> bytes[k] != NEWLINE
  }

  /** The last complete line ends after the last newline. */
  lemma {:induction false} EndIsLastNewline(bytes: seq<byte>)
    ensures StartsLine(bytes, LinesEnd(bytes)) && NoNewline(bytes[LinesEnd(bytes)..])
    decreases |bytes|
  {
    hide *;
    FirstNewline(bytes);
    if IndexOfNewline(bytes) < 0 {
      NothingComplete(bytes);
    } else {
      var line, rest := FirstLine(bytes), LaterLines(bytes);
      SplitFirst(bytes);
      EndIsLastNewline(rest);
      EndOnce(bytes, line, rest);
      StartsAfter(line, rest, LinesEnd(rest));
    }
  }

  lemma {:induction false} NothingComplete(bytes: seq<byte>)
    requires IndexOfNewline(bytes) < 0
    ensures NoNewline(bytes) && LinesEnd(bytes) == 0 && bytes[LinesEnd(bytes)..] == bytes && StartsLine(bytes, 0)
  {
    FirstNewline(bytes);
    hide IndexOfNewline;
  }

  lemma {:induction false} StartsAfter(line: seq<byte>, rest: seq<byte>, end: nat)
    requires end <= |rest|
    ensures StartsLine(rest, end) ==> StartsLine(line + [NEWLINE] + rest, |line| + 1 + end)
    ensures (line + [NEWLINE] + rest)[|line| + 1 + end..] == rest[end..]
  {}

  lemma {:induction false} EndOnce(bytes: seq<byte>, line: seq<byte>, rest: seq<byte>)
    requires bytes == line + [NEWLINE] + rest && NoNewline(line)
    ensures LinesEnd(bytes) == |line| + 1 + LinesEnd(rest)
  {
    hide Entries, LinesEnd;
    EntriesOnce(_ => Parsed<nat>.Blank, bytes, 0, line, rest);
  }

  lemma {:induction false} WholeLines(bytes: seq<byte>)
    requires StartsLine(bytes, |bytes|)
    ensures LinesEnd(bytes) == |bytes|
  {
    hide LinesEnd;
    EndIsLastNewline(bytes);
  }

  /** Reading whole lines and then the rest is reading it all. */
  lemma {:induction false} EntriesConcat<R>(parse: seq<byte> -> Parsed<R>, a: seq<byte>, b: seq<byte>, at: nat)
    requires StartsLine(a, |a|)
    ensures Entries(parse, a + b, at) == Entries(parse, a, at) + Entries(parse, b, at + |a|)
    ensures LinesEnd(a + b) == |a| + LinesEnd(b)
    decreases |a|
  {
    hide *;
    if a == [] {
      assert a + b == b;
      NoLines(parse, a, at) by { NoneInEmpty(a); }
    } else {
      HasNewline(a);
      SplitFirst(a);
      var line, rest := FirstLine(a), LaterLines(a);
      RestStarts(line, rest);
      EntriesConcat(parse, rest, b, at + |line| + 1);
      ConcatOnce(parse, a, b, at, line, rest);
    }
  }

  lemma {:induction false} NoneInEmpty(bytes: seq<byte>)
    requires bytes == []
    ensures NoNewline(bytes)
  {}

  lemma {:induction false} ConcatOnce<R>(parse: seq<byte> -> Parsed<R>, a: seq<byte>, b: seq<byte>, at: nat, line: seq<byte>, rest: seq<byte>)
    requires a == line + [NEWLINE] + rest && NoNewline(line)
    requires Entries(parse, rest + b, at + |line| + 1) == Entries(parse, rest, at + |line| + 1) + Entries(parse, b, at + |a|)
    requires LinesEnd(rest + b) == |rest| + LinesEnd(b)
    ensures Entries(parse, a + b, at) == Entries(parse, a, at) + Entries(parse, b, at + |a|)
    ensures LinesEnd(a + b) == |a| + LinesEnd(b)
  {
    hide *;
    EntriesOnce(parse, a, at, line, rest);
    Reassociate(line, rest, b);
    EntriesOnce(parse, a + b, at, line, rest + b);
    var e, f, g := EntryOf(parse(line), at), Entries(parse, rest, at + |line| + 1), Entries(parse, b, at + |a|);
    assert e + (f + g) == e + f + g;
  }

  lemma {:induction false} HasNewline(a: seq<byte>)
    requires a != [] && StartsLine(a, |a|)
    ensures IndexOfNewline(a) >= 0
  {
    FirstNewline(a);
  }

  lemma {:induction false} RestStarts(line: seq<byte>, rest: seq<byte>)
    ensures StartsLine(line + [NEWLINE] + rest, |line + [NEWLINE] + rest|) ==> StartsLine(rest, |rest|)
  {
    if rest != [] { assert (line + [NEWLINE] + rest)[|line| + |rest|] == rest[|rest| - 1]; }
  }

  lemma {:induction false} Reassociate(line: seq<byte>, rest: seq<byte>, b: seq<byte>)
    ensures line + [NEWLINE] + rest + b == line + [NEWLINE] + (rest + b)
  {}

  /** What follows the last complete line is not read. */
  lemma {:induction false} EntriesOfWhole<R>(parse: seq<byte> -> Parsed<R>, bytes: seq<byte>, at: nat)
    ensures Entries(parse, bytes[..LinesEnd(bytes)], at) == Entries(parse, bytes, at)
  {
    hide Entries, LinesEnd, IndexOfNewline;
    var end := LinesEnd(bytes);
    EndIsLastNewline(bytes);
    var a, b := bytes[..end], bytes[end..];
    assert bytes == a + b;
    assert StartsLine(a, |a|);
    EntriesConcat(parse, a, b, at);
    NoLines(parse, b, at + end);
  }

  /** Each complete line is read where it stands: its record if it has one, at its start, between those before it and those after it. */
  lemma {:induction false} LineRead<R>(parse: seq<byte> -> Parsed<R>, bytes: seq<byte>, at: nat, i: nat, j: nat)
    requires i <= j < |bytes| && (i == 0 || bytes[i - 1] == 10) && bytes[j] == 10 && forall k :: i <= k < j ==> bytes[k] != 10
    ensures Entries(parse, bytes, at)
         == Entries(parse, bytes[..i], at) + (match parse(bytes[i..j]) case Record(record) => [Entry(record, at + i)] case _ => [])
              + Entries(parse, bytes[j + 1..], at + j + 1)
  {
    hide Entries, LinesEnd, IndexOfNewline;
    var a, line, rest := bytes[..i], bytes[i..j], bytes[j + 1..];
    assert bytes == a + (line + [NEWLINE] + rest);
    EntriesConcat(parse, a, line + [NEWLINE] + rest, at);
    EntriesOnce(parse, line + [NEWLINE] + rest, at + i, line, rest);
    assert Entries(parse, a, at) + (EntryOf(parse(line), at + i) + Entries(parse, rest, at + j + 1))
        == Entries(parse, a, at) + EntryOf(parse(line), at + i) + Entries(parse, rest, at + j + 1);
  }

  /** Positions are line starts, in order. */
  lemma {:induction false} PositionsAreLines<R>(parse: seq<byte> -> Parsed<R>, bytes: seq<byte>, at: nat)
    ensures var entries := Entries(parse, bytes, at);
            && Increasing(entries)
            && (forall i :: 0 <= i < |entries| ==> LineIn(bytes, at, entries[i].position))
    decreases |bytes|
  {
    hide Entries, LinesEnd, IndexOfNewline, LineIn, FirstLine, LaterLines;
    if IndexOfNewline(bytes) < 0 {
      NothingComplete(bytes);
      NoLines(parse, bytes, at);
      NonePositioned(parse, bytes, at);
    } else {
      var line, rest := FirstLine(bytes), LaterLines(bytes);
      SplitFirst(bytes);
      PositionsAreLines(parse, rest, at + |line| + 1);
      EntriesOnce(parse, bytes, at, line, rest);
      OneMore(EntryOf(parse(line), at), Entries(parse, rest, at + |line| + 1), line, rest, at);
    }
  }

  lemma {:induction false} NonePositioned<R>(parse: seq<byte> -> Parsed<R>, bytes: seq<byte>, at: nat)
    requires Entries(parse, bytes, at) == []
    ensures Increasing(Entries(parse, bytes, at))
  {
    hide Entries;
  }

  lemma {:induction false} OneMore<R>(first: seq<Entry<R>>, later: seq<Entry<R>>, line: seq<byte>, rest: seq<byte>, at: nat)
    requires |first| <= 1 && (first != [] ==> first[0].position == at) && Increasing(later)
    requires NoNewline(line)
    requires forall i :: 0 <= i < |later| ==> LineIn(rest, at + |line| + 1, later[i].position)
    ensures Increasing(first + later)
    ensures forall i :: 0 <= i < |first + later| ==> LineIn(line + [NEWLINE] + rest, at, (first + later)[i].position)
  {
    hide LinesEnd;
    var bytes, next := line + [NEWLINE] + rest, at + |line| + 1;
    EndOnce(bytes, line, rest);
    forall i | 0 <= i < |first + later| ensures LineIn(bytes, at, (first + later)[i].position) {
      if i >= |first| {
        var position := later[i - |first|].position;
        assert LineIn(rest, next, position);
        StartsAfter(line, rest, position - next);
      }
    }
  }

  /** A line starts at this position, of bytes read at `at`, and is complete. */
  predicate LineIn(bytes: seq<byte>, at: nat, position: nat) {
    at <= position < at + LinesEnd(bytes) && StartsLine(bytes, position - at)
  }

  /** From a record's line on, the bytes hold the records from it on. */
  lemma {:induction false} EntriesFrom<R>(parse: seq<byte> -> Parsed<R>, bytes: seq<byte>, at: nat, i: nat, p: nat)
    requires i < |Entries(parse, bytes, at)| && Entries(parse, bytes, at)[i].position == at + p
    ensures p <= |bytes| && Entries(parse, bytes[p..], at + p) == Entries(parse, bytes, at)[i..]
  {
    hide Entries, LinesEnd;
    PositionsAreLines(parse, bytes, at);
    var entries := Entries(parse, bytes, at);
    assert LineIn(bytes, at, entries[i].position);
    var a, b := bytes[..p], bytes[p..];
    assert bytes == a + b && StartsLine(a, |a|);
    hide *;
    FromPosition(parse, a, b, at, entries, i);
  }

  lemma {:induction false} FromPosition<R>(parse: seq<byte> -> Parsed<R>, a: seq<byte>, b: seq<byte>, at: nat, entries: seq<Entry<R>>, i: nat)
    requires StartsLine(a, |a|) && entries == Entries(parse, a + b, at)
    requires i < |entries| && entries[i].position == at + |a|
    ensures Entries(parse, b, at + |a|) == entries[i..]
  {
    hide Entries, LinesEnd;
    EntriesConcat(parse, a, b, at);
    PositionsAreLines(parse, a, at);
    PositionsAreLines(parse, b, at + |a|);
    var before, from := Entries(parse, a, at), Entries(parse, b, at + |a|);
    assert forall k :: 0 <= k < |before| ==> LineIn(a, at, before[k].position) ==> before[k].position < at + |a|;
    assert forall k :: 0 <= k < |from| ==> LineIn(b, at + |a|, from[k].position) ==> at + |a| <= from[k].position;
    hide *;
    SplitsAt(before, from, i, at + |a|);
  }

  lemma {:induction false} SplitsAt<R>(a: seq<Entry<R>>, b: seq<Entry<R>>, i: nat, p: nat)
    requires i < |a + b| && (a + b)[i].position == p
    requires (forall k :: 0 <= k < |a| ==> a[k].position < p) && (forall k :: 0 <= k < |b| ==> p <= b[k].position) && Increasing(b)
    ensures (a + b)[i..] == b
  {
    assert i >= |a|;
    assert (a + b)[i] == b[i - |a|];
    assert forall j :: 0 < j < |b| ==> b[0].position < b[j].position;
  }

  /** The loop over the newlines from `first` on. */
  method ParseLines<R>(parse: seq<byte> -> Parsed<R>, bytes: seq<byte>, at: nat, first: nat)
    returns (entries: seq<Entry<R>>, end: nat)
    requires first <= |bytes|
    ensures entries == Entries(parse, bytes[first..], at + first)
    ensures end == at + first + LinesEnd(bytes[first..])
  {
    hide Entries, LinesEnd, IndexOfNewline;
    entries := [];
    var line := first;
    var newline := IndexOfNewline(bytes[line..]);
    while newline != -1
      invariant first <= line <= |bytes| && newline == IndexOfNewline(bytes[line..])
      invariant Entries(parse, bytes[first..], at + first) == entries + Entries(parse, bytes[line..], at + line)
      invariant first + LinesEnd(bytes[first..]) == line + LinesEnd(bytes[line..])
      decreases |bytes| - line
    {
      ghost var text, rest := FirstLine(bytes[line..]), LaterLines(bytes[line..]);
      SplitFirst(bytes[line..]);
      assert bytes[line..line + newline] == text && bytes[line + newline + 1..] == rest;
      EntriesOnce(parse, bytes[line..], at + line, text, rest);
      var parsed := parse(bytes[line..line + newline]);
      if parsed.Record? { entries := entries + [Entry(parsed.record, at + line)]; }
      line := line + newline + 1;
      newline := IndexOfNewline(bytes[line..]);
    }
    FirstNewline(bytes[line..]);
    NoLines(parse, bytes[line..], at + line);
    end := at + line;
  }
}
