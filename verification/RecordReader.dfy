/**
 * Reading a transcript's records from a stream of chunks (src/claude/native/records.ts `TranscriptRecordReader`), and
 * its summary from where the last read ended (src/claude/native/catalog.ts `summarize`).
 */
module RecordReader {
  import opened Basics
  import opened Lines

  // ---- what a file's bytes hold, however they are read ----

  function RecordOf<R>(parsed: Parsed<R>): seq<R> {
    if parsed.Record? then [parsed.record] else []
  }

  function RecordsOf<R>(entries: seq<Entry<R>>): seq<R> {
    seq(|entries|, i requires 0 <= i < |entries| => entries[i].record)
  }

  /** The records on the whole lines. */
  function LineRecords<R>(parse: seq<byte> -> Parsed<R>, bytes: seq<byte>): seq<R> {
    RecordsOf(Entries(parse, bytes, 0))
  }

  /** What follows the last newline. */
  function Tail(bytes: seq<byte>): seq<byte> {
    bytes[LinesEnd(bytes)..]
  }

  /** All records: a last line without its newline counts when it parses. */
  function AllRecords<R>(parse: seq<byte> -> Parsed<R>, bytes: seq<byte>): seq<R> {
    LineRecords(parse, bytes) + (if Tail(bytes) == [] then [] else RecordOf(parse(Tail(bytes))))
  }

  function CompleteBytes<R>(parse: seq<byte> -> Parsed<R>, bytes: seq<byte>): (n: nat)
    ensures n <= |bytes|
  {
    if Tail(bytes) == [] || parse(Tail(bytes)).Partial? then LinesEnd(bytes) else |bytes|
  }

  // ---- lemmas ----

  lemma {:induction false} LineRecordsOnce<R>(parse: seq<byte> -> Parsed<R>, line: seq<byte>, rest: seq<byte>)
    requires NoNewline(line)
    ensures LineRecords(parse, line + [NEWLINE] + rest) == RecordOf(parse(line)) + LineRecords(parse, rest)
    ensures Tail(line + [NEWLINE] + rest) == Tail(rest)
    ensures LinesEnd(line + [NEWLINE] + rest) == |line| + 1 + LinesEnd(rest)
  {
    hide Entries, LinesEnd;
    var bytes := line + [NEWLINE] + rest;
    EntriesOnce(parse, bytes, 0, line, rest);
    Anywhere(parse, rest, |line| + 1);
    var first, later := EntryOf(parse(line), 0), Entries(parse, rest, |line| + 1);
    assert RecordsOf(first + later) == RecordsOf(first) + RecordsOf(later);
    assert bytes[|line| + 1 + LinesEnd(rest)..] == rest[LinesEnd(rest)..];
  }

  /** Records do not depend on where the bytes are. */
  lemma {:induction false} Anywhere<R>(parse: seq<byte> -> Parsed<R>, bytes: seq<byte>, at: nat)
    ensures RecordsOf(Entries(parse, bytes, at)) == LineRecords(parse, bytes)
  {
    Shifted(parse, bytes, 0, at);
  }

  lemma {:induction false} Shifted<R>(parse: seq<byte> -> Parsed<R>, bytes: seq<byte>, at: nat, other: nat)
    ensures RecordsOf(Entries(parse, bytes, at)) == RecordsOf(Entries(parse, bytes, other))
    decreases |bytes|
  {
    hide Entries, LinesEnd, IndexOfNewline;
    if IndexOfNewline(bytes) < 0 {
      NothingComplete(bytes);
      NoLines(parse, bytes, at);
      NoLines(parse, bytes, other);
    } else {
      SplitFirst(bytes);
      var line, rest := FirstLine(bytes), LaterLines(bytes);
      Shifted(parse, rest, at + |line| + 1, other + |line| + 1);
      EntriesOnce(parse, bytes, at, line, rest);
      EntriesOnce(parse, bytes, other, line, rest);
      ConcatRecords(EntryOf(parse(line), at), Entries(parse, rest, at + |line| + 1));
      ConcatRecords(EntryOf(parse(line), other), Entries(parse, rest, other + |line| + 1));
    }
  }

  lemma {:induction false} ConcatRecords<R>(a: seq<Entry<R>>, b: seq<Entry<R>>)
    ensures RecordsOf(a + b) == RecordsOf(a) + RecordsOf(b)
  {}

  lemma {:induction false} LineRecordsConcat<R>(parse: seq<byte> -> Parsed<R>, a: seq<byte>, b: seq<byte>)
    requires StartsLine(a, |a|)
    ensures LineRecords(parse, a + b) == LineRecords(parse, a) + LineRecords(parse, b)
    ensures LinesEnd(a + b) == |a| + LinesEnd(b) && Tail(a + b) == Tail(b)
  {
    hide Entries, LinesEnd;
    EntriesConcat(parse, a, b, 0);
    ConcatRecords(Entries(parse, a, 0), Entries(parse, b, |a|));
    Anywhere(parse, b, |a|);
    assert (a + b)[|a| + LinesEnd(b)..] == b[LinesEnd(b)..];
  }

  lemma {:induction false} NoLineRecords<R>(parse: seq<byte> -> Parsed<R>, bytes: seq<byte>)
    requires NoNewline(bytes)
    ensures LineRecords(parse, bytes) == [] && LinesEnd(bytes) == 0 && Tail(bytes) == bytes
  {
    hide Entries, LinesEnd;
    NoLines(parse, bytes, 0);
  }

  /** Whole lines and what follows them. */
  lemma {:induction false} AllRecordsSplit<R>(parse: seq<byte> -> Parsed<R>, a: seq<byte>, b: seq<byte>)
    requires StartsLine(a, |a|)
    ensures AllRecords(parse, a + b) == LineRecords(parse, a) + AllRecords(parse, b)
    ensures CompleteBytes(parse, a + b) == |a| + CompleteBytes(parse, b)
  {
    hide LineRecords, LinesEnd, Tail;
    LineRecordsConcat(parse, a, b);
  }

  // ---- the chunked reader ----

  /**
   * The records and the complete bytes are those of the bytes themselves, for every way the stream cuts them: in the
   * middle of a line, at its newline, into empty chunks.
   */
  method Read<R>(parse: seq<byte> -> Parsed<R>, chunks: seq<seq<byte>>) returns (records: seq<R>, completeBytes: nat, bytesRead: nat)
    ensures records == AllRecords(parse, Flatten(chunks))
    ensures completeBytes == CompleteBytes(parse, Flatten(chunks))
    ensures bytesRead == |Flatten(chunks)|
  {
    hide *;
    records, completeBytes, bytesRead := [], 0, 0;
    var pending: seq<byte> := [];
    ghost var consumed: seq<byte> := [];
    assert chunks[..0] == [];
    NoneYet(parse);
    assert consumed + pending == [];
    for n := 0 to |chunks|
      invariant Flatten(chunks[..n]) == consumed + pending && bytesRead == |consumed + pending|
      invariant StartsLine(consumed, |consumed|) && NoNewline(pending)
      invariant records == LineRecords(parse, consumed) && completeBytes == |consumed|
    {
      var chunk := chunks[n];
      OneChunk(chunks, n);
      assert (consumed + pending) + chunk == consumed + (pending + chunk) && (|pending| == 0 ==> pending + chunk == chunk);
      bytesRead := bytesRead + |chunk|;
      pending := if |pending| == 0 then chunk else pending + chunk;
      var newline := IndexOfNewline(pending);
      NewlineAt(pending);
      while newline != -1
        invariant Flatten(chunks[..n + 1]) == consumed + pending && newline == IndexOfNewline(pending)
        invariant StartsLine(consumed, |consumed|) && -1 <= newline < |pending| && (newline == -1 <==> NoNewline(pending))
        invariant records == LineRecords(parse, consumed) && completeBytes == |consumed|
        decreases |pending|
      {
        var line := pending[..newline];
        OneLineMore(parse, consumed, pending);
        consumed := consumed + (line + [NEWLINE]);
        pending := pending[newline + 1..];
        completeBytes := completeBytes + newline + 1;
        var parsed := parse(line);
        if parsed.Record? { records := records + [parsed.record]; }
        newline := IndexOfNewline(pending);
        NewlineAt(pending);
      }
    }
    assert chunks[..|chunks|] == chunks;
    AllRecordsSplit(parse, consumed, pending);
    LeftPending(parse, pending);
    if |pending| > 0 {
      var parsed := parse(pending);
      if !parsed.Partial? {
        completeBytes := completeBytes + |pending|;
        if parsed.Record? { records := records + [parsed.record]; }
      }
    }
  }

  lemma {:induction false} NoneYet<R>(parse: seq<byte> -> Parsed<R>)
    ensures Flatten<byte>([]) == [] && LineRecords(parse, []) == [] && StartsLine([], 0) && NoNewline([])
  {
    NoLineRecords(parse, []);
  }

  lemma {:induction false} OneChunk(chunks: seq<seq<byte>>, n: nat)
    requires n < |chunks|
    ensures Flatten(chunks[..n + 1]) == Flatten(chunks[..n]) + chunks[n]
  {
    assert chunks[..n + 1] == chunks[..n] + [chunks[n]];
    FlattenConcat(chunks[..n], [chunks[n]]);
    assert [chunks[n]][1..] == [];
    assert Flatten([chunks[n]]) == chunks[n] + Flatten([]);
  }

  lemma {:induction false} OneLine<R>(parse: seq<byte> -> Parsed<R>, consumed: seq<byte>, line: seq<byte>)
    requires StartsLine(consumed, |consumed|) && NoNewline(line)
    ensures LineRecords(parse, consumed + (line + [NEWLINE])) == LineRecords(parse, consumed) + RecordOf(parse(line))
    ensures var whole := consumed + (line + [NEWLINE]); StartsLine(whole, |whole|)
  {
    hide LineRecords, LinesEnd, Tail;
    LineRecordsConcat(parse, consumed, line + [NEWLINE]);
    assert line + [NEWLINE] == line + [NEWLINE] + [];
    LineRecordsOnce(parse, line, []);
    NoLineRecords(parse, []);
  }

  lemma {:induction false} NewlineAt(pending: seq<byte>)
    ensures -1 <= IndexOfNewline(pending) < |pending| && (IndexOfNewline(pending) == -1 <==> NoNewline(pending))
  {
    FirstNewline(pending);
  }

  lemma {:induction false} LeftPending<R>(parse: seq<byte> -> Parsed<R>, pending: seq<byte>)
    requires NoNewline(pending)
    ensures AllRecords(parse, pending) == if |pending| > 0 && parse(pending).Record? then [parse(pending).record] else []
    ensures CompleteBytes(parse, pending) == if |pending| == 0 || parse(pending).Partial? then 0 else |pending|
  {
    OnlyTail(parse, pending);
    hide AllRecords, CompleteBytes;
  }

  /** The pending bytes' first line is read. */
  lemma {:induction false} OneLineMore<R>(parse: seq<byte> -> Parsed<R>, consumed: seq<byte>, pending: seq<byte>)
    requires StartsLine(consumed, |consumed|) && 0 <= IndexOfNewline(pending) < |pending|
    ensures var line, rest := pending[..IndexOfNewline(pending)], pending[IndexOfNewline(pending) + 1..];
            var whole := consumed + (line + [NEWLINE]);
            && whole + rest == consumed + pending && StartsLine(whole, |whole|)
            && LineRecords(parse, whole) == if parse(line).Record? then LineRecords(parse, consumed) + [parse(line).record] else LineRecords(parse, consumed)
  {
    hide LineRecords, IndexOfNewline;
    var line, rest := pending[..IndexOfNewline(pending)], pending[IndexOfNewline(pending) + 1..];
    SplitFirst(pending);
    assert line == FirstLine(pending) && rest == LaterLines(pending);
    hide FirstLine, LaterLines;
    OneLine(parse, consumed, line);
    assert consumed + (line + [NEWLINE]) + rest == consumed + (line + [NEWLINE] + rest);
    assert LineRecords(parse, consumed) + [] == LineRecords(parse, consumed);
    hide StartsLine, NoNewline;
  }

  lemma {:induction false} OnlyTail<R>(parse: seq<byte> -> Parsed<R>, pending: seq<byte>)
    requires NoNewline(pending)
    ensures AllRecords(parse, pending) == if pending == [] then [] else RecordOf(parse(pending))
    ensures CompleteBytes(parse, pending) == if pending == [] || parse(pending).Partial? then 0 else |pending|
  {
    hide LineRecords, LinesEnd;
    NoLineRecords(parse, pending);
  }

  // ---- reading on from where the last read ended ----

  /** The line an append goes on with. */
  function FirstPiece(bytes: seq<byte>): seq<byte> {
    if IndexOfNewline(bytes) < 0 then bytes else FirstLine(bytes)
  }

  /** What was read counts to its last byte. */
  ghost predicate ReadWhole<R>(parse: seq<byte> -> Parsed<R>, bytes: seq<byte>) {
    CompleteBytes(parse, bytes) == |bytes|
  }

  /** A last line that was read without its newline parses the same with what is appended to it, which is blank. */
  ghost predicate Settles<R>(parse: seq<byte> -> Parsed<R>, read: seq<byte>, more: seq<byte>) {
    Tail(read) == [] || more == []
    || (parse(Tail(read) + FirstPiece(more)) == parse(Tail(read)) && parse(FirstPiece(more)).Blank?)
  }

  lemma {:induction false} LinesAndTail(bytes: seq<byte>)
    ensures var lines := bytes[..LinesEnd(bytes)];
            bytes == lines + Tail(bytes) && StartsLine(lines, |lines|) && NoNewline(Tail(bytes)) && lines + [] == lines
  {
    hide LinesEnd;
    EndIsLastNewline(bytes);
  }

  /** A read keeps what it counted: the start of a line still being written adds no record. */
  lemma {:induction false} CountedKept<R>(parse: seq<byte> -> Parsed<R>, file: seq<byte>)
    ensures var read := file[..CompleteBytes(parse, file)];
            ReadWhole(parse, read) && AllRecords(parse, read) == AllRecords(parse, file)
  {
    var lines, tail := file[..LinesEnd(file)], Tail(file);
    hide *;
    LinesAndTail(file);
    AllRecordsSplit(parse, lines, tail);
    AllRecordsSplit(parse, lines, []);
    OnlyTail(parse, tail);
    OnlyTail(parse, []);
    CountedIs(parse, file, lines, tail);
  }

  lemma {:induction false} CountedIs<R>(parse: seq<byte> -> Parsed<R>, file: seq<byte>, lines: seq<byte>, tail: seq<byte>)
    requires file == lines + tail && lines + [] == lines
    requires AllRecords(parse, file) == LineRecords(parse, lines) + AllRecords(parse, tail) && CompleteBytes(parse, file) == |lines| + CompleteBytes(parse, tail)
    requires AllRecords(parse, lines) == LineRecords(parse, lines) + AllRecords(parse, []) && CompleteBytes(parse, lines) == |lines| + CompleteBytes(parse, [])
    requires AllRecords(parse, tail) == (if tail == [] then [] else RecordOf(parse(tail))) && AllRecords(parse, []) == []
    requires CompleteBytes(parse, tail) == (if tail == [] || parse(tail).Partial? then 0 else |tail|) && CompleteBytes(parse, []) == 0
    ensures var read := file[..CompleteBytes(parse, file)];
            ReadWhole(parse, read) && AllRecords(parse, read) == AllRecords(parse, file)
  {
    hide AllRecords, CompleteBytes, LineRecords;
    if CompleteBytes(parse, file) == |file| {
      assert file[..|file|] == file;
    } else {
      assert file[..|lines|] == lines;
    }
  }

  /** Read in one piece and read on from it, line by line. */
  lemma {:induction false} ReadOn<R>(parse: seq<byte> -> Parsed<R>, read: seq<byte>, more: seq<byte>) returns (before: seq<R>, after: seq<R>)
    requires Tail(read) != [] && more != []
    ensures var t, l := Tail(read), FirstPiece(more);
            && AllRecords(parse, read) == before + RecordOf(parse(t))
            && AllRecords(parse, more) == RecordOf(parse(l)) + after
            && AllRecords(parse, read + more) == before + RecordOf(parse(t + l)) + after
            && (!parse(t + l).Partial? && !parse(l).Partial? ==> CompleteBytes(parse, read + more) == |read| + CompleteBytes(parse, more))
  {
    var lines, t, l := read[..LinesEnd(read)], Tail(read), FirstPiece(more);
    hide *;
    LinesAndTail(read);
    AllRecordsSplit(parse, lines, t);
    OnlyTail(parse, t);
    Associates(lines, t, more);
    AllRecordsSplit(parse, lines, t + more);
    before := LineRecords(parse, lines);
    after := OneMoreLine(parse, t, more);
    Associates(before, RecordOf(parse(t + l)), after);
  }

  lemma {:induction false} OneMoreLine<R>(parse: seq<byte> -> Parsed<R>, t: seq<byte>, more: seq<byte>) returns (after: seq<R>)
    requires NoNewline(t) && t != [] && more != []
    ensures var l := FirstPiece(more);
            && AllRecords(parse, more) == RecordOf(parse(l)) + after
            && AllRecords(parse, t + more) == RecordOf(parse(t + l)) + after
            && (!parse(t + l).Partial? && !parse(l).Partial? ==> CompleteBytes(parse, t + more) == |t| + CompleteBytes(parse, more))
  {
    hide *;
    var l := FirstPiece(more);
    Pieces(more);
    NoNewlineIn(t, l);
    if IndexOfNewline(more) < 0 {
      assert t + more != [];
      OnlyTail(parse, more);
      OnlyTail(parse, t + more);
      after := [];
      assert RecordOf(parse(l)) + [] == RecordOf(parse(l)) && RecordOf(parse(t + l)) + [] == RecordOf(parse(t + l));
    } else {
      var rest := LaterLines(more);
      Reassociates(t, l, rest);
      OneAndRest(parse, l, rest);
      OneAndRest(parse, t + l, rest);
      after := AllRecords(parse, rest);
    }
  }

  lemma {:induction false} Reassociates(t: seq<byte>, l: seq<byte>, rest: seq<byte>)
    ensures t + (l + [NEWLINE] + rest) == (t + l) + [NEWLINE] + rest
  {}

  lemma {:induction false} Associates<T>(a: seq<T>, b: seq<T>, c: seq<T>)
    ensures a + (b + c) == a + b + c
  {}

  lemma {:induction false} NoNewlineIn(a: seq<byte>, b: seq<byte>)
    requires NoNewline(a) && NoNewline(b)
    ensures NoNewline(a + b)
  {}

  lemma {:induction false} Pieces(more: seq<byte>)
    ensures NoNewline(FirstPiece(more))
    ensures IndexOfNewline(more) < 0 ==> FirstPiece(more) == more
    ensures IndexOfNewline(more) >= 0 ==> more == FirstPiece(more) + [NEWLINE] + LaterLines(more)
  {
    hide IndexOfNewline;
    FirstNewline(more);
    if IndexOfNewline(more) >= 0 { SplitFirst(more); }
  }

  lemma {:induction false} OneAndRest<R>(parse: seq<byte> -> Parsed<R>, line: seq<byte>, rest: seq<byte>)
    requires NoNewline(line)
    ensures AllRecords(parse, line + [NEWLINE] + rest) == RecordOf(parse(line)) + AllRecords(parse, rest)
    ensures CompleteBytes(parse, line + [NEWLINE] + rest) == |line| + 1 + CompleteBytes(parse, rest)
  {
    hide LineRecords, LinesEnd, AllRecords, CompleteBytes;
    var first := line + [NEWLINE];
    AllRecordsSplit(parse, first, rest);
    OneLine(parse, [], line);
    NoneYet(parse);
    assert [] + first == first;
  }

  /**
   * Reading on is reading the whole: exactly when the line that the last read ended in the middle of holds the same
   * record in two parts as in one.
   */
  lemma {:induction false} ReadOnIsWhole<R>(parse: seq<byte> -> Parsed<R>, read: seq<byte>, more: seq<byte>)
    requires ReadWhole(parse, read)
    ensures AllRecords(parse, read) + AllRecords(parse, more) == AllRecords(parse, read + more) <==>
            Tail(read) == [] || more == []
            || RecordOf(parse(Tail(read) + FirstPiece(more))) == RecordOf(parse(Tail(read))) + RecordOf(parse(FirstPiece(more)))
    ensures Settles(parse, read, more) ==>
            && AllRecords(parse, read) + AllRecords(parse, more) == AllRecords(parse, read + more)
            && CompleteBytes(parse, read + more) == |read| + CompleteBytes(parse, more)
  {
    hide AllRecords, CompleteBytes, FirstPiece, LinesEnd;
    if Tail(read) == [] {
      NothingAfter(parse, read, more);
    } else if more == [] {
      assert read + more == read;
      OnlyTail(parse, more);
    } else {
      hide Tail;
      var before, after := ReadOn(parse, read, more);
      var t, l := Tail(read), FirstPiece(more);
      Cancels(before, RecordOf(parse(t)), RecordOf(parse(l)), RecordOf(parse(t + l)), after);
      if Settles(parse, read, more) { assert !parse(t).Partial? by { TailParses(parse, read); } }
    }
  }

  lemma {:induction false} TailParses<R>(parse: seq<byte> -> Parsed<R>, read: seq<byte>)
    requires ReadWhole(parse, read) && Tail(read) != []
    ensures !parse(Tail(read)).Partial?
  {
    hide LinesEnd;
  }

  lemma {:induction false} NothingAfter<R>(parse: seq<byte> -> Parsed<R>, read: seq<byte>, more: seq<byte>)
    requires Tail(read) == []
    ensures AllRecords(parse, read) + AllRecords(parse, more) == AllRecords(parse, read + more)
    ensures CompleteBytes(parse, read + more) == |read| + CompleteBytes(parse, more)
  {
    hide LinesEnd, LineRecords;
    EndIsLastNewline(read);
    assert LinesEnd(read) == |read|;
    AllRecordsSplit(parse, read, more);
  }

  lemma {:induction false} Cancels<R>(before: seq<R>, t: seq<R>, l: seq<R>, tl: seq<R>, after: seq<R>)
    ensures before + t + (l + after) == before + tl + after <==> t + l == tl
  {
    var n := |before|;
    assert before + t + (l + after) == before + (t + l) + after;
    if before + (t + l) + after == before + tl + after {
      var x, y := before + (t + l) + after, before + tl + after;
      assert |t + l| == |tl|;
      assert t + l == x[n..n + |tl|] && tl == y[n..n + |tl|];
    }
  }

  // ---- incremental summaries ----

  function Fold<S, R>(accept: (S, R) -> S, state: S, records: seq<R>): S {
    if records == [] then state else Fold(accept, accept(state, records[0]), records[1..])
  }

  lemma {:induction false} FoldConcat<S, R>(accept: (S, R) -> S, state: S, a: seq<R>, b: seq<R>)
    ensures Fold(accept, state, a + b) == Fold(accept, Fold(accept, state, a), b)
    decreases |a|
  {
    if a == [] {
      assert a + b == b;
    } else {
      assert (a + b)[1..] == a[1..] + b;
      FoldConcat(accept, accept(state, a[0]), a[1..], b);
    }
  }

  /** One record more is accepted by the state the others left. */
  lemma {:induction false} FoldOnce<S, R>(accept: (S, R) -> S, state: S, records: seq<R>, record: R)
    ensures Fold(accept, state, []) == state && Fold(accept, state, records + [record]) == accept(Fold(accept, state, records), record)
  {
    FoldConcat(accept, state, records, [record]);
    assert [record][1..] == [];
  }

  /** A file's cached summary: how far it was read, and the state then. */
  class CachedEntry<S, R> {
    const parse: seq<byte> -> Parsed<R>
    const accept: (S, R) -> S
    const empty: S
    var offset: nat
    var state: S

    /** The state is the summary of the whole file. */
    ghost predicate Summarizes(file: seq<byte>)
      reads this
    {
      state == Fold(accept, empty, AllRecords(parse, file)) && offset == CompleteBytes(parse, file)
    }

    constructor (parse: seq<byte> -> Parsed<R>, accept: (S, R) -> S, empty: S)
      ensures this.parse == parse && this.accept == accept && this.empty == empty && Summarizes([])
    {
      this.parse, this.accept, this.empty := parse, accept, empty;
      this.offset, this.state := 0, empty;
      new;
      OnlyTail(parse, []);
    }

    /**
     * A refresh: nothing for a file that did not change; from the offset for one whose head is the same; else from its
     * start. It leaves the summary of the whole file, when a file with the same head, at least as long as what was
     * counted, was only appended to, and a line counted without its newline settles.
     */
    method Summarize(ghost known: seq<byte>, file: seq<byte>, sameStat: bool, sameHead: bool, chunks: seq<seq<byte>>)
      requires Summarizes(known)
      requires sameStat ==> file == known
      requires sameHead && offset <= |file| ==> offset <= |known| && file[..offset] == known[..offset] && Settles(parse, file[..offset], file[offset..])
      requires Flatten(chunks) == file[(if sameHead && offset <= |file| then offset else 0)..]
      modifies this
      ensures Summarizes(file)
    {
      if sameStat { return; }
      hide *;
      var start := if offset <= |file| && sameHead then offset else 0;
      offset, state := ReadFrom(parse, accept, empty, known, file, start, if offset <= |file| && sameHead then state else empty, chunks);
    }
  }

  /** The records from `start` on, accepted by the state as of there. */
  method ReadFrom<S, R>(parse: seq<byte> -> Parsed<R>, accept: (S, R) -> S, empty: S, ghost known: seq<byte>, file: seq<byte>,
                        start: nat, state: S, chunks: seq<seq<byte>>)
    returns (offset: nat, summary: S)
    requires || (start == 0 && state == empty)
             || (start == CompleteBytes(parse, known) && start <= |file| && file[..start] == known[..start] && Settles(parse, file[..start], file[start..])
                 && state == Fold(accept, empty, AllRecords(parse, known)))
    requires start <= |file| && Flatten(chunks) == file[start..]
    ensures summary == Fold(accept, empty, AllRecords(parse, file)) && offset == CompleteBytes(parse, file)
  {
    hide *;
    offset, summary := start, state;
    GoesOn(parse, accept, empty, known, file, start);
    EmptyFold(accept, empty, known, parse);
    if start < |file| {
      var records, completeBytes, bytesRead := Read(parse, chunks);
      summary := FoldAll(accept, summary, records);
      offset := offset + completeBytes;
    }
  }

  lemma {:induction false} EmptyFold<S, R>(accept: (S, R) -> S, empty: S, known: seq<byte>, parse: seq<byte> -> Parsed<R>)
    ensures CompleteBytes(parse, known) == 0 ==> AllRecords(parse, known) == []
  {
    CountedKept(parse, known);
    OnlyTail(parse, []);
    assert known[..0] == [];
  }

  method FoldAll<S, R>(accept: (S, R) -> S, state: S, records: seq<R>) returns (s: S)
    ensures s == Fold(accept, state, records)
  {
    s := state;
    for i := 0 to |records|
      invariant Fold(accept, state, records) == Fold(accept, s, records[i..])
    {
      s := accept(s, records[i]);
      assert records[i..][1..] == records[i + 1..];
    }
  }

  /** What one refresh adds, from the offset or from the start. */
  lemma {:induction false} GoesOn<S, R>(parse: seq<byte> -> Parsed<R>, accept: (S, R) -> S, empty: S, known: seq<byte>, file: seq<byte>, start: nat)
    requires start == 0 || (start == CompleteBytes(parse, known) && start <= |file| && file[..start] == known[..start] && Settles(parse, file[..start], file[start..]))
    ensures start <= |file|
    ensures var before := if start == 0 then [] else AllRecords(parse, known);
            && Fold(accept, empty, AllRecords(parse, file)) == Fold(accept, Fold(accept, empty, before), AllRecords(parse, file[start..]))
            && Fold(accept, empty, []) == empty
            && CompleteBytes(parse, file) == start + CompleteBytes(parse, file[start..])
            && (start == |file| ==> AllRecords(parse, file[start..]) == [] && CompleteBytes(parse, file[start..]) == 0)
            && Fold(accept, Fold(accept, empty, before), []) == Fold(accept, empty, before)
  {
    hide AllRecords, CompleteBytes, Settles;
    OnlyTail(parse, []);
    if start == 0 {
      assert file[0..] == file;
    } else {
      hide Fold;
      CountedKept(parse, known);
      var read, more := file[..start], file[start..];
      assert file == read + more;
      ReadOnIsWhole(parse, read, more);
      FoldConcat(accept, empty, AllRecords(parse, read), AllRecords(parse, more));
    }
    if start == |file| { assert file[start..] == []; }
  }
}
