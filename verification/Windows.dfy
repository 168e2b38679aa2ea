/**
 * A window of a transcript (src/claude/native/pages.ts `Window`): a byte range of a file that only grows, its records
 * with their line positions and the offset of each record's uuid. A record and its position are kept side by side.
 */
module Windows {
  import opened Basics
  import opened Lines

  // ---- offsets ----

  /** `offsets.set` for each record in order. */
  function SetOffsets<R>(uuidOf: R -> Option<Token>, offsets: map<Token, nat>, entries: seq<Entry<R>>): map<Token, nat>
    decreases |entries|
  {
    if entries == [] then offsets
    else match uuidOf(entries[0].record)
         case Some(uuid) => SetOffsets(uuidOf, offsets[uuid := entries[0].position], entries[1..])
         case None => SetOffsets(uuidOf, offsets, entries[1..])
  }

  /** `offsets.set` for each record in order whose uuid has no offset yet. */
  function AddOffsets<R>(uuidOf: R -> Option<Token>, offsets: map<Token, nat>, entries: seq<Entry<R>>): map<Token, nat>
    decreases |entries|
  {
    if entries == [] then offsets
    else match uuidOf(entries[0].record)
         case Some(uuid) => AddOffsets(uuidOf, if uuid in offsets then offsets else offsets[uuid := entries[0].position], entries[1..])
         case None => AddOffsets(uuidOf, offsets, entries[1..])
  }

  predicate Holds<R>(uuidOf: R -> Option<Token>, entry: Entry<R>, uuid: Token) {
    uuidOf(entry.record) == Some(uuid)
  }

  ghost predicate Occurs<R>(uuidOf: R -> Option<Token>, entries: seq<Entry<R>>, uuid: Token) {
    exists i :: 0 <= i < |entries| && Holds(uuidOf, entries[i], uuid)
  }

  /** The position of a uuid's last occurrence. */
  ghost predicate LastAt<R>(uuidOf: R -> Option<Token>, entries: seq<Entry<R>>, uuid: Token, position: nat) {
    exists i :: 0 <= i < |entries| && Holds(uuidOf, entries[i], uuid) && entries[i].position == position
      && forall j :: i < j < |entries| ==> !Holds(uuidOf, entries[j], uuid)
  }

  ghost predicate FirstAt<R>(uuidOf: R -> Option<Token>, entries: seq<Entry<R>>, uuid: Token, position: nat) {
    exists i :: 0 <= i < |entries| && Holds(uuidOf, entries[i], uuid) && entries[i].position == position
      && forall j :: 0 <= j < i ==> !Holds(uuidOf, entries[j], uuid)
  }

  /** The offsets are those of each uuid's last occurrence, and of no other. */
  ghost predicate OffsetsRight<R>(uuidOf: R -> Option<Token>, offsets: map<Token, nat>, entries: seq<Entry<R>>) {
    && (forall uuid :: uuid in offsets <==> Occurs(uuidOf, entries, uuid))
    && (forall uuid :: uuid in offsets ==> LastAt(uuidOf, entries, uuid, offsets[uuid]))
  }

  ghost predicate OffsetsKnown<R>(uuidOf: R -> Option<Token>, offsets: map<Token, nat>, entries: seq<Entry<R>>) {
    forall uuid :: uuid in offsets <==> Occurs(uuidOf, entries, uuid)
  }

  /** A uuid new to the window occurs once in what is read before it. */
  ghost predicate NewOnce<R>(uuidOf: R -> Option<Token>, more: seq<Entry<R>>, entries: seq<Entry<R>>) {
    forall i, j, uuid :: 0 <= i < j < |more| && Holds(uuidOf, more[i], uuid) && Holds(uuidOf, more[j], uuid) ==> Occurs(uuidOf, entries, uuid)
  }

  lemma {:induction false} SetIs<R>(uuidOf: R -> Option<Token>, offsets: map<Token, nat>, more: seq<Entry<R>>, uuid: Token)
    ensures uuid in SetOffsets(uuidOf, offsets, more) <==> uuid in offsets || Occurs(uuidOf, more, uuid)
    ensures Occurs(uuidOf, more, uuid) ==> LastAt(uuidOf, more, uuid, SetOffsets(uuidOf, offsets, more)[uuid])
    ensures !Occurs(uuidOf, more, uuid) && uuid in offsets ==> SetOffsets(uuidOf, offsets, more)[uuid] == offsets[uuid]
    decreases |more|
  {
    if more != [] {
      var first, rest := more[0], more[1..];
      var offsets' := if uuidOf(first.record).Some? then offsets[uuidOf(first.record).value := first.position] else offsets;
      SetIs(uuidOf, offsets', rest, uuid);
      var all := SetOffsets(uuidOf, offsets, more);
      assert all == SetOffsets(uuidOf, offsets', rest);
      hide SetOffsets;
      OccursFirst(uuidOf, first, rest, uuid);
      assert more == [first] + rest;
      if Occurs(uuidOf, rest, uuid) {
        LastLater(uuidOf, first, rest, uuid, all[uuid]);
      } else if Holds(uuidOf, first, uuid) {
        LastFirst(uuidOf, first, rest, uuid);
      }
    }
  }

  lemma {:induction false} AddIs<R>(uuidOf: R -> Option<Token>, offsets: map<Token, nat>, more: seq<Entry<R>>, uuid: Token)
    ensures uuid in AddOffsets(uuidOf, offsets, more) <==> uuid in offsets || Occurs(uuidOf, more, uuid)
    ensures uuid in offsets ==> AddOffsets(uuidOf, offsets, more)[uuid] == offsets[uuid]
    ensures uuid !in offsets && Occurs(uuidOf, more, uuid) ==> FirstAt(uuidOf, more, uuid, AddOffsets(uuidOf, offsets, more)[uuid])
    decreases |more|
  {
    if more != [] {
      var first, rest := more[0], more[1..];
      var held := uuidOf(first.record);
      var offsets' := if held.Some? && held.value !in offsets then offsets[held.value := first.position] else offsets;
      AddIs(uuidOf, offsets', rest, uuid);
      var all := AddOffsets(uuidOf, offsets, more);
      assert all == AddOffsets(uuidOf, offsets', rest);
      hide AddOffsets;
      OccursFirst(uuidOf, first, rest, uuid);
      assert more == [first] + rest;
      if uuid !in offsets && Occurs(uuidOf, more, uuid) {
        if Holds(uuidOf, first, uuid) {
          assert more[0] == first;
        } else {
          FirstLater(uuidOf, first, rest, uuid, all[uuid]);
        }
      }
    }
  }

  lemma {:induction false} OccursFirst<R>(uuidOf: R -> Option<Token>, first: Entry<R>, rest: seq<Entry<R>>, uuid: Token)
    ensures Occurs(uuidOf, [first] + rest, uuid) <==> Holds(uuidOf, first, uuid) || Occurs(uuidOf, rest, uuid)
  {
    OccursEither(uuidOf, [first], rest, uuid);
    if Holds(uuidOf, first, uuid) { assert [first][0] == first; }
  }

  lemma {:induction false} OccursEither<R>(uuidOf: R -> Option<Token>, a: seq<Entry<R>>, b: seq<Entry<R>>, uuid: Token)
    ensures Occurs(uuidOf, a + b, uuid) <==> Occurs(uuidOf, a, uuid) || Occurs(uuidOf, b, uuid)
  {
    hide Holds;
    if Occurs(uuidOf, a, uuid) {
      var i :| 0 <= i < |a| && Holds(uuidOf, a[i], uuid);
      assert (a + b)[i] == a[i];
    }
    if Occurs(uuidOf, b, uuid) {
      var i :| 0 <= i < |b| && Holds(uuidOf, b[i], uuid);
      assert (a + b)[|a| + i] == b[i];
    }
  }

  lemma {:induction false} LastLater<R>(uuidOf: R -> Option<Token>, first: Entry<R>, rest: seq<Entry<R>>, uuid: Token, position: nat)
    requires LastAt(uuidOf, rest, uuid, position)
    ensures LastAt(uuidOf, [first] + rest, uuid, position)
  {
    LastInLater(uuidOf, [first], rest, uuid, position);
  }

  lemma {:induction false} LastInLater<R>(uuidOf: R -> Option<Token>, a: seq<Entry<R>>, b: seq<Entry<R>>, uuid: Token, position: nat)
    requires LastAt(uuidOf, b, uuid, position)
    ensures LastAt(uuidOf, a + b, uuid, position)
  {
    hide Holds;
    var i :| 0 <= i < |b| && Holds(uuidOf, b[i], uuid) && b[i].position == position && forall j :: i < j < |b| ==> !Holds(uuidOf, b[j], uuid);
    assert (a + b)[|a| + i] == b[i];
  }

  lemma {:induction false} LastInEarlier<R>(uuidOf: R -> Option<Token>, a: seq<Entry<R>>, b: seq<Entry<R>>, uuid: Token, position: nat)
    requires LastAt(uuidOf, a, uuid, position) && !Occurs(uuidOf, b, uuid)
    ensures LastAt(uuidOf, a + b, uuid, position)
  {
    hide Holds;
    var i :| 0 <= i < |a| && Holds(uuidOf, a[i], uuid) && a[i].position == position && forall j :: i < j < |a| ==> !Holds(uuidOf, a[j], uuid);
    assert (a + b)[i] == a[i];
    forall j | i < j < |a + b| ensures !Holds(uuidOf, (a + b)[j], uuid) {
      if j >= |a| { assert (a + b)[j] == b[j - |a|]; }
    }
  }

  lemma {:induction false} LastFirst<R>(uuidOf: R -> Option<Token>, first: Entry<R>, rest: seq<Entry<R>>, uuid: Token)
    requires Holds(uuidOf, first, uuid) && !Occurs(uuidOf, rest, uuid)
    ensures LastAt(uuidOf, [first] + rest, uuid, first.position)
  {
    assert Holds(uuidOf, [first][0], uuid);
    LastInEarlier(uuidOf, [first], rest, uuid, first.position);
  }

  lemma {:induction false} FirstLater<R>(uuidOf: R -> Option<Token>, first: Entry<R>, rest: seq<Entry<R>>, uuid: Token, position: nat)
    requires FirstAt(uuidOf, rest, uuid, position) && !Holds(uuidOf, first, uuid)
    ensures FirstAt(uuidOf, [first] + rest, uuid, position)
  {
    hide Holds;
    var i :| 0 <= i < |rest| && Holds(uuidOf, rest[i], uuid) && rest[i].position == position && forall j :: 0 <= j < i ==> !Holds(uuidOf, rest[j], uuid);
    assert ([first] + rest)[1 + i] == rest[i];
  }

  /** Reading on keeps the offsets right, whatever uuids repeat. */
  lemma {:induction false} ForwardKeepsOffsets<R>(uuidOf: R -> Option<Token>, offsets: map<Token, nat>, entries: seq<Entry<R>>, more: seq<Entry<R>>)
    requires OffsetsRight(uuidOf, offsets, entries)
    ensures OffsetsRight(uuidOf, SetOffsets(uuidOf, offsets, more), entries + more)
  {
    hide SetOffsets, Occurs, LastAt;
    var all := SetOffsets(uuidOf, offsets, more);
    forall uuid ensures uuid in all <==> Occurs(uuidOf, entries + more, uuid) {
      SetIs(uuidOf, offsets, more, uuid);
      OccursEither(uuidOf, entries, more, uuid);
    }
    forall uuid | uuid in all ensures LastAt(uuidOf, entries + more, uuid, all[uuid]) {
      SetIs(uuidOf, offsets, more, uuid);
      if Occurs(uuidOf, more, uuid) { LastInLater(uuidOf, entries, more, uuid, all[uuid]); }
      else { LastInEarlier(uuidOf, entries, more, uuid, all[uuid]); }
    }
  }

  /** Reading on or back keeps which uuids have an offset. */
  lemma {:induction false} KnownKeeps<R>(uuidOf: R -> Option<Token>, offsets: map<Token, nat>, entries: seq<Entry<R>>, more: seq<Entry<R>>)
    ensures OffsetsKnown(uuidOf, offsets, entries) ==>
              && OffsetsKnown(uuidOf, SetOffsets(uuidOf, offsets, more), entries + more)
              && OffsetsKnown(uuidOf, AddOffsets(uuidOf, offsets, more), more + entries)
  {
    hide SetOffsets, AddOffsets, Occurs, LastAt, FirstAt;
    forall uuid ensures uuid in SetOffsets(uuidOf, offsets, more) <==> uuid in offsets || Occurs(uuidOf, more, uuid)
      ensures uuid in AddOffsets(uuidOf, offsets, more) <==> uuid in offsets || Occurs(uuidOf, more, uuid)
      ensures Occurs(uuidOf, entries + more, uuid) <==> Occurs(uuidOf, entries, uuid) || Occurs(uuidOf, more, uuid)
      ensures Occurs(uuidOf, more + entries, uuid) <==> Occurs(uuidOf, entries, uuid) || Occurs(uuidOf, more, uuid)
    {
      SetIs(uuidOf, offsets, more, uuid);
      AddIs(uuidOf, offsets, more, uuid);
      OccursEither(uuidOf, entries, more, uuid);
      OccursEither(uuidOf, more, entries, uuid);
    }
  }

  lemma {:induction false} FirstIsLast<R>(uuidOf: R -> Option<Token>, entries: seq<Entry<R>>, uuid: Token, position: nat)
    requires FirstAt(uuidOf, entries, uuid, position)
    requires forall i, j :: 0 <= i < j < |entries| ==> !(Holds(uuidOf, entries[i], uuid) && Holds(uuidOf, entries[j], uuid))
    ensures LastAt(uuidOf, entries, uuid, position)
  {
    hide Holds;
  }

  lemma {:induction false} FirstIsNotLast<R>(uuidOf: R -> Option<Token>, entries: seq<Entry<R>>, uuid: Token, position: nat, i: nat, j: nat)
    requires Increasing(entries) && FirstAt(uuidOf, entries, uuid, position)
    requires i < j < |entries| && Holds(uuidOf, entries[i], uuid) && Holds(uuidOf, entries[j], uuid)
    ensures !LastAt(uuidOf, entries, uuid, position)
  {
    hide Holds;
    var f :| 0 <= f < |entries| && Holds(uuidOf, entries[f], uuid) && entries[f].position == position && forall k :: 0 <= k < f ==> !Holds(uuidOf, entries[k], uuid);
    assert f <= i;
    forall l | 0 <= l < |entries| && Holds(uuidOf, entries[l], uuid) && (forall k :: l < k < |entries| ==> !Holds(uuidOf, entries[k], uuid))
      ensures entries[l].position != position
    {
      assert f < j <= l;
    }
  }

  /**
   * Reading back keeps the offsets right exactly when each uuid new to the window occurs once in what was read: within
   * one read, the first occurrence is kept and not the last.
   */
  lemma {:induction false} BackKeepsOffsets<R>(uuidOf: R -> Option<Token>, offsets: map<Token, nat>, more: seq<Entry<R>>, entries: seq<Entry<R>>)
    requires OffsetsRight(uuidOf, offsets, entries) && Increasing(more)
    ensures OffsetsRight(uuidOf, AddOffsets(uuidOf, offsets, more), more + entries) <==> NewOnce(uuidOf, more, entries)
  {
    hide AddOffsets, Occurs, LastAt, FirstAt, Holds, Increasing;
    var all := AddOffsets(uuidOf, offsets, more);
    forall uuid ensures uuid in all <==> Occurs(uuidOf, more + entries, uuid) {
      AddIs(uuidOf, offsets, more, uuid);
      OccursEither(uuidOf, more, entries, uuid);
    }
    if NewOnce(uuidOf, more, entries) {
      forall uuid | uuid in all ensures LastAt(uuidOf, more + entries, uuid, all[uuid]) {
        AddIs(uuidOf, offsets, more, uuid);
        if uuid in offsets {
          LastInLater(uuidOf, more, entries, uuid, all[uuid]);
        } else {
          FirstIsLast(uuidOf, more, uuid, all[uuid]);
          LastInEarlier(uuidOf, more, entries, uuid, all[uuid]);
        }
      }
    } else {
      var i, j, uuid :| 0 <= i < j < |more| && Holds(uuidOf, more[i], uuid) && Holds(uuidOf, more[j], uuid) && !Occurs(uuidOf, entries, uuid);
      OccursAt(uuidOf, more, i, uuid);
      AddIs(uuidOf, offsets, more, uuid);
      FirstIsNotLast(uuidOf, more, uuid, all[uuid], i, j);
      NotLastEither(uuidOf, more, entries, uuid, all[uuid]);
    }
  }

  lemma {:induction false} OccursAt<R>(uuidOf: R -> Option<Token>, entries: seq<Entry<R>>, i: nat, uuid: Token)
    requires i < |entries| && Holds(uuidOf, entries[i], uuid)
    ensures Occurs(uuidOf, entries, uuid)
  {}

  lemma {:induction false} NotLastEither<R>(uuidOf: R -> Option<Token>, a: seq<Entry<R>>, b: seq<Entry<R>>, uuid: Token, position: nat)
    requires !Occurs(uuidOf, b, uuid)
    ensures LastAt(uuidOf, a + b, uuid, position) ==> LastAt(uuidOf, a, uuid, position)
  {
    hide Holds;
    var all := a + b;
    assert forall j :: 0 <= j < |a| ==> a[j] == all[j];
    forall i | |a| <= i < |all| ensures !Holds(uuidOf, all[i], uuid) { assert all[i] == b[i - |a|]; }
  }

  /** Dropping the first records drops the offsets before the window: right ones stay right. */
  lemma {:induction false} TrimKeepsOffsets<R>(uuidOf: R -> Option<Token>, offsets: map<Token, nat>, entries: seq<Entry<R>>, i: nat)
    requires OffsetsRight(uuidOf, offsets, entries) && Increasing(entries) && i < |entries|
    ensures OffsetsRight(uuidOf, map uuid | uuid in offsets && !(offsets[uuid] < entries[i].position) :: offsets[uuid], entries[i..])
  {
    hide Holds;
    var kept := map uuid | uuid in offsets && !(offsets[uuid] < entries[i].position) :: offsets[uuid];
    forall uuid ensures uuid in kept <==> Occurs(uuidOf, entries[i..], uuid)
      ensures uuid in kept ==> LastAt(uuidOf, entries[i..], uuid, kept[uuid])
    {
      TrimOne(uuidOf, offsets, entries, i, uuid);
    }
  }

  lemma {:induction false} TrimOne<R>(uuidOf: R -> Option<Token>, offsets: map<Token, nat>, entries: seq<Entry<R>>, i: nat, uuid: Token)
    requires OffsetsRight(uuidOf, offsets, entries) && Increasing(entries) && i < |entries|
    ensures uuid in offsets && entries[i].position <= offsets[uuid] <==> Occurs(uuidOf, entries[i..], uuid)
    ensures uuid in offsets && entries[i].position <= offsets[uuid] ==> LastAt(uuidOf, entries[i..], uuid, offsets[uuid])
  {
    hide Holds;
    var rest := entries[i..];
    assert forall k :: 0 <= k < |rest| ==> rest[k] == entries[i + k];
    if uuid in offsets {
      assert LastAt(uuidOf, entries, uuid, offsets[uuid]);
      var l :| 0 <= l < |entries| && Holds(uuidOf, entries[l], uuid) && entries[l].position == offsets[uuid]
        && forall j :: l < j < |entries| ==> !Holds(uuidOf, entries[j], uuid);
      if i <= l {
        assert rest[l - i] == entries[l];
      } else {
        assert entries[l].position < entries[i].position;
      }
    } else if Occurs(uuidOf, rest, uuid) {
      var k :| 0 <= k < |rest| && Holds(uuidOf, rest[k], uuid);
      OccursAt(uuidOf, entries, i + k, uuid);
    }
  }

  // ---- the window ----

  /** How a loop of reads ends: with records enough, with no record in the file, or without the wanted one. */
  datatype Filled = Enough | NoRecords | RecordNotFound

  class Window<R> {
    const parse: seq<byte> -> Parsed<R>
    const uuidOf: R -> Option<Token>
    var start: nat
    var end: nat
    var entries: seq<Entry<R>>
    var offsets: map<Token, nat>

    /** The records are those of the bytes from start to end, which are whole lines unless nothing was read yet. */
    ghost predicate Shows(file: seq<byte>)
      reads this
    {
      && start <= end <= |file|
      && entries == Entries(parse, file[start..end], start)
      && (start < end ==> StartsLine(file, start) && StartsLine(file, end))
    }

    ghost predicate Right()
      reads this
    {
      OffsetsRight(uuidOf, offsets, entries)
    }

    /** The uuids with an offset are those of the records. */
    ghost predicate Knows()
      reads this
    {
      OffsetsKnown(uuidOf, offsets, entries)
    }

    constructor (parse: seq<byte> -> Parsed<R>, uuidOf: R -> Option<Token>, end: nat)
      ensures this.parse == parse && this.uuidOf == uuidOf && this.start == this.end == end
      ensures entries == [] && offsets == map[] && Right()
      ensures forall file: seq<byte> :: end <= |file| ==> Shows(file)
    {
      this.parse, this.uuidOf, this.start, this.end, this.entries, this.offsets := parse, uuidOf, end, end, [], map[];
      new;
      NothingRead(parse, end);
    }

    /**
     * Extends the window back; an error when a line runs past its start, which never happens. False when no line starts
     * in the chunk: nothing changed then, and the whole file before the window is read by a chunk as long.
     */
    method ReadBack(file: seq<byte>, chunk: nat) returns (r: Result<bool, ()>)
      requires Shows(file)
      modifies this
      ensures r.Ok? && Shows(file) && start <= old(start)
      ensures r.value <==> old(start) <= chunk || !NoNewline(file[old(start) - chunk..old(start)])
      ensures !r.value ==> start == old(start) && end == old(end) && entries == old(entries) && offsets == old(offsets)
      ensures old(start) <= chunk ==> start == 0
      ensures r.value && chunk < old(start) ==> old(start) - chunk < start && StartsLine(file, start) && NoNewline(file[old(start) - chunk..start - 1])
      ensures old(start) < old(end) ==> end == old(end)
      ensures r.value ==> var more := Entries(parse, file[start..old(start)], start);
                          entries == more + old(entries) && offsets == AddOffsets(uuidOf, old(offsets), more)
      ensures old(Knows()) ==> Knows()
      ensures old(Right()) && r.value ==> (Right() <==> NewOnce(uuidOf, Entries(parse, file[start..old(start)], start), old(entries)))
    {
      hide Entries, LinesEnd, IndexOfNewline, AddOffsets, OffsetsRight, OffsetsKnown, NewOnce;
      var from := Max(0, start - chunk);
      var bytes := file[from..start];
      var first := if from == 0 then 0 else IndexOfNewline(bytes) + 1;
      FirstStarts(file, from, start);
      if first == 0 && from > 0 { return Ok(false); }
      var more, parsedEnd := ParseLines(parse, bytes, from, first);
      assert bytes[first..] == file[from + first..start];
      Extends(parse, file, from + first, start, end);
      NothingRead(parse, start);
      assert start == end ==> file[start..end] == [];
      if start == end { end := parsedEnd; }
      else if parsedEnd != start { return Err(()); }
      ghost var was := entries;
      start := from + first;
      entries := more + entries;
      BackEntries(uuidOf, parse, file[start..old(start)], start, offsets, was);
      KnownKeeps(uuidOf, offsets, was, more);
      offsets := AddOffsets(uuidOf, offsets, more);
      r := Ok(true);
    }

    /** Appends the whole lines the file has past the window's end; a window without records stays as it is. */
    method ReadForward(file: seq<byte>)
      requires Shows(file)
      modifies this
      ensures Shows(file) && start == old(start)
      ensures old(entries) == [] ==> end == old(end) && entries == [] && offsets == old(offsets)
      ensures old(entries) != [] ==> entries == Entries(parse, file[start..], start) && end == start + LinesEnd(file[start..])
      ensures (old(Right()) ==> Right()) && (old(Knows()) ==> Knows())
    {
      hide Entries, LinesEnd, IndexOfNewline, SetOffsets, OffsetsRight, OffsetsKnown;
      NothingRead(parse, start);
      assert start == end ==> file[start..end] == [];
      if start < end { Appends(parse, file, start, end); }
      if |file| <= end { NoLines(parse, file[end..], end); }
      if |file| <= end || |entries| == 0 { return; }
      var more, parsedEnd := ParseLines(parse, file[end..], end, 0);
      assert file[end..][0..] == file[end..];
      ghost var was := entries;
      end := parsedEnd;
      entries := entries + more;
      if OffsetsRight(uuidOf, offsets, was) { ForwardKeepsOffsets(uuidOf, offsets, was, more); }
      KnownKeeps(uuidOf, offsets, was, more);
      offsets := SetOffsets(uuidOf, offsets, more);
    }

    /** Drops the records before `offset`, but for a window that has none at or past it. */
    method Trim(file: seq<byte>, offset: nat)
      requires Shows(file)
      modifies this
      ensures Shows(file) && end == old(end)
      ensures TrimsAt(old(entries), offset) ==>
                && 0 < |entries| < |old(entries)| && entries == old(entries)[|old(entries)| - |entries|..]
                && offset <= start == entries[0].position
                && forall k :: 0 <= k < |old(entries)| - |entries| ==> old(entries)[k].position < offset
      ensures !TrimsAt(old(entries), offset) ==> start == old(start) && entries == old(entries) && offsets == old(offsets)
      ensures old(Right()) ==> Right()
    {
      hide Entries, LinesEnd, IndexOfNewline, OffsetsRight;
      var index := 0;
      while index < |entries| && entries[index].position < offset
        invariant 0 <= index <= |entries| && forall k :: 0 <= k < index ==> entries[k].position < offset
      {
        index := index + 1;
      }
      if index == |entries| || index == 0 { return; }
      HasSpan(parse, file, start, end);
      assert index < |entries| && offset <= entries[index].position;
      TrimFrom(parse, file, start, end, index);
      ghost var was := entries;
      if OffsetsRight(uuidOf, offsets, was) { TrimKeepsOffsets(uuidOf, offsets, was, index); }
      entries := entries[index..];
      start := entries[0].position;
      offsets := map uuid | uuid in offsets && !(offsets[uuid] < start) :: offsets[uuid];
    }

    /** Where the line of the record after `uuid`'s starts, or the window ends. */
    method After(file: seq<byte>, uuid: Token) returns (at: nat)
      requires Shows(file) && uuid in offsets
      ensures (exists k :: 0 <= k < |entries| && offsets[uuid] < entries[k].position == at) || (at == end && forall k :: 0 <= k < |entries| ==> entries[k].position <= offsets[uuid])
      ensures forall k :: 0 <= k < |entries| && offsets[uuid] < entries[k].position ==> at <= entries[k].position
    {
      hide Entries;
      PositionsAreLines(parse, file[start..end], start);
      var offset := offsets[uuid];
      var low, high := 0, |entries|;
      while low < high
        invariant 0 <= low <= high <= |entries|
        invariant forall k :: 0 <= k < low ==> entries[k].position <= offset
        invariant forall k :: high <= k < |entries| ==> offset < entries[k].position
      {
        var middle := (low + high) / 2;
        if entries[middle].position <= offset { low := middle + 1; } else { high := middle; }
      }
      at := if low < |entries| then entries[low].position else end;
    }

    /**
     * Reads back, by chunks that double, until the records are enough or the file starts in the window. It ends for
     * every chunk of at least a byte, though a read may leave the start where it is: while it does, the chunk catches
     * up with what is left before it.
     */
    method Fill(file: seq<byte>, chunkBytes: nat, leaf: Option<Token>, enough: (nat, seq<Entry<R>>) -> bool) returns (r: Result<Filled, ()>)
      requires Shows(file) && Knows() && chunkBytes >= 1
      modifies this
      ensures r.Ok? && Shows(file) && Knows()
      ensures r == Ok(Enough) ==> entries != [] && (start == 0 || enough(start, entries))
      ensures r == Ok(Enough) && leaf.Some? ==> Occurs(uuidOf, entries, leaf.value)
      ensures r == Ok(NoRecords) ==> leaf.None? && start == 0 && Entries(parse, file[..end], 0) == []
      ensures r == Ok(RecordNotFound) ==> leaf.Some? && start == 0 && !Occurs(uuidOf, Entries(parse, file[..end], 0), leaf.value)
    {
      hide Entries, LinesEnd;
      var chunk := chunkBytes;
      while true
        invariant Shows(file) && Knows() && chunk >= 1
        decreases start, Max(0, start - chunk)
      {
        if |entries| > 0 && (leaf.None? || leaf.value in offsets) {
          if start == 0 || enough(start, entries) { return Ok(Enough); }
        } else if start == 0 {
          assert file[..end] == file[start..end];
          assert entries == Entries(parse, file[..end], 0);
          if leaf.None? {
            assert entries == [];
            return Ok(NoRecords);
          }
          assert leaf.value !in offsets && !Occurs(uuidOf, entries, leaf.value);
          return Ok(RecordNotFound);
        }
        var read := ReadBack(file, chunk);
        if read.Err? { return Err(()); }
        chunk := 2 * chunk;
      }
    }
  }

  /** What is shown stays shown as the file grows. */
  lemma {:induction false} GrowthKeeps<R>(window: Window<R>, file: seq<byte>, more: seq<byte>)
    requires window.Shows(file)
    ensures window.Shows(file + more)
  {
    hide Entries;
    assert (file + more)[window.start..window.end] == file[window.start..window.end];
  }

  /** With distinct uuids in the whole file nothing read back is new twice. */
  lemma {:induction false} DistinctIsNewOnce<R>(uuidOf: R -> Option<Token>, more: seq<Entry<R>>, entries: seq<Entry<R>>)
    requires forall i, j, uuid :: 0 <= i < j < |more + entries| ==> !(Holds(uuidOf, (more + entries)[i], uuid) && Holds(uuidOf, (more + entries)[j], uuid))
    ensures NewOnce(uuidOf, more, entries)
  {
    hide Holds;
    assert forall i :: 0 <= i < |more| ==> (more + entries)[i] == more[i];
  }

  /** Two lines with one uuid, read back at once: the offset kept is the first one's, not the last one's. */
  lemma {:induction false} RepeatedUuidKeepsFirst(uuid: Token)
    ensures var lines := [Entry(uuid, 0), Entry(uuid, 9)];
            var offsets := AddOffsets((record: Token) => Some(record), map[], lines);
            uuid in offsets && offsets[uuid] == 0 && !OffsetsRight((record: Token) => Some(record), offsets, lines)
  {
    var uuidOf := (record: Token) => Some(record);
    var lines := [Entry(uuid, 0), Entry(uuid, 9)];
    assert lines[1..][1..] == [];
    assert AddOffsets(uuidOf, map[], lines) == AddOffsets(uuidOf, map[uuid := 0], lines[1..]);
    assert AddOffsets(uuidOf, map[uuid := 0], lines[1..]) == AddOffsets(uuidOf, map[uuid := 0], lines[1..][1..]);
    assert Holds(uuidOf, lines[1], uuid);
  }

  /** There is a record before the offset and one at or past it. */
  ghost predicate TrimsAt<R>(entries: seq<Entry<R>>, offset: nat) {
    entries != [] && entries[0].position < offset && exists i :: 0 <= i < |entries| && offset <= entries[i].position
  }

  // ---- what the methods rest on ----

  lemma {:induction false} HasSpan<R>(parse: seq<byte> -> Parsed<R>, file: seq<byte>, start: nat, end: nat)
    requires start <= end <= |file| && Entries(parse, file[start..end], start) != []
    ensures start < end
  {
    hide Entries;
    NothingRead(parse, start);
    assert file[start..end] != [];
  }

  /** A chunk read before a position holds the start of a line, or nothing but the middle of one. */
  lemma {:induction false} FirstStarts(file: seq<byte>, from: nat, start: nat)
    requires from <= start <= |file|
    ensures var first := IndexOfNewline(file[from..start]) + 1;
            if first == 0 then NoNewline(file[from..start])
            else from < from + first <= start && StartsLine(file, from + first) && NoNewline(file[from..from + first - 1])
  {
    hide IndexOfNewline;
    var bytes := file[from..start];
    FirstNewline(bytes);
    var i := IndexOfNewline(bytes);
    if i >= 0 {
      assert file[from + i] == bytes[i];
      assert file[from..from + i] == bytes[..i];
      assert StartsLine(file, from + i + 1);
    }
  }

  lemma {:induction false} Appends<R>(parse: seq<byte> -> Parsed<R>, file: seq<byte>, start: nat, end: nat)
    requires start <= end <= |file| && StartsLine(file, end) && (start < end ==> StartsLine(file, start))
    ensures Entries(parse, file[start..], start) == Entries(parse, file[start..end], start) + Entries(parse, file[end..], end)
    ensures var whole := end + LinesEnd(file[end..]);
            && whole == start + LinesEnd(file[start..])
            && whole <= |file| && StartsLine(file, whole) && Entries(parse, file[start..whole], start) == Entries(parse, file[start..], start)
  {
    hide Entries, LinesEnd, IndexOfNewline;
    var a, b := file[start..end], file[end..];
    assert StartsLine(a, |a|);
    assert file[start..] == a + b;
    EntriesConcat(parse, a, b, start);
    EndIsLastNewline(b);
    var last := LinesEnd(b);
    if last > 0 { assert b[last - 1] == file[end + last - 1]; }
    var whole := end + last;
    EntriesOfWhole(parse, file[start..], start);
    assert LinesEnd(file[start..]) == whole - start;
    assert StartsLine(file, whole);
    assert file[start..][..whole - start] == file[start..whole];
  }

  lemma {:induction false} TrimFrom<R>(parse: seq<byte> -> Parsed<R>, file: seq<byte>, start: nat, end: nat, i: nat)
    requires start < end <= |file| && StartsLine(file, start) && i < |Entries(parse, file[start..end], start)|
    ensures var entries := Entries(parse, file[start..end], start);
            && Increasing(entries)
            && start <= entries[i].position < end && StartsLine(file, entries[i].position)
            && Entries(parse, file[entries[i].position..end], entries[i].position) == entries[i..]
  {
    hide Entries, LinesEnd, IndexOfNewline;
    var bytes := file[start..end];
    var p := Entries(parse, bytes, start)[i].position;
    PositionsAreLines(parse, bytes, start);
    assert LineIn(bytes, start, p);
    if p > start { assert bytes[p - start - 1] == file[p - 1]; }
    EntriesFrom(parse, bytes, start, i, p - start);
    assert bytes[p - start..] == file[p..end];
  }

  lemma {:induction false} NothingRead<R>(parse: seq<byte> -> Parsed<R>, at: nat)
    ensures Entries(parse, [], at) == []
  {
    NoLines(parse, [], at);
  }

  /** Whole lines before whole lines: none runs past the window's start. */
  lemma {:induction false} Extends<R>(parse: seq<byte> -> Parsed<R>, file: seq<byte>, from: nat, start: nat, end: nat)
    requires from <= start <= end <= |file| && StartsLine(file, from)
    requires start < end ==> StartsLine(file, start)
    ensures start < end ==> from + LinesEnd(file[from..start]) == start
    ensures start < end ==> Entries(parse, file[from..end], from) == Entries(parse, file[from..start], from) + Entries(parse, file[start..end], start)
    ensures var whole := from + LinesEnd(file[from..start]);
            whole <= start && StartsLine(file, whole) && Entries(parse, file[from..whole], from) == Entries(parse, file[from..start], from)
  {
    hide Entries, LinesEnd, IndexOfNewline;
    var a := file[from..start];
    if start < end {
      assert StartsLine(a, |a|);
      WholeLines(a);
      assert file[from..end] == a + file[start..end];
      EntriesConcat(parse, a, file[start..end], from);
    }
    EntriesOfWhole(parse, a, from);
    EndIsLastNewline(a);
    assert a[..LinesEnd(a)] == file[from..from + LinesEnd(a)];
  }

  lemma {:induction false} BackEntries<R>(uuidOf: R -> Option<Token>, parse: seq<byte> -> Parsed<R>, bytes: seq<byte>, at: nat,
                                          offsets: map<Token, nat>, entries: seq<Entry<R>>)
    ensures var more := Entries(parse, bytes, at);
            OffsetsRight(uuidOf, offsets, entries) ==>
              (OffsetsRight(uuidOf, AddOffsets(uuidOf, offsets, more), more + entries) <==> NewOnce(uuidOf, more, entries))
  {
    hide *;
    var more := Entries(parse, bytes, at);
    PositionsAreLines(parse, bytes, at);
    if OffsetsRight(uuidOf, offsets, entries) { BackKeepsOffsets(uuidOf, offsets, more, entries); }
  }
}
