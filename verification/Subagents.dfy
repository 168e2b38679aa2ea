/**
 * A sub-agent's header from the two ends of its transcript (src/claude/native/subagents.ts): the same as from all its
 * whole lines in what the first records set and in what every reply of the model tells.
 */
module Subagents {
  import opened Basics
  import opened Lines
  import opened RecordReader
  import opened Summary

  const END_BYTES := 65536

  type Parse = seq<byte> -> Parsed<Summary.Record>

  /** The first record a test holds of. */
  function FindRecord(test: Summary.Record -> bool, records: seq<Summary.Record>): (r: Option<Summary.Record>)
    decreases |records|
  {
    if records == [] then None else if test(records[0]) then Some(records[0]) else FindRecord(test, records[1..])
  }

  function SpawnedBy(toolUseId: Token): Summary.Record -> bool {
    (record: Summary.Record) => record.body.User? && record.body.sourceToolUseId == Some(toolUseId)
  }

  predicate SaysSomething(record: Summary.Record) {
    record.body.User? && !record.body.isCompactSummary && record.body.hasText
  }

  /** The prompt the tool call gave, else the first user record with text. */
  function TaskPrompt(records: seq<Summary.Record>, toolUseId: Token): Option<Summary.Record> {
    var spawned := FindRecord(SpawnedBy(toolUseId), records);
    if spawned.Some? then spawned else FindRecord(SaysSomething, records)
  }

  /** A reply of the model: it names the model, which is not Claude's own. */
  predicate ModelReply(record: Summary.Record) {
    record.body.Assistant? && record.body.model.Some? && record.body.model.value.Named?
  }

  predicate SomeReply(records: seq<Summary.Record>) {
    exists i :: 0 <= i < |records| && ModelReply(records[i])
  }

  function ReplyModel(record: Summary.Record): Option<Model> { if ModelReply(record) then record.body.model else None }

  // ---- the two ends ----

  lemma {:induction false} FoundIn(test: Summary.Record -> bool, records: seq<Summary.Record>)
    ensures var found := FindRecord(test, records);
            found.Some? ==> test(found.value) && exists i :: 0 <= i < |records| && records[i] == found.value
    decreases |records|
  {
    if records != [] && !test(records[0]) {
      FoundIn(test, records[1..]);
      var found := FindRecord(test, records[1..]);
      if found.Some? {
        var i :| 0 <= i < |records| - 1 && records[1..][i] == found.value;
        assert records[i + 1] == found.value;
      }
    }
  }

  lemma {:induction false} PromptIn(records: seq<Summary.Record>, toolUseId: Token)
    ensures var prompt := TaskPrompt(records, toolUseId);
            prompt.Some? ==> prompt.value.body.User? && exists i :: 0 <= i < |records| && records[i] == prompt.value
  {
    hide FindRecord;
    FoundIn(SpawnedBy(toolUseId), records);
    FoundIn(SaysSomething, records);
  }

  lemma {:induction false} FoundFirst(test: Summary.Record -> bool, records: seq<Summary.Record>)
    ensures match FindRecord(test, records)
            case Some(found) => test(found) && exists i :: 0 <= i < |records| && records[i] == found && forall j :: 0 <= j < i ==> !test(records[j])
            case None => forall i :: 0 <= i < |records| ==> !test(records[i])
    decreases |records|
  {
    if records != [] && !test(records[0]) {
      FoundFirst(test, records[1..]);
      var found := FindRecord(test, records[1..]);
      assert forall j :: 0 < j < |records| ==> records[j] == records[1..][j - 1];
      if found.Some? {
        var i :| 0 <= i < |records| - 1 && records[1..][i] == found.value && forall j :: 0 <= j < i ==> !test(records[1..][j]);
        assert records[i + 1] == found.value;
      }
    } else if records != [] {
      assert records[0] == records[0];
    }
  }

  /** The prompt is the first user record that the tool call made; with none, the first with a text that is no compaction's summary. */
  lemma {:induction false} TaskPromptIs(records: seq<Summary.Record>, toolUseId: Token)
    ensures var spawned := (record: Summary.Record) => record.body.User? && record.body.sourceToolUseId == Some(toolUseId);
            var says := (record: Summary.Record) => record.body.User? && record.body.hasText && !record.body.isCompactSummary;
            match TaskPrompt(records, toolUseId)
            case Some(prompt) =>
              exists i :: 0 <= i < |records| && records[i] == prompt
                          && if spawned(prompt) then forall j :: 0 <= j < i ==> !spawned(records[j])
                             else says(prompt) && (forall j :: 0 <= j < |records| ==> !spawned(records[j])) && forall j :: 0 <= j < i ==> !says(records[j])
            case None => forall i :: 0 <= i < |records| ==> !spawned(records[i]) && !says(records[i])
  {
    hide FindRecord;
    FoundFirst(SpawnedBy(toolUseId), records);
    FoundFirst(SaysSomething, records);
  }

  lemma {:induction false} ReplyIs(records: seq<Summary.Record>)
    ensures SomeReply(records) <==>
            exists i :: 0 <= i < |records| && records[i].body.Assistant? && records[i].body.model.Some? && records[i].body.model.value.Named?
  {
    if i :| 0 <= i < |records| && records[i].body.Assistant? && records[i].body.model.Some? && records[i].body.model.value.Named? {
      assert ModelReply(records[i]);
    }
  }

  /** The file is longer than this, and its lines so far do not hold the prompt. */
  ghost predicate NoPromptIn(parse: Parse, file: seq<byte>, length: nat, toolUseId: Token) {
    length < |file| && TaskPrompt(LineRecords(parse, file[..length]), toolUseId).None?
  }

  /** The whole lines from the start as far as the sub-agent's prompt: the length read doubles from 65536 bytes until it shows or all is read. */
  method Head(parse: Parse, file: seq<byte>, toolUseId: Token)
    returns (records: seq<Summary.Record>, end: nat, prompt: Option<Summary.Record>, ghost length: nat)
    ensures end <= |file| && StartsLine(file, end) && records == LineRecords(parse, file[..end]) == LineRecords(parse, file[..Min(length, |file|)])
    ensures length == 65536 || exists half: nat :: length == 2 * half && NoPromptIn(parse, file, half, toolUseId)
    ensures prompt == TaskPrompt(records, toolUseId)
    ensures prompt.None? ==> records == LineRecords(parse, file)
  {
    hide Entries, LinesEnd, TaskPrompt, LineRecords;
    var size := END_BYTES;
    while true
      invariant size > 0 && (size == END_BYTES || exists half: nat :: size == 2 * half && NoPromptIn(parse, file, half, toolUseId))
      decreases |file| - size
    {
      var bytes := file[..Min(size, |file|)];
      var entries;
      entries, end := ParseLines(parse, bytes, 0, 0);
      HeadLines(parse, file, bytes, Min(size, |file|));
      assert bytes[0..] == bytes;
      records := RecordsOf(entries);
      prompt := TaskPrompt(records, toolUseId);
      length := size;
      if prompt.Some? || size >= |file| {
        if size >= |file| { assert bytes == file; }
        return;
      }
      assert NoPromptIn(parse, file, size, toolUseId);
      size := 2 * size;
    }
  }

  lemma {:induction false} HeadLines(parse: Parse, file: seq<byte>, bytes: seq<byte>, length: nat)
    requires length <= |file| && bytes == file[..length]
    ensures var end := LinesEnd(bytes);
            StartsLine(file, end) && LineRecords(parse, file[..end]) == RecordsOf(Entries(parse, bytes, 0)) == LineRecords(parse, bytes)
  {
    hide Entries, LinesEnd;
    EndIsLastNewline(bytes);
    EntriesOfWhole(parse, bytes, 0);
    assert bytes[..LinesEnd(bytes)] == file[..LinesEnd(bytes)];
  }

  /** None of the whole lines after this hold a reply. */
  ghost predicate NoReplyAfter(parse: Parse, file: seq<byte>, from: nat) {
    forall at :: from < at <= |file| && StartsLine(file, at) ==> !SomeReply(LineRecords(parse, file[at..]))
  }

  /** The whole lines back from the end as far as the last reply of the model, not before `start`, by lengths that double from 65536 bytes. */
  method Tail(parse: Parse, file: seq<byte>, start: nat) returns (records: seq<Summary.Record>, at: nat, ghost length: nat)
    requires start <= |file| && StartsLine(file, start)
    ensures start <= at <= |file| && StartsLine(file, at) && records == LineRecords(parse, file[at..])
    ensures at == start || SomeReply(records)
    ensures at == start || exists i :: 0 <= i < |records| && records[i].body.Assistant? && records[i].body.model.Some? && records[i].body.model.value.Named?
    ensures at == start || (|file| - length < at && forall k :: Max(0, |file| - length) <= k < at - 1 ==> file[k] != NEWLINE)
    ensures length == 65536 || exists half: nat :: length == 2 * half && half < |file| - start && NoReplyAfter(parse, file, |file| - half)
  {
    hide Entries, LinesEnd, LineRecords, IndexOfNewline, SomeReply, NoReplyAfter;
    var size := END_BYTES;
    while true
      invariant size > 0 && (size == END_BYTES || exists half: nat :: size == 2 * half && half < |file| - start && NoReplyAfter(parse, file, |file| - half))
      decreases |file| - start - size
    {
      var from := Max(start, |file| - size);
      var bytes := file[from..];
      var first := if from == start then 0 else IndexOfNewline(bytes) + 1;
      TailLines(parse, file, from, bytes);
      length := size;
      size := 2 * size;
      if first == 0 && from > start {
        NoneAfter(parse, file, from);
        continue;
      }
      var entries, end := ParseLines(parse, bytes, from, first);
      assert bytes[first..] == file[from + first..];
      Anywhere(parse, bytes[first..], from + first);
      records := RecordsOf(entries);
      at := from + first;
      ReplyIs(records);
      if from == start || SomeReply(records) { return; }
      NoneBack(parse, file, from, at);
    }
  }

  lemma {:induction false} NoneAfter(parse: Parse, file: seq<byte>, from: nat)
    requires from <= |file| && IndexOfNewline(file[from..]) < 0
    ensures NoReplyAfter(parse, file, from)
  {
    hide IndexOfNewline, LineRecords, SomeReply;
    FirstNewline(file[from..]);
    forall k | from <= k < |file| ensures file[k] != NEWLINE { assert file[from..][k - from] == file[k]; }
  }

  /** A reply in the last lines is one in the lines before them too. */
  lemma {:induction false} NoneBack(parse: Parse, file: seq<byte>, from: nat, first: nat)
    requires from < first <= |file| && StartsLine(file, first) && (forall k :: from <= k < first - 1 ==> file[k] != NEWLINE)
    requires !SomeReply(LineRecords(parse, file[first..]))
    ensures NoReplyAfter(parse, file, from)
  {
    hide LineRecords, SomeReply;
    forall at | from < at <= |file| && StartsLine(file, at) ensures !SomeReply(LineRecords(parse, file[at..])) {
      assert file[at - 1] == NEWLINE && at >= first;
      var between := file[first..at];
      assert file[first..] == between + file[at..];
      assert StartsLine(between, |between|) by { if |between| > 0 { assert between[|between| - 1] == file[at - 1]; } }
      LineRecordsConcat(parse, between, file[at..]);
      MoreReplies(LineRecords(parse, between), LineRecords(parse, file[at..]));
    }
  }

  lemma {:induction false} MoreReplies(a: seq<Summary.Record>, b: seq<Summary.Record>)
    ensures SomeReply(b) ==> SomeReply(a + b)
  {
    if SomeReply(b) {
      var i :| 0 <= i < |b| && ModelReply(b[i]);
      assert (a + b)[|a| + i] == b[i];
    }
  }

  lemma {:induction false} TailLines(parse: Parse, file: seq<byte>, from: nat, bytes: seq<byte>)
    requires from <= |file| && bytes == file[from..]
    ensures var i := IndexOfNewline(bytes); i >= 0 ==> StartsLine(file, from + i + 1) && forall k :: from <= k < from + i ==> file[k] != NEWLINE
  {
    hide IndexOfNewline;
    FirstNewline(bytes);
    var i := IndexOfNewline(bytes);
    assert forall k :: from <= k < |file| ==> file[k] == bytes[k - from];
  }

  // ---- what is skipped between them ----

  /** A first-wins field reads the same without the middle exactly when the middle does not set it first. */
  lemma {:induction false} FirstSkips<T>(of: Summary.Record -> Option<T>, head: seq<Summary.Record>, middle: seq<Summary.Record>, tail: seq<Summary.Record>)
    ensures First(of, head + tail) == First(of, head + middle + tail) <==>
            First(of, head).Some? || First(of, middle).None? || First(of, middle) == First(of, tail)
  {
    hide First;
    FirstConcat(of, head, tail);
    FirstConcat(of, head + middle, tail);
    FirstConcat(of, head, middle);
  }

  /** A last-wins field reads the same without the middle exactly when the middle does not set it last. */
  lemma {:induction false} LastSkips<T>(of: Summary.Record -> Option<T>, head: seq<Summary.Record>, middle: seq<Summary.Record>, tail: seq<Summary.Record>)
    ensures Last(of, head + tail) == Last(of, head + middle + tail) <==>
            Last(of, tail).Some? || Last(of, middle).None? || Last(of, middle) == Last(of, head)
  {
    hide Last;
    LastConcat(of, head, tail);
    LastConcat(of, head + middle, tail);
    LastConcat(of, head, middle);
  }

  lemma {:induction false} FirstSome<T>(of: Summary.Record -> Option<T>, records: seq<Summary.Record>, i: nat)
    requires i < |records| && of(records[i]).Some?
    ensures First(of, records).Some?
    decreases |records|
  {
    if i > 0 && of(records[0]).None? { FirstSome(of, records[1..], i - 1); }
  }

  lemma {:induction false} LastSome<T>(of: Summary.Record -> Option<T>, records: seq<Summary.Record>, i: nat)
    requires i < |records| && of(records[i]).Some?
    ensures Last(of, records).Some?
    decreases |records|
  {
    if i < |records| - 1 && of(records[|records| - 1]).None? { LastSome(of, records[..|records| - 1], i); }
  }

  /** The model's replies carry a valid time. */
  ghost predicate RepliesTimed(records: seq<Summary.Record>) {
    forall i :: 0 <= i < |records| && ModelReply(records[i]) ==> records[i].timestamp.Some?
  }

  /** What is read of the two ends tells the header of all: but for the effort and the other last-wins fields. */
  ghost predicate SameHeader(ends: seq<Summary.Record>, all: seq<Summary.Record>, promptUuid: Option<Token>) {
    && First(CwdOf, ends) == First(CwdOf, all)
    && First(TimeOf, ends) == First(TimeOf, all) && Last(TimeOf, ends) == Last(TimeOf, all)
    && First(PreviewOf(promptUuid), ends) == First(PreviewOf(promptUuid), all)
    && Last(ModelOf, ends) == Last(ModelOf, all)
    && Last(ReplyModel, ends) == Last(ReplyModel, all)
  }

  lemma {:induction false} EndsTellAll(head: seq<Summary.Record>, middle: seq<Summary.Record>, tail: seq<Summary.Record>, prompt: Summary.Record)
    requires First(CwdOf, head).Some? && First(TimeOf, head).Some?
    requires RepliesTimed(tail) && (middle == [] || SomeReply(tail))
    requires prompt.body.User? && exists i :: 0 <= i < |head| && head[i] == prompt
    ensures SameHeader(head + tail, head + middle + tail, Some(prompt.uuid))
  {
    hide First, Last;
    var i :| 0 <= i < |head| && head[i] == prompt;
    FirstSome(PreviewOf(Some(prompt.uuid)), head, i);
    if middle == [] {
      assert head + middle + tail == head + tail;
    } else {
      var j :| 0 <= j < |tail| && ModelReply(tail[j]);
      LastSome(TimeOf, tail, j);
      LastSome(ModelOf, tail, j);
      LastSome(ReplyModel, tail, j);
      FirstSkips(CwdOf, head, middle, tail);
      FirstSkips(TimeOf, head, middle, tail);
      FirstSkips(PreviewOf(Some(prompt.uuid)), head, middle, tail);
      LastSkips(TimeOf, head, middle, tail);
      LastSkips(ModelOf, head, middle, tail);
      LastSkips(ReplyModel, head, middle, tail);
    }
  }

  /** A sub-agent's header; without the prompt, reading it fails. */
  datatype Subagent = Subagent(cwd: Token, createdAt: int, updatedAt: int, preview: Option<Token>, headerModel: Option<Model>,
                               model: Option<Model>, reasoningEffort: Option<Token>)

  /** The header that all of the records tell. */
  ghost predicate Tells(records: seq<Summary.Record>, root: Token, promptUuid: Option<Token>, s: Subagent) {
    && s.cwd == First(CwdOf, records).GetOr(root)
    && s.createdAt == First(TimeOf, records).GetOr(0) && s.updatedAt == Last(TimeOf, records).GetOr(0)
    && s.preview == First(PreviewOf(promptUuid), records)
    && s.headerModel == Last(ModelOf, records) && s.model == Last(ReplyModel, records)
  }

  /**
   * Reads a sub-agent: its directory, start, last change, preview and model are those of all its whole lines, when the
   * head read holds a directory and a time and the model's replies have times. Its effort is, exactly when the lines
   * skipped in the middle tell none after which the end tells none.
   */
  method ReadSubagent(parse: Parse, file: seq<byte>, toolUseId: Token, root: Token)
    returns (r: Option<Subagent>, ghost head: seq<Summary.Record>, ghost middle: seq<Summary.Record>, ghost tail: seq<Summary.Record>)
    ensures head + middle + tail == LineRecords(parse, file)
    ensures r.None? <==> TaskPrompt(head, toolUseId).None?
    ensures r.None? ==> TaskPrompt(LineRecords(parse, file), toolUseId).None?
    ensures r.Some? && First(CwdOf, head).Some? && First(TimeOf, head).Some? && RepliesTimed(tail) ==>
              Tells(LineRecords(parse, file), root, Some(TaskPrompt(head, toolUseId).value.uuid), r.value)
    ensures r.Some? ==> (r.value.reasoningEffort == Last(EffortOf, LineRecords(parse, file)) <==>
              Last(EffortOf, tail).Some? || Last(EffortOf, middle).None? || Last(EffortOf, middle) == Last(EffortOf, head))
  {
    hide First, Last, Every, LineRecords, TaskPrompt, LinesEnd;
    var start, end, prompt, _ := Head(parse, file, toolUseId);
    var records, at, _ := Tail(parse, file, end);
    head, tail := start, records;
    middle := LineRecords(parse, file[end..at]);
    InThree(parse, file, end, at);
    if prompt.None? { return None, head, middle, tail; }
    PromptIn(head, toolUseId);
    var model, summarizer := Summarized(start + records, root, prompt.value.uuid);
    if First(CwdOf, head).Some? && First(TimeOf, head).Some? && RepliesTimed(tail) {
      if at == end { Nothing(parse, file, at); }
      EndsTellAll(head, middle, tail, prompt.value);
    }
    LastSkips(EffortOf, head, middle, tail);
    r := Some(Subagent(summarizer.cwd, summarizer.createdAt, summarizer.updatedAt, summarizer.preview, summarizer.model, model,
                       summarizer.reasoningEffort));
  }

  /** The summarizer after the records, and the last reply's model. */
  method Summarized(records: seq<Summary.Record>, root: Token, promptUuid: Token) returns (model: Option<Model>, summarizer: Summarizer)
    ensures model == Last(ReplyModel, records)
    ensures summarizer.Valid() && summarizer.accepted == records && summarizer.root == root && summarizer.promptUuid == Some(promptUuid)
  {
    hide First, Every;
    summarizer := new Summarizer(root, Some(promptUuid));
    for i := 0 to |records|
      invariant summarizer.Valid() && summarizer.accepted == records[..i] && fresh(summarizer)
      invariant summarizer.root == root && summarizer.promptUuid == Some(promptUuid)
    {
      hide *;
      summarizer.Accept(records[i]);
      assert records[..i + 1] == records[..i] + [records[i]];
    }
    model := LastReply(records);
  }

  /** The records' last reply tells the model. */
  method LastReply(records: seq<Summary.Record>) returns (model: Option<Model>)
    ensures model == Last(ReplyModel, records)
  {
    hide First, Every;
    assert records[..|records|] == records;
    model := None;
    var i := |records|;
    while i > 0
      invariant 0 <= i <= |records|
      invariant Last(ReplyModel, records) == Last(ReplyModel, records[..i])
    {
      i := i - 1;
      assert records[..i + 1][..i] == records[..i];
      if ModelReply(records[i]) { return records[i].body.model; }
    }
  }

  lemma {:induction false} Nothing(parse: Parse, file: seq<byte>, at: nat)
    requires at <= |file|
    ensures LineRecords(parse, file[at..at]) == []
  {
    hide LineRecords;
    assert file[at..at] == [];
    NoLineRecords(parse, []);
  }

  lemma {:induction false} InThree(parse: Parse, file: seq<byte>, end: nat, at: nat)
    requires end <= at <= |file| && StartsLine(file, end) && StartsLine(file, at)
    ensures LineRecords(parse, file) == LineRecords(parse, file[..end]) + LineRecords(parse, file[end..at]) + LineRecords(parse, file[at..])
  {
    hide LineRecords, LinesEnd;
    var a, b, c := file[..end], file[end..at], file[at..];
    assert file == a + b + c && file[..at] == a + b;
    assert StartsLine(a, |a|) && StartsLine(a + b, |a + b|);
    LineRecordsConcat(parse, a + b, c);
    LineRecordsConcat(parse, a, b);
  }
}
