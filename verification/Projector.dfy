/**
 * How history splits a transcript's records into turns (src/claude/native/projector.ts 404-407, 495-575, 577-596): the
 * steered prompts, where turns start, and the records of each. One indexed block per assistant record.
 */
module Projector {
  import opened Basics
  import opened LiveTurns

  /** A record's text, as far as it is compared. */
  type Text = Token

  datatype Origin = NoOrigin | TaskNotification

  datatype Record =
    | Enqueue(content: Text)
    | Dequeue
    | UserRecord(uuid: Id, content: Text, origin: Origin, promptId: Option<Token>, starts: bool)
    | AssistantRecord(message: Id, index: int, text: Option<nat>)

  // ---- steered prompts ----

  datatype Queued = Queued(content: Text, waited: bool)

  datatype Steering = Steering(queue: seq<Queued>, taken: seq<Text>, steered: set<Id>)

  function Waited(queue: seq<Queued>): seq<Queued> {
    seq(|queue|, i requires 0 <= i < |queue| => queue[i].(waited := true))
  }

  function IndexOf(taken: seq<Text>, text: Text): (i: int)
    ensures -1 <= i < |taken|
    ensures if i < 0 then text !in taken else taken[i] == text && text !in taken[..i]
  {
    if taken == [] then -1
    else if taken[0] == text then 0
    else var rest := IndexOf(taken[1..], text);
         if rest < 0 then -1 else rest + 1
  }

  function SteeringStep(state: Steering, record: Record): Steering {
    match record
    case Enqueue(content) => state.(queue := state.queue + [Queued(content, false)])
    case Dequeue =>
      if state.queue == [] then state
      else state.(queue := state.queue[1..], taken := if state.queue[0].waited then state.taken + [state.queue[0].content] else state.taken)
    case UserRecord(uuid, text, origin, _, starts) =>
      var index := IndexOf(state.taken, text);
      if index >= 0 then
        state.(taken := state.taken[..index] + state.taken[index + 1..], steered := if starts then state.steered + {uuid} else state.steered)
      else if origin.TaskNotification? then state
      else state.(queue := Waited(state.queue))
    case AssistantRecord(_, _, _) => state.(queue := Waited(state.queue))
  }

  function SteeringOf(records: seq<Record>): Steering {
    if records == [] then Steering([], [], {}) else SteeringStep(SteeringOf(records[..|records| - 1]), records[|records| - 1])
  }

  method SteeredPrompts(records: seq<Record>) returns (steered: set<Id>)
    ensures steered == SteeringOf(records).steered
  {
    hide SteeringStep;
    var state := Steering([], [], {});
    assert records[..0] == [];
    for n := 0 to |records|
      invariant state == SteeringOf(records[..n])
    {
      assert records[..n + 1][..n] == records[..n];
      state := SteeringStep(state, records[n]);
    }
    assert records[..|records|] == records;
    steered := state.steered;
  }

  // ---- turn starts ----

  datatype Start = Start(index: nat, id: Id)

  datatype Starting = Starting(starts: seq<Start>, promptId: Option<Token>, lastBlock: Option<Id>, answer: bool)

  function GoOn(state: Starting, index: nat): Starting
    requires state.lastBlock.Some?
  {
    state.(starts := state.starts + [Start(index, ContinuationOf(state.lastBlock.value))], lastBlock := None)
  }

  function StartingStep(state: Starting, record: Record, index: nat, steered: set<Id>): Starting {
    match record
    case AssistantRecord(message, block, text) =>
      if state.starts == [] then state
      else var next := if state.answer && state.lastBlock.Some? then GoOn(state, index) else state;
           next.(lastBlock := Some(BlockOf(message, block)), answer := text.GetOr(0) >= ANSWER_CHARS)
    case UserRecord(uuid, _, origin, promptId, starts) =>
      var next := state.(promptId := if promptId.Some? then promptId else state.promptId);
      if uuid in steered then next
      else if starts then next.(starts := next.starts + [Start(index, uuid)], lastBlock := None, answer := false)
      else if next.lastBlock.Some? && origin.TaskNotification? && promptId != state.promptId then GoOn(next, index).(answer := false)
      else next
    case _ => state
  }

  function StartingOf(records: seq<Record>, steered: set<Id>): Starting {
    if records == [] then Starting([], None, None, false)
    else StartingStep(StartingOf(records[..|records| - 1], steered), records[|records| - 1], |records| - 1, steered)
  }

  method TurnStarts(records: seq<Record>, steered: set<Id>) returns (starts: seq<Start>)
    ensures starts == StartingOf(records, steered).starts
  {
    hide StartingStep;
    var state := Starting([], None, None, false);
    assert records[..0] == [];
    for n := 0 to |records|
      invariant state == StartingOf(records[..n], steered)
    {
      assert records[..n + 1][..n] == records[..n];
      state := StartingStep(state, records[n], n, steered);
    }
    assert records[..|records|] == records;
    starts := state.starts;
  }

  // ---- the turns ----

  function BlocksOf(records: seq<Record>): seq<Id> {
    if records == [] then []
    else BlocksOf(records[..|records| - 1]) + match records[|records| - 1] case AssistantRecord(message, index, _) => [BlockOf(message, index)] case _ => []
  }

  predicate StartsIn(starts: seq<Start>, n: nat) {
    (forall k :: 0 <= k < |starts| ==> starts[k].index < n) && (forall k :: 0 <= k < |starts| - 1 ==> starts[k].index < starts[k + 1].index)
  }

  /** Each start's records run to the next start. */
  function Partition(records: seq<Record>, starts: seq<Start>): seq<Turn>
    requires StartsIn(starts, |records|)
  {
    seq(|starts|, k requires 0 <= k < |starts| => Part(records, starts, k))
  }

  function Part(records: seq<Record>, starts: seq<Start>, k: nat): Turn
    requires StartsIn(starts, |records|) && k < |starts|
  {
    Turn(starts[k].id, BlocksOf(records[starts[k].index..if k + 1 < |starts| then starts[k + 1].index else |records|]))
  }

  // ---- both passes in one ----

  /** Both folds side by side, with the turns instead of where they start. */
  datatype History = History(steering: Steering, turns: seq<Turn>, promptId: Option<Token>, lastBlock: Option<Id>, answer: bool)

  function HistoryStep(history: History, record: Record): History {
    var next := history.(steering := SteeringStep(history.steering, record));
    match record
    case AssistantRecord(message, index, text) =>
      var block := BlockOf(message, index);
      if next.turns == [] then next
      else next.(
        turns := if next.answer && next.lastBlock.Some? then next.turns + [Turn(ContinuationOf(next.lastBlock.value), [block])] else Shown(next.turns, block),
        lastBlock := Some(block), answer := text.GetOr(0) >= ANSWER_CHARS)
    case UserRecord(uuid, _, origin, promptId, starts) =>
      var later := next.(promptId := if promptId.Some? then promptId else next.promptId);
      if uuid in next.steering.steered then later
      else if starts then later.(turns := later.turns + [Turn(uuid, [])], lastBlock := None, answer := false)
      else if next.lastBlock.Some? && origin.TaskNotification? && promptId != next.promptId then
        later.(turns := later.turns + [Turn(ContinuationOf(next.lastBlock.value), [])], lastBlock := None, answer := false)
      else later
    case _ => next
  }

  function HistoryOf(records: seq<Record>): History {
    if records == [] then History(Steering([], [], {}), [], None, None, false)
    else HistoryStep(HistoryOf(records[..|records| - 1]), records[|records| - 1])
  }

  function UserUuid(record: Record): Option<Id> {
    match record case UserRecord(uuid, _, _, _, _) => Some(uuid) case _ => None
  }

  ghost predicate UuidsOnce(records: seq<Record>) {
    forall i, j :: 0 <= i < j < |records| && UserUuid(records[i]).Some? ==> UserUuid(records[i]) != UserUuid(records[j])
  }

  /** A user record is steered or not as its own step decides. */
  lemma {:induction false} SteeredOnlyIts(state: Steering, record: Record, uuid: Id)
    ensures uuid in SteeringStep(state, record).steered <==>
            uuid in state.steered || (UserUuid(record) == Some(uuid) && uuid in SteeringStep(state, record).steered)
  {}

  lemma {:induction false} StartingAgrees(records: seq<Record>, a: set<Id>, b: set<Id>)
    requires forall i :: 0 <= i < |records| && UserUuid(records[i]).Some? ==> (UserUuid(records[i]).value in a <==> UserUuid(records[i]).value in b)
    ensures StartingOf(records, a) == StartingOf(records, b)
    decreases |records|
  {
    if records != [] {
      var before := records[..|records| - 1];
      assert forall i :: 0 <= i < |before| ==> before[i] == records[i];
      StartingAgrees(before, a, b);
    }
  }

  lemma {:induction false} StartsAreIn(records: seq<Record>, steered: set<Id>)
    ensures StartsIn(StartingOf(records, steered).starts, |records|)
    decreases |records|
  {
    if records != [] {
      StartsAreIn(records[..|records| - 1], steered);
      var before := StartingOf(records[..|records| - 1], steered);
      hide StartingOf;
      OneStart(before, records[|records| - 1], |records| - 1, steered);
    }
  }

  /** A step adds one start at most, at its own record. */
  lemma {:induction false} OneStart(state: Starting, record: Record, n: nat, steered: set<Id>)
    requires StartsIn(state.starts, n)
    ensures var after := StartingStep(state, record, n, steered).starts;
            StartsIn(after, n + 1) && (after == state.starts || (|after| == |state.starts| + 1 && after[..|state.starts|] == state.starts && after[|state.starts|].index == n))
  {}

  lemma {:induction false} BlocksOne(records: seq<Record>, from: nat, record: Record)
    requires from <= |records|
    ensures BlocksOf((records + [record])[from..]) == BlocksOf(records[from..]) + BlocksOf([record])
  {
    assert (records + [record])[from..] == records[from..] + [record];
    assert (records[from..] + [record])[..|records| - from] == records[from..];
    assert [record][..0] == [];
    assert BlocksOf([record]) == BlocksOf([record][..0]) + match record case AssistantRecord(message, index, _) => [BlockOf(message, index)] case _ => [];
  }

  /** A record more without a start goes to the last turn. */
  lemma {:induction false} PartitionSame(records: seq<Record>, starts: seq<Start>, record: Record)
    requires StartsIn(starts, |records|)
    ensures StartsIn(starts, |records| + 1)
    ensures var was, now := Partition(records, starts), Partition(records + [record], starts);
            now == if was == [] then [] else was[..|was| - 1] + [was[|was| - 1].(blocks := was[|was| - 1].blocks + BlocksOf([record]))]
  {
    hide BlocksOf;
    var was, now := Partition(records, starts), Partition(records + [record], starts);
    forall k | 0 <= k < |starts| ensures now[k] == if k < |starts| - 1 then was[k] else was[k].(blocks := was[k].blocks + BlocksOf([record])) {
      BlocksOne(records, starts[k].index, record);
      if k < |starts| - 1 {
        assert (records + [record])[starts[k].index..starts[k + 1].index] == records[starts[k].index..starts[k + 1].index];
      } else {
        assert (records + [record])[starts[k].index..|records| + 1] == (records + [record])[starts[k].index..];
        assert records[starts[k].index..|records|] == records[starts[k].index..];
      }
    }
  }

  /** A record more with a start begins a turn. */
  lemma {:induction false} PartitionNew(records: seq<Record>, starts: seq<Start>, record: Record, start: Start)
    requires StartsIn(starts, |records|) && start.index == |records|
    ensures StartsIn(starts + [start], |records| + 1)
    ensures Partition(records + [record], starts + [start]) == Partition(records, starts) + [Turn(start.id, BlocksOf([record]))]
  {
    var all := starts + [start];
    assert StartsIn(all, |records + [record]|);
    forall k | 0 <= k < |starts| ensures Part(records + [record], all, k) == Part(records, starts, k) {
      PartStays(records, starts, record, start, k);
    }
    LastPart(records, starts, record, start);
    hide Part, StartsIn, BlocksOf;
  }

  lemma {:induction false} PartStays(records: seq<Record>, starts: seq<Start>, record: Record, start: Start, k: nat)
    requires StartsIn(starts, |records|) && start.index == |records| && k < |starts| && StartsIn(starts + [start], |records| + 1)
    ensures Part(records + [record], starts + [start], k) == Part(records, starts, k)
  {
    hide BlocksOf;
    var all := starts + [start];
    var end := if k + 1 < |starts| then starts[k + 1].index else |records|;
    assert all[k] == starts[k] && (if k + 1 < |all| then all[k + 1].index else |records| + 1) == end;
    SliceStays(records, record, starts[k].index, end);
  }

  lemma {:induction false} LastPart(records: seq<Record>, starts: seq<Start>, record: Record, start: Start)
    requires start.index == |records| && StartsIn(starts + [start], |records| + 1)
    ensures Part(records + [record], starts + [start], |starts|) == Turn(start.id, BlocksOf([record]))
  {
    hide BlocksOf;
    assert (records + [record])[|records|..|records| + 1] == [record];
  }

  lemma {:induction false} SliceStays(records: seq<Record>, record: Record, from: nat, to: nat)
    requires from <= to <= |records|
    ensures (records + [record])[from..to] == records[from..to]
  {}

  /** Steering found in one record more changes no earlier start. */
  lemma {:induction false} StartingStays(before: seq<Record>, record: Record, was: Steering)
    requires UuidsOnce(before + [record])
    ensures StartingOf(before, was.steered) == StartingOf(before, SteeringStep(was, record).steered)
  {
    hide StartingOf;
    var now := SteeringStep(was, record);
    var all := before + [record];
    assert all[|before|] == record;
    forall i | 0 <= i < |before| && UserUuid(before[i]).Some? ensures UserUuid(before[i]).value in was.steered <==> UserUuid(before[i]).value in now.steered {
      assert all[i] == before[i];
      SteeredOnlyIts(was, record, UserUuid(before[i]).value);
    }
    StartingAgrees(before, was.steered, now.steered);
  }

  /** What the two passes and the partition give is what the one pass gives. */
  lemma {:induction false} OnePass(records: seq<Record>)
    requires UuidsOnce(records)
    ensures var steering := SteeringOf(records);
            var starting := StartingOf(records, steering.steered);
            && StartsIn(starting.starts, |records|)
            && HistoryOf(records) == History(steering, Partition(records, starting.starts), starting.promptId, starting.lastBlock, starting.answer)
    decreases |records|
  {
    hide *;
    if records == [] {
      NoRecords();
      return;
    }
    var n := |records| - 1;
    var before, record := records[..n], records[n];
    OnceBefore(records);
    OnePass(before);
    var was, now := SteeringOf(before), SteeringOf(records);
    LastRecord(records, now.steered);
    StartingStays(before, record, was);
    OneMorePass(before, record, was, now, StartingOf(before, now.steered));
  }

  lemma {:induction false} NoRecords()
    ensures SteeringOf([]) == Steering([], [], {}) && HistoryOf([]) == History(Steering([], [], {}), [], None, None, false)
    ensures forall steered :: StartingOf([], steered) == Starting([], None, None, false)
    ensures StartsIn([], 0) && Partition([], []) == []
  {}

  lemma {:induction false} OnceBefore(records: seq<Record>)
    requires records != [] && UuidsOnce(records)
    ensures var n := |records| - 1; UuidsOnce(records[..n]) && UuidsOnce(records[..n] + [records[n]]) && records[..n] + [records[n]] == records
  {}

  lemma {:induction false} LastRecord(records: seq<Record>, steered: set<Id>)
    requires records != []
    ensures var n := |records| - 1;
            && SteeringOf(records) == SteeringStep(SteeringOf(records[..n]), records[n])
            && StartingOf(records, steered) == StartingStep(StartingOf(records[..n], steered), records[n], n, steered)
            && HistoryOf(records) == HistoryStep(HistoryOf(records[..n]), records[n])
  {
    hide SteeringStep, StartingStep, HistoryStep;
  }

  function Extended(turns: seq<Turn>, blocks: seq<Id>): seq<Turn> {
    if turns == [] then [] else turns[..|turns| - 1] + [turns[|turns| - 1].(blocks := turns[|turns| - 1].blocks + blocks)]
  }

  lemma {:induction false} PartitionStep(before: seq<Record>, starts: seq<Start>, record: Record, next: seq<Start>)
    requires StartsIn(starts, |before|) && StartsIn(next, |before| + 1)
    requires next == starts || (|next| == |starts| + 1 && next[..|starts|] == starts && next[|starts|].index == |before|)
    ensures Partition(before + [record], next)
         == if next == starts then Extended(Partition(before, starts), BlocksOf([record]))
            else Partition(before, starts) + [Turn(next[|starts|].id, BlocksOf([record]))]
    ensures Partition(before, starts) == [] <==> starts == []
  {
    hide BlocksOf;
    if next == starts {
      PartitionSame(before, starts, record);
    } else {
      assert next == starts + [next[|starts|]];
      PartitionNew(before, starts, record, next[|starts|]);
    }
  }

  /** Where the step puts its start. */
  lemma {:induction false} StepStart(state: Starting, record: Record, n: nat, steered: set<Id>)
    ensures var next := StartingStep(state, record, n, steered);
            next.starts == match record
              case AssistantRecord(_, _, _) =>
                if state.starts != [] && state.answer && state.lastBlock.Some? then state.starts + [Start(n, ContinuationOf(state.lastBlock.value))] else state.starts
              case UserRecord(uuid, _, origin, promptId, starts) =>
                if uuid in steered then state.starts
                else if starts then state.starts + [Start(n, uuid)]
                else if state.lastBlock.Some? && origin.TaskNotification? && promptId != state.promptId then state.starts + [Start(n, ContinuationOf(state.lastBlock.value))]
                else state.starts
              case _ => state.starts
  {}

  lemma {:induction false} OneMorePass(before: seq<Record>, record: Record, was: Steering, now: Steering, starting: Starting)
    requires StartsIn(starting.starts, |before|) && now == SteeringStep(was, record)
    ensures var history := History(was, Partition(before, starting.starts), starting.promptId, starting.lastBlock, starting.answer);
            var next := StartingStep(starting, record, |before|, now.steered);
            && StartsIn(next.starts, |before| + 1)
            && HistoryStep(history, record) == History(now, Partition(before + [record], next.starts), next.promptId, next.lastBlock, next.answer)
  {
    var next := StartingStep(starting, record, |before|, now.steered);
    BlockOne(record);
    OneStart(starting, record, |before|, now.steered);
    StepStart(starting, record, |before|, now.steered);
    var turns := Partition(before, starting.starts);
    PartitionStep(before, starting.starts, record, next.starts);
    NoBlocks(turns);
    hide BlocksOf, Partition, StartsIn, HistoryStep, StartingStep, SteeringStep;
    StepsAgree(turns, record, was, now, starting, next, Partition(before + [record], next.starts), |before|);
  }

  lemma {:induction false} StepsAgree(turns: seq<Turn>, record: Record, was: Steering, now: Steering, starting: Starting, next: Starting, after: seq<Turn>, n: nat)
    requires now == SteeringStep(was, record) && next == StartingStep(starting, record, n, now.steered)
    requires after == if next.starts == starting.starts then Extended(turns, BlocksOf([record])) else turns + [Turn(next.starts[|starting.starts|].id, BlocksOf([record]))]
    requires BlocksOf([record]) == match record case AssistantRecord(message, index, _) => [BlockOf(message, index)] case _ => []
    requires Extended(turns, []) == turns && (turns == [] <==> starting.starts == [])
    requires next.starts == starting.starts || |next.starts| == |starting.starts| + 1
    ensures HistoryStep(History(was, turns, starting.promptId, starting.lastBlock, starting.answer), record)
         == History(now, after, next.promptId, next.lastBlock, next.answer)
  {
    hide BlocksOf, SteeringStep;
    match record {
      case AssistantRecord(message, index, _) =>
        assert turns != [] ==> Extended(turns, [BlockOf(message, index)]) == Shown(turns, BlockOf(message, index));
      case UserRecord(uuid, _, _, _, _) => if uuid in now.steered {}
      case _ =>
    }
  }

  lemma {:induction false} BlockOne(record: Record)
    ensures BlocksOf([record]) == match record case AssistantRecord(message, index, _) => [BlockOf(message, index)] case _ => []
  {
    assert [record][..0] == [];
  }

  lemma {:induction false} NoBlocks(turns: seq<Turn>)
    ensures Extended(turns, []) == turns
  {
    if turns != [] {
      assert turns[|turns| - 1].blocks + [] == turns[|turns| - 1].blocks;
    }
  }
}
