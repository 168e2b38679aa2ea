/**
 * The live stream and history split the same run into the same turns (src/claude/session.ts 683-687, 779-843, 1025-1080;
 * src/claude/native/projector.ts 495-575), with the same ids and each block in the same turn, exactly as long as no event
 * of the run parts them (`Runs.AfterEvent`). Once parted they never show the same turns again.
 */
module LiveHistory {
  import opened Basics
  import opened LiveTurns
  import opened Projector
  import opened Runs

  // ---- what every run keeps ----

  ghost predicate Queues(queue: seq<Waiting>, id: Id) {
    exists i :: 0 <= i < |queue| && queue[i].prompt == Some(id)
  }

  ghost predicate Sound(run: Run) {
    && TurnShown(run.live) && (run.live.lastBlock.Some? ==> run.live.turns != [])
    && (forall id :: id in run.used ==> id.Given?) && run.live.pending <= run.used
    && (forall i :: 0 <= i < |run.queue| && run.queue[i].prompt.Some? ==> run.queue[i].prompt.value in run.used)
    && (forall i, j :: 0 <= i < j < |run.queue| && run.queue[i].prompt.Some? ==> run.queue[i].prompt != run.queue[j].prompt)
  }

  function QueueOf(queue: seq<Waiting>): seq<Queued> {
    seq(|queue|, i requires 0 <= i < |queue| => Queued(queue[i].text, queue[i].waited))
  }

  /** The queue, as history follows it. */
  ghost predicate MirrorsQueue(run: Run, steering: Steering) {
    && steering.taken == [] && steering.queue == QueueOf(run.queue)
    && steering.steered <= run.used && forall i :: 0 <= i < |run.queue| && run.queue[i].prompt.Some? ==> run.queue[i].prompt.value !in steering.steered
  }

  // ---- the turns live and in history ----

  function BlockId(block: Option<Block>): Option<Id> {
    match block case Some(b) => Some(b.id) case None => None
  }

  function Empty(ids: seq<Id>): seq<Turn> { seq(|ids|, i requires 0 <= i < |ids| => Turn(ids[i], [])) }

  /** The turns one of them has begun, and the other has not. */
  function LiveOnly(run: Run): seq<Turn> {
    match run.phase case Some(Behind(begun, _)) => Empty(begun) case _ => []
  }

  function HistoryOnly(run: Run): seq<Turn> {
    if run.phase == Some(Ahead) && run.live.lastBlock.Some? then [Turn(ContinuationOf(run.live.lastBlock.value.id), [])] else []
  }

  /** Not parted: but for the turns that only one of them has begun, live and history show the same. */
  ghost predicate Together(run: Run, history: History)
    requires run.phase.Some?
  {
    var live := run.live;
    && (history.lastBlock.Some? ==> history.turns != [])
    && match run.phase.value
       case Ahead =>
         && live.lastBlock.Some? && history.turns == live.turns + [Turn(ContinuationOf(live.lastBlock.value.id), [])]
         && history.lastBlock.None? && !history.answer
         && (forall i :: 0 <= i < |run.queue| && run.queue[i].prompt.Some? ==> run.queue[i].prompt.value in live.pending)
       case Behind(begun, block) =>
         && live.turns == history.turns + Empty(begun) && history.lastBlock == BlockId(block) && history.answer == Answer(block)
         && (if begun == [] then block == live.lastBlock else live.lastBlock.None?)
         && (forall i :: 0 <= i < |run.queue| && run.queue[i].prompt.Some? ==> run.queue[i].prompt.value in live.pending || run.queue[i].prompt.value in begun)
         && (forall j :: 0 <= j < |begun| ==> Queues(run.queue, begun[j]) || (j == 0 && block.Some? && begun[0] == ContinuationOf(block.value.id)))
         && (forall j, k :: 0 <= j < k < |begun| ==> begun[j] != begun[k])
  }

  /** No turn of this id will yet begin live; nor in history, where a prompt that waited begins none. */
  ghost predicate NeverLive(run: Run, id: Id) { id in run.used && !Queues(run.queue, id) }

  ghost predicate NeverHistory(run: Run, id: Id) {
    id in run.used && forall i :: 0 <= i < |run.queue| && run.queue[i].prompt == Some(id) ==> run.queue[i].waited
  }

  /**
   * Parted at turn `k`, for good: it has another id in each, or only one of them has it and ever will, or a turn that is
   * done in one has more blocks in the other.
   */
  ghost predicate PartedAt(run: Run, live: seq<Turn>, history: seq<Turn>, k: nat) {
    || (k < |live| && k < |history| && live[k].id != history[k].id)
    || (|history| <= k < |live| && NeverHistory(run, live[k].id))
    || (|live| <= k < |history| && NeverLive(run, history[k].id))
    || (k < |live| && k + 1 < |history| && |live[k].blocks| > |history[k].blocks|)
    || (k < |history| && k + 1 < |live| && |history[k].blocks| > |live[k].blocks|)
  }

  ghost predicate Parted(run: Run, live: seq<Turn>, history: seq<Turn>) {
    exists k: nat :: PartedAt(run, live, history, k)
  }

  lemma {:induction false} PartedDiffer(run: Run, live: seq<Turn>, history: seq<Turn>)
    requires Parted(run, live, history)
    ensures live != history
  {
    var k: nat :| PartedAt(run, live, history, k);
  }

  // ---- parted, they stay so ----

  /** Turns only begin, and only the last one gains blocks. */
  ghost predicate Grows(was: seq<Turn>, now: seq<Turn>) {
    && |was| <= |now|
    && (forall k :: 0 <= k < |was| ==> now[k].id == was[k].id && |was[k].blocks| <= |now[k].blocks|)
    && (forall k :: 0 <= k < |was| - 1 ==> now[k].blocks == was[k].blocks)
  }

  lemma {:induction false} PartedStays(run: Run, next: Run, live: seq<Turn>, live': seq<Turn>, history: seq<Turn>, history': seq<Turn>)
    requires Parted(run, live, history) && Grows(live, live') && Grows(history, history')
    requires forall id :: NeverLive(run, id) ==> NeverLive(next, id)
    requires forall id :: NeverHistory(run, id) ==> NeverHistory(next, id)
    requires forall k :: |live| <= k < |live'| ==> !NeverLive(run, live'[k].id)
    requires forall k :: |history| <= k < |history'| ==> !NeverHistory(run, history'[k].id)
    ensures Parted(next, live', history')
  {
    var k: nat :| PartedAt(run, live, history, k);
    hide NeverLive, NeverHistory;
    assert PartedAt(next, live', history', k);
  }

  // ---- reading on ----

  function Steps(history: History, records: seq<Record>): History {
    if records == [] then history else HistoryStep(Steps(history, records[..|records| - 1]), records[|records| - 1])
  }

  lemma {:induction false} StepsGoOn(a: seq<Record>, b: seq<Record>)
    ensures HistoryOf(a + b) == Steps(HistoryOf(a), b)
    decreases |b|
  {
    if b == [] {
      assert a + b == a;
    } else {
      assert (a + b)[..|a + b| - 1] == a + b[..|b| - 1];
      StepsGoOn(a, b[..|b| - 1]);
    }
  }

  lemma {:induction false} UpToTwo(history: History, r: Record, t: Record)
    ensures Steps(history, []) == history && Steps(history, [r]) == HistoryStep(history, r)
    ensures Steps(history, [r, t]) == HistoryStep(HistoryStep(history, r), t)
  {
    hide HistoryStep;
    assert [r][..0] == [] && [r, t][..1] == [r];
    assert Steps(history, [r][..0]) == history;
  }

  // ---- the queue ----

  lemma {:induction false} QueueMore(queue: seq<Waiting>, more: Waiting)
    ensures QueueOf(queue + [more]) == QueueOf(queue) + [Queued(more.text, more.waited)]
  {}

  lemma {:induction false} QueueRest(queue: seq<Waiting>)
    requires queue != []
    ensures QueueOf(queue)[0] == Queued(queue[0].text, queue[0].waited) && QueueOf(queue[1..]) == QueueOf(queue)[1..]
  {}

  lemma {:induction false} QueueWaited(queue: seq<Waiting>)
    ensures QueueOf(AllWaited(queue)) == Waited(QueueOf(queue))
  {}

  /** The first of the queue is taken: it is told by its text if it waited, and what else waits goes on waiting. */
  lemma {:induction false} FirstTaken(steering: Steering, uuid: Id, text: Text, origin: Origin, promptId: Option<Token>)
    requires steering.taken == [] && steering.queue != [] && steering.queue[0].content == text
    ensures var starts := origin.NoOrigin?;
            SteeringStep(SteeringStep(steering, Dequeue), UserRecord(uuid, text, origin, promptId, starts)) ==
            if steering.queue[0].waited then Steering(steering.queue[1..], [], if starts then steering.steered + {uuid} else steering.steered)
            else steering.(queue := if starts then Waited(steering.queue[1..]) else steering.queue[1..])
  {
    assert [] + [text] == [text] && [text][..0] + [text][1..] == [];
  }

  // ---- one event in history ----

  lemma {:induction false} TakenHistory(history: History, uuid: Id, text: Text, promptId: Option<Token>)
    requires history.steering.taken == [] && history.steering.queue != [] && history.steering.queue[0].content == text
    requires uuid !in history.steering.steered
    ensures var waited, rest := history.steering.queue[0].waited, history.steering.queue[1..];
            Steps(history, [Dequeue, UserRecord(uuid, text, NoOrigin, promptId, true)]) ==
            if waited then history.(steering := Steering(rest, [], history.steering.steered + {uuid}), promptId := Later(history.promptId, promptId))
            else History(history.steering.(queue := Waited(rest)), history.turns + [Turn(uuid, [])], Later(history.promptId, promptId), None, false)
  {
    hide Steps, SteeringStep, Waited;
    UpToTwo(history, Dequeue, UserRecord(uuid, text, NoOrigin, promptId, true));
    FirstTaken(history.steering, uuid, text, NoOrigin, promptId);
  }

  lemma {:induction false} NoteHistory(history: History, uuid: Id, text: Text, promptId: Option<Token>)
    requires history.steering.taken == [] && history.steering.queue != [] && history.steering.queue[0].content == text
    requires uuid !in history.steering.steered
    ensures var next := history.(steering := history.steering.(queue := history.steering.queue[1..]), promptId := Later(history.promptId, promptId));
            Steps(history, [Dequeue, UserRecord(uuid, text, TaskNotification, promptId, false)]) ==
            if history.lastBlock.Some? && promptId != history.promptId
            then next.(turns := next.turns + [Turn(ContinuationOf(history.lastBlock.value), [])], lastBlock := None, answer := false)
            else next
  {
    hide Steps, SteeringStep, Waited, IndexOf;
    UpToTwo(history, Dequeue, UserRecord(uuid, text, TaskNotification, promptId, false));
    NoteSteering(history.steering, uuid, text, promptId);
  }

  lemma {:induction false} NoteSteering(steering: Steering, uuid: Id, text: Text, promptId: Option<Token>)
    requires steering.taken == [] && steering.queue != [] && steering.queue[0].content == text
    ensures SteeringStep(SteeringStep(steering, Dequeue), UserRecord(uuid, text, TaskNotification, promptId, false)) == steering.(queue := steering.queue[1..])
  {
    hide SteeringStep, Waited;
    FirstTaken(steering, uuid, text, TaskNotification, promptId);
  }

  lemma {:induction false} WordsHistory(history: History, message: Id, index: int, length: Option<nat>)
    ensures var block := BlockOf(message, index);
            var next := history.(steering := history.steering.(queue := Waited(history.steering.queue)));
            Steps(history, [AssistantRecord(message, index, length)]) ==
            if history.turns == [] then next
            else next.(turns := if history.answer && history.lastBlock.Some? then history.turns + [Turn(ContinuationOf(history.lastBlock.value), [block])] else Shown(history.turns, block),
                       lastBlock := Some(block), answer := length.GetOr(0) >= ANSWER_CHARS)
  {
    UpToTwo(history, AssistantRecord(message, index, length), Dequeue);
    hide Steps, Shown;
  }

  /** What else is written begins no turn: something enters the queue, a tool's result. */
  lemma {:induction false} QueuedHistory(history: History, text: Text)
    ensures Steps(history, [Enqueue(text)]) == history.(steering := history.steering.(queue := history.steering.queue + [Queued(text, false)]))
  {
    UpToTwo(history, Enqueue(text), Dequeue);
    hide Steps;
  }

  lemma {:induction false} ResultHistory(history: History, text: Text, uuid: Id, promptId: Option<Token>)
    requires history.steering.taken == [] && uuid !in history.steering.steered
    ensures Steps(history, [UserRecord(uuid, text, NoOrigin, promptId, false)])
         == history.(steering := history.steering.(queue := Waited(history.steering.queue)), promptId := Later(history.promptId, promptId))
  {
    UpToTwo(history, UserRecord(uuid, text, NoOrigin, promptId, false), Dequeue);
    hide Steps;
  }

  // ---- one event live ----

  lemma {:induction false} TakenLive(run: Run, event: Event)
    requires Sound(run) && Enabled(run, event) && event.Taken?
    ensures var was, prompt := run.live, run.queue[0].prompt.value;
            var id := if prompt !in was.pending && was.notified then NextId(was, event.random) else prompt;
            LiveStep(run, event) == if was.turn.Some? then was.(pending := was.pending - {prompt}) else OpenTurn(was, id).(pending := was.pending - {id})
  {
    if run.queue[0].prompt.value !in run.live.pending { assert run.live.pending - {run.queue[0].prompt.value} == run.live.pending; }
  }

  lemma {:induction false} NoteLive(run: Run, event: Event)
    requires Sound(run) && Enabled(run, event) && event.NoteTaken?
    ensures var was := run.live;
            var id := if was.notified then NextId(was, event.random) else event.uuid;
            LiveStep(run, event) == if was.turn.Some? then was else OpenTurn(was, id).(pending := was.pending - {id})
  {}

  /** Words go to a turn of their own, or to the one that runs. */
  ghost predicate GoesTo(was: Live, now: Live, own: Option<Id>, block: Id, length: Option<nat>)
  {
    && now.lastBlock == Some(Block(block, length)) && now.turn.Some?
    && (match own
        case Some(id) => now.turns == was.turns + [Turn(id, [block])] && now.pending == was.pending - {id}
        case None => was.turns != [] && now.turns == Shown(was.turns, block) && now.pending == was.pending)
  }

  lemma {:induction false} ShownNew(turns: seq<Turn>, id: Id, block: Id)
    ensures Shown(turns + [Turn(id, [])], block) == turns + [Turn(id, [block])]
  {
    assert (turns + [Turn(id, [])])[..|turns|] == turns && (turns + [Turn(id, [])])[|turns|] == Turn(id, []);
    assert [] + [block] == [block];
  }

  lemma {:induction false} BlockLive(live: Live, block: Id, deltas: Option<seq<nat>>)
    requires live.turn.Some? && live.turns != []
    ensures GoesTo(live, TextDeltas(BlockStart(live, block, deltas.Some?), deltas.GetOr([])),
                   if Answer(live.lastBlock) then Some(ContinuationOf(live.lastBlock.value.id)) else None, block, Length(deltas))
  {
    TextGrows(BlockStart(live, block, deltas.Some?), deltas.GetOr([]));
    hide TextDeltas;
    if Answer(live.lastBlock) { ShownNew(live.turns, ContinuationOf(live.lastBlock.value.id), block); }
    hide Shown;
  }

  /** The turn that words begin live, if one. */
  function OwnTurn(run: Run, random: Id): Option<Id> {
    if run.live.turn.None? || WordsGoOn(run) then Some(NextId(run.live, random)) else None
  }

  /** Before the words: a turn of their own when none runs, or after a notification since the result. */
  lemma {:induction false} StreamsLive(run: Run, random: Id)
    requires Sound(run)
    ensures var was, streams := run.live, Streams(run.live, run.prompt, random);
            && streams.turn.Some? && streams.turns != []
            && if was.turn.None? || (WordsGoOn(run) && streams.lastBlock.None?)
               then streams.lastBlock.None? && streams.turns == was.turns + [Turn(NextId(was, random), [])] && streams.pending == was.pending - {NextId(was, random)}
               else streams.lastBlock == was.lastBlock && streams.turns == was.turns && streams.pending == was.pending && (WordsGoOn(run) ==> Answer(was.lastBlock))
  {}

  lemma {:induction false} WordsLive(run: Run, event: Event)
    requires Sound(run) && Enabled(run, event) && event.Streamed?
    ensures GoesTo(run.live, LiveStep(run, event), OwnTurn(run, event.random), BlockOf(event.message, event.index), Length(event.deltas))
  {
    var was, block := run.live, BlockOf(event.message, event.index);
    var streams := Streams(was, run.prompt, event.random);
    StreamsLive(run, event.random);
    assert Answer(was.lastBlock) ==> WordsGoOn(run);
    assert LiveStep(run, event) == TextDeltas(BlockStart(streams, block, event.deltas.Some?), event.deltas.GetOr([]));
    hide Shown, BlockStart, TextDeltas, Streams, LiveStep, Sound, WordsGoOn, Length;
    BlockLive(streams, block, event.deltas);
    ShownNew(was.turns, NextId(was, event.random), block);
  }

  // ---- every event keeps the queue ----

  lemma {:induction false} EventQueue(run: Run, event: Event, history: History)
    requires Sound(run) && Enabled(run, event) && MirrorsQueue(run, history.steering)
    ensures MirrorsQueue(Apply(run, event), Steps(history, Written(run, event)).steering)
  {
    hide LiveStep, AfterEvent, Steps;
    match event {
      case Sent(uuid, text) =>
        QueuedHistory(history, text);
        QueueMore(run.queue, Waiting(Some(uuid), text, false));
        hide QueueOf;
      case Taken(_, _) => TakenQueue(run, event, history);
      case NoteQueued(text) =>
        QueuedHistory(history, text);
        QueueMore(run.queue, Waiting(None, text, false));
        hide QueueOf;
      case NoteTaken(_, _, _) => NoteQueue(run, event, history);
      case Streamed(message, index, deltas, _) =>
        WordsHistory(history, message, index, Length(deltas));
        QueueWaited(run.queue);
        hide QueueOf, Shown;
      case ToolResult(uuid, text, promptId) =>
        ResultHistory(history, text, uuid, promptId);
        QueueWaited(run.queue);
        hide QueueOf;
      case Finished => UpToTwo(history, Dequeue, Dequeue);
      case Idle => UpToTwo(history, Dequeue, Dequeue);
    }
  }

  lemma {:induction false} TakenQueue(run: Run, event: Event, history: History)
    requires Sound(run) && Enabled(run, event) && MirrorsQueue(run, history.steering) && event.Taken?
    ensures MirrorsQueue(Apply(run, event), Steps(history, Written(run, event)).steering)
  {
    hide LiveStep, AfterEvent, Steps;
    var front, rest := run.queue[0], run.queue[1..];
    QueueRest(run.queue);
    QueueWaited(rest);
    TakenHistory(history, front.prompt.value, front.text, event.taken);
    hide QueueOf;
    var next := Apply(run, event);
    assert |next.queue| == |rest| && forall i :: 0 <= i < |rest| ==> next.queue[i].prompt == run.queue[i + 1].prompt;
  }

  lemma {:induction false} NoteQueue(run: Run, event: Event, history: History)
    requires Sound(run) && Enabled(run, event) && MirrorsQueue(run, history.steering) && event.NoteTaken?
    ensures MirrorsQueue(Apply(run, event), Steps(history, Written(run, event)).steering)
  {
    hide LiveStep, AfterEvent, Steps;
    QueueRest(run.queue);
    NoteHistory(history, event.uuid, run.queue[0].text, event.note);
    hide QueueOf;
    var next := Apply(run, event);
    assert forall i :: 0 <= i < |next.queue| ==> next.queue[i] == run.queue[i + 1];
  }

  // ---- every event keeps the session sound ----

  lemma {:induction false} EventSound(run: Run, event: Event)
    requires Sound(run) && Enabled(run, event)
    ensures Sound(Apply(run, event))
  {
    LiveSound(run, event);
    UsedKept(run, event);
    hide LiveStep, AfterEvent;
    var next := Apply(run, event);
    match event {
      case Taken(_, _) => assert forall i :: 0 <= i < |next.queue| ==> next.queue[i].prompt == run.queue[i + 1].prompt;
      case NoteTaken(_, _, _) => assert forall i :: 0 <= i < |next.queue| ==> next.queue[i] == run.queue[i + 1];
      case Streamed(_, _, _, _) => assert forall i :: 0 <= i < |next.queue| ==> next.queue[i].prompt == run.queue[i].prompt;
      case ToolResult(_, _, _) => assert forall i :: 0 <= i < |next.queue| ==> next.queue[i].prompt == run.queue[i].prompt;
      case _ =>
    }
  }

  lemma {:induction false} UsedKept(run: Run, event: Event)
    requires Sound(run) && Enabled(run, event)
    ensures var used := Apply(run, event).used; run.used <= used && forall id :: id in used ==> id.Given?
  {
    hide LiveStep, AfterEvent;
  }

  lemma {:induction false} LiveSound(run: Run, event: Event)
    requires Sound(run) && Enabled(run, event)
    ensures var live := LiveStep(run, event);
            TurnShown(live) && (live.lastBlock.Some? ==> live.turns != []) && live.pending <= Apply(run, event).used
  {
    hide AfterEvent;
    match event {
      case Taken(_, _) => TakenLive(run, event); hide LiveStep;
      case NoteTaken(_, _, _) => NoteLive(run, event); hide LiveStep;
      case Streamed(_, _, _, _) =>
        WordsLive(run, event);
        hide LiveStep;
        if OwnTurn(run, event.random).None? { ShownGrows(run.live.turns, BlockOf(event.message, event.index)); }
        hide Shown, WordsGoOn;
      case _ =>
    }
  }

  lemma {:induction false} ShownGrows(turns: seq<Turn>, block: Id)
    requires turns != []
    ensures Grows(turns, Shown(turns, block)) && |Shown(turns, block)| == |turns|
    ensures |Shown(turns, block)[|turns| - 1].blocks| == |turns[|turns| - 1].blocks| + 1
  {}

  lemma {:induction false} OneTurnGrows(turns: seq<Turn>, turn: Turn)
    ensures Grows(turns, turns + [turn])
  {}

  lemma {:induction false} SameGrows(turns: seq<Turn>)
    ensures Grows(turns, turns)
  {}

  /** Live a turn begins with a new id, a taken prompt's, or one that goes on after a block. */
  lemma {:induction false} LiveGrows(run: Run, event: Event)
    requires Sound(run) && Enabled(run, event)
    ensures var was, now := run.live.turns, LiveStep(run, event).turns;
            Grows(was, now) && forall k :: |was| <= k < |now| ==> !NeverLive(run, now[k].id)
  {
    var was, now := run.live.turns, LiveStep(run, event).turns;
    match event {
      case Sent(uuid, _) => OneTurnGrows(was, Turn(uuid, []));
      case Taken(_, _) =>
        TakenLive(run, event);
        hide LiveStep;
        assert Queues(run.queue, run.queue[0].prompt.value);
        if now != was { OneTurnGrows(was, now[|was|]); }
      case NoteTaken(_, _, _) =>
        NoteLive(run, event);
        hide LiveStep;
        if now != was { OneTurnGrows(was, now[|was|]); }
      case Streamed(_, _, _, _) =>
        WordsGrow(run, event);
        hide LiveStep;
      case _ =>
    }
  }

  lemma {:induction false} WordsGrow(run: Run, event: Event)
    requires Sound(run) && Enabled(run, event) && event.Streamed?
    ensures var was, now := run.live.turns, LiveStep(run, event).turns;
            Grows(was, now) && forall k :: |was| <= k < |now| ==> !NeverLive(run, now[k].id)
  {
    WordsLive(run, event);
    var was, now := run.live.turns, LiveStep(run, event).turns;
    hide LiveStep, WordsGoOn;
    var own := OwnTurn(run, event.random);
    if own.Some? { OneTurnGrows(was, now[|was|]); } else { ShownGrows(was, BlockOf(event.message, event.index)); }
    hide Shown;
  }

  /** In history one begins with a prompt that had not waited, or goes on after a block. */
  lemma {:induction false} HistoryGrows(run: Run, event: Event, history: History)
    requires Sound(run) && Enabled(run, event) && MirrorsQueue(run, history.steering)
    ensures var was, now := history.turns, Steps(history, Written(run, event)).turns;
            Grows(was, now) && forall k :: |was| <= k < |now| ==> !NeverHistory(run, now[k].id)
  {
    hide Steps, Grows;
    var was, now := history.turns, Steps(history, Written(run, event)).turns;
    SameGrows(was);
    match event {
      case Sent(_, text) => QueuedHistory(history, text);
      case Taken(promptId, _) =>
        QueueRest(run.queue);
        TakenHistory(history, run.queue[0].prompt.value, run.queue[0].text, promptId);
        if now != was { OneTurnGrows(was, now[|was|]); assert run.queue[0].prompt == Some(now[|was|].id) && !run.queue[0].waited; }
      case NoteQueued(text) => QueuedHistory(history, text);
      case NoteTaken(uuid, promptId, _) =>
        QueueRest(run.queue);
        NoteHistory(history, uuid, run.queue[0].text, promptId);
        if now != was { OneTurnGrows(was, now[|was|]); }
      case Streamed(message, index, deltas, _) =>
        WordsHistory(history, message, index, Length(deltas));
        hide Shown;
        if was != [] {
          if history.answer && history.lastBlock.Some? { OneTurnGrows(was, now[|was|]); } else { ShownGrows(was, BlockOf(message, index)); }
        }
      case ToolResult(uuid, text, promptId) => ResultHistory(history, text, uuid, promptId);
      case Finished => UpToTwo(history, Dequeue, Dequeue);
      case Idle => UpToTwo(history, Dequeue, Dequeue);
    }
  }

  /** Nothing that begins no turn any more ever will. */
  lemma {:induction false} NeverStays(run: Run, event: Event)
    requires Sound(run) && Enabled(run, event)
    ensures var next := Apply(run, event);
            && (forall id :: NeverLive(run, id) ==> NeverLive(next, id))
            && (forall id :: NeverHistory(run, id) ==> NeverHistory(next, id))
  {
    var next := Apply(run, event);
    hide LiveStep, AfterEvent;
    forall i | 0 <= i < |next.queue| && next.queue[i].prompt.Some?
      ensures (exists j :: 0 <= j < |run.queue| && run.queue[j].prompt == next.queue[i].prompt && (run.queue[j].waited ==> next.queue[i].waited))
              || next.queue[i].prompt.value !in run.used
    {
      match event {
        case Sent(_, _) => if i < |run.queue| { assert next.queue[i] == run.queue[i]; }
        case NoteQueued(_) => if i < |run.queue| { assert next.queue[i] == run.queue[i]; }
        case Taken(_, _) => assert run.queue[i + 1].prompt == next.queue[i].prompt && (run.queue[i + 1].waited ==> next.queue[i].waited);
        case NoteTaken(_, _, _) => assert run.queue[i + 1] == next.queue[i];
        case _ => assert run.queue[i].prompt == next.queue[i].prompt && (run.queue[i].waited ==> next.queue[i].waited);
      }
    }
    forall id, i | NeverLive(run, id) && 0 <= i < |next.queue| ensures next.queue[i].prompt != Some(id) {}
  }

  /** Once parted, parted after every event. */
  lemma {:induction false} EventStaysParted(run: Run, event: Event, history: History)
    requires Sound(run) && Enabled(run, event) && MirrorsQueue(run, history.steering)
    requires Parted(run, run.live.turns, history.turns)
    ensures Parted(Apply(run, event), Apply(run, event).live.turns, Steps(history, Written(run, event)).turns)
  {
    LiveGrows(run, event);
    HistoryGrows(run, event, history);
    NeverStays(run, event);
    var next := Apply(run, event);
    assert next.live == LiveStep(run, event) by { hide LiveStep; }
    hide *;
    PartedStays(run, next, run.live.turns, next.live.turns, history.turns, Steps(history, Written(run, event)).turns);
  }

  // ---- together, until an event parts them ----

  /** After an event: together as the phase says, or parted. */
  ghost predicate Outcome(run: Run, history: History) {
    if run.phase.Some? then Together(run, history) else Parted(run, run.live.turns, history.turns)
  }

  lemma {:induction false} EmptyMore(ids: seq<Id>, id: Id)
    ensures Empty(ids + [id]) == Empty(ids) + [Turn(id, [])]
  {}

  lemma {:induction false} EmptyRest(ids: seq<Id>)
    requires ids != []
    ensures Empty(ids) == [Turn(ids[0], [])] + Empty(ids[1..])
  {}

  lemma {:induction false} SentTogether(run: Run, event: Event, history: History)
    requires Sound(run) && Enabled(run, event) && run.phase.Some? && Together(run, history) && event.Sent?
    ensures Outcome(Apply(run, event), Steps(history, Written(run, event)))
  {
    hide Steps;
    QueuedHistory(history, event.text);
    var next := Apply(run, event);
    QueueGrows(run.queue, Waiting(Some(event.uuid), event.text, false));
    if run.live.turn.None? {
      if run.phase.value.Ahead? {
        assert PartedAt(next, next.live.turns, history.turns, |run.live.turns|);
      } else {
        EmptyMore(run.phase.value.begun, event.uuid);
        assert event.uuid !in run.phase.value.begun;
        assert next.queue[|run.queue|].prompt == Some(event.uuid);
      }
    }
    hide Empty, Queues;
  }

  lemma {:induction false} QueueGrows(queue: seq<Waiting>, more: Waiting)
    ensures forall id :: Queues(queue, id) ==> Queues(queue + [more], id)
    ensures more.prompt.Some? ==> Queues(queue + [more], more.prompt.value)
  {
    var all := queue + [more];
    assert all[|queue|] == more;
    forall id | Queues(queue, id) ensures Queues(all, id) {
      var i :| 0 <= i < |queue| && queue[i].prompt == Some(id);
      assert all[i].prompt == Some(id);
    }
  }

  /** Of the queue without its first, the others are still there. */
  lemma {:induction false} QueueShrinks(queue: seq<Waiting>, rest: seq<Waiting>)
    requires queue != [] && |rest| == |queue| - 1 && forall i :: 0 <= i < |rest| ==> rest[i].prompt == queue[i + 1].prompt
    ensures forall id :: Queues(queue, id) && queue[0].prompt != Some(id) ==> Queues(rest, id)
  {
    forall id | Queues(queue, id) && queue[0].prompt != Some(id) ensures Queues(rest, id) {
      var i :| 0 <= i < |queue| && queue[i].prompt == Some(id);
      assert rest[i - 1].prompt == Some(id);
    }
  }

  lemma {:induction false} TakenTogether(run: Run, event: Event, history: History)
    requires Sound(run) && Enabled(run, event) && run.phase.Some? && Together(run, history) && MirrorsQueue(run, history.steering) && event.Taken?
    ensures Outcome(Apply(run, event), Steps(history, Written(run, event)))
  {
    hide Steps, LiveStep;
    var front, prompt := run.queue[0], run.queue[0].prompt.value;
    QueueRest(run.queue);
    TakenHistory(history, prompt, front.text, event.taken);
    TakenLive(run, event);
    var next, after := Apply(run, event), Steps(history, Written(run, event));
    assert forall i :: 0 <= i < |next.queue| ==> next.queue[i].prompt == run.queue[i + 1].prompt;
    QueueShrinks(run.queue, next.queue);
    assert Queues(run.queue, prompt) && prompt.Given?;
    assert TakesPrompt(run, event.random, history, next, after);
    hide *;
    match run.phase.value {
      case Ahead => TakenAhead(run, event.random, history, next, after);
      case Behind(_, _) => TakenBehind(run, event.random, history, next, after);
    }
  }

  /** What taking a prompt does to the turns, live and in history. */
  ghost predicate TakesPrompt(run: Run, random: Id, history: History, next: Run, after: History)
    requires run.queue != [] && run.queue[0].prompt.Some? && run.phase.Some?
  {
    var was, now, prompt := run.live, next.live, run.queue[0].prompt.value;
    var id := if prompt !in was.pending && was.notified then NextId(was, random) else prompt;
    && now == (if was.turn.Some? then was.(pending := was.pending - {prompt}) else OpenTurn(was, id).(pending := was.pending - {id}))
    && (if run.queue[0].waited then after.turns == history.turns && after.lastBlock == history.lastBlock && after.answer == history.answer
        else after.turns == history.turns + [Turn(prompt, [])] && after.lastBlock.None? && !after.answer)
    && |next.queue| == |run.queue| - 1 && (forall i :: 0 <= i < |next.queue| ==> next.queue[i].prompt == run.queue[i + 1].prompt)
    && (forall id :: Queues(run.queue, id) && id != prompt ==> Queues(next.queue, id))
    && prompt.Given? && NeverLive(next, prompt) && NeverHistory(next, prompt) && NeverHistory(next, random)
    && next.phase == AfterTaken(run)
  }

  lemma {:induction false} TakenAhead(run: Run, random: Id, history: History, next: Run, after: History)
    requires Sound(run) && run.queue != [] && run.queue[0].prompt.Some?
    requires run.phase == Some(Ahead) && Together(run, history) && TakesPrompt(run, random, history, next, after)
    ensures Outcome(next, after)
  {
    hide Queues;
    var prompt, n := run.queue[0].prompt.value, |run.live.turns|;
    assert prompt in run.live.pending;
    if run.live.turn.None? {
      assert PartedAt(next, next.live.turns, after.turns, n);
    } else if !run.queue[0].waited {
      assert PartedAt(next, next.live.turns, after.turns, n + 1);
    } else {
      assert forall i :: 0 <= i < |next.queue| && next.queue[i].prompt.Some? ==> next.queue[i].prompt == run.queue[i + 1].prompt;
    }
  }

  lemma {:induction false} TakenBehind(run: Run, random: Id, history: History, next: Run, after: History)
    requires Sound(run) && run.queue != [] && run.queue[0].prompt.Some?
    requires run.phase.Some? && run.phase.value.Behind? && Together(run, history) && TakesPrompt(run, random, history, next, after)
    ensures Outcome(next, after)
  {
    hide Queues;
    var prompt, n, begun := run.queue[0].prompt.value, |history.turns|, run.phase.value.begun;
    if begun == [] {
      assert prompt in run.live.pending;
      if run.live.turn.None? {
        if run.queue[0].waited { assert PartedAt(next, next.live.turns, after.turns, n); }
      } else if !run.queue[0].waited { assert PartedAt(next, next.live.turns, after.turns, n); }
    } else if run.live.turn.None? {
      assert PartedAt(next, next.live.turns, after.turns, n + |begun|);
    } else if run.queue[0].waited {
      if prompt in begun {
        var j :| 0 <= j < |begun| && begun[j] == prompt;
        assert PartedAt(next, next.live.turns, after.turns, n + j);
      }
    } else if begun[0] == prompt {
      EmptyRest(begun);
    } else {
      assert PartedAt(next, next.live.turns, after.turns, n);
    }
  }

  /** What taking a notification does to them. */
  ghost predicate TakesNote(run: Run, uuid: Id, note: Option<Token>, random: Id, history: History, next: Run, after: History)
    requires run.phase.Some?
  {
    var was, now := run.live, next.live;
    var id := if was.notified then NextId(was, random) else uuid;
    && now == (if was.turn.Some? then was else OpenTurn(was, id).(pending := was.pending - {id}))
    && (if history.lastBlock.Some? && note != run.promptId
        then after.turns == history.turns + [Turn(ContinuationOf(history.lastBlock.value), [])] && after.lastBlock.None? && !after.answer
        else after.turns == history.turns && after.lastBlock == history.lastBlock && after.answer == history.answer)
    && |next.queue| == |run.queue| - 1 && (forall i :: 0 <= i < |next.queue| ==> next.queue[i] == run.queue[i + 1])
    && (forall id :: Queues(run.queue, id) ==> Queues(next.queue, id))
    && uuid.Given? && random.Given? && uuid !in run.used && random !in run.used && NeverHistory(next, uuid) && NeverHistory(next, random)
    && next.phase == AfterNote(run, note)
  }

  lemma {:induction false} NoteTogether(run: Run, event: Event, history: History)
    requires Sound(run) && Enabled(run, event) && run.phase.Some? && Together(run, history) && MirrorsQueue(run, history.steering) && event.NoteTaken?
    requires history.promptId == run.promptId
    ensures Outcome(Apply(run, event), Steps(history, Written(run, event)))
  {
    hide Steps, LiveStep;
    QueueRest(run.queue);
    NoteHistory(history, event.uuid, run.queue[0].text, event.note);
    NoteLive(run, event);
    var next, after := Apply(run, event), Steps(history, Written(run, event));
    assert forall i :: 0 <= i < |next.queue| ==> next.queue[i] == run.queue[i + 1];
    QueueShrinks(run.queue, next.queue);
    assert TakesNote(run, event.uuid, event.note, event.random, history, next, after);
    hide *;
    match run.phase.value {
      case Ahead => NoteAhead(run, event.uuid, event.note, event.random, history, next, after);
      case Behind(_, _) => NoteBehind(run, event.uuid, event.note, event.random, history, next, after);
    }
  }

  lemma {:induction false} NoteAhead(run: Run, uuid: Id, note: Option<Token>, random: Id, history: History, next: Run, after: History)
    requires Sound(run) && run.phase == Some(Ahead) && Together(run, history) && TakesNote(run, uuid, note, random, history, next, after)
    ensures Outcome(next, after)
  {
    hide Queues;
    if run.live.turn.None? && !run.live.notified {
      assert PartedAt(next, next.live.turns, after.turns, |run.live.turns|);
    }
    assert forall i :: 0 <= i < |next.queue| && next.queue[i].prompt.Some? ==> next.queue[i].prompt == run.queue[i + 1].prompt;
  }

  lemma {:induction false} NoteBehind(run: Run, uuid: Id, note: Option<Token>, random: Id, history: History, next: Run, after: History)
    requires Sound(run) && run.phase.Some? && run.phase.value.Behind? && Together(run, history)
    requires TakesNote(run, uuid, note, random, history, next, after)
    ensures Outcome(next, after)
  {
    hide Queues;
    var n, begun, block := |history.turns|, run.phase.value.begun, run.phase.value.block;
    assert forall i :: 0 <= i < |next.queue| && next.queue[i].prompt.Some? ==> next.queue[i].prompt == run.queue[i + 1].prompt;
    if run.live.turn.None? {
      if !run.live.notified || run.live.lastBlock.None? {
        assert PartedAt(next, next.live.turns, after.turns, n + |begun|);
      } else {
        EmptyMore([], ContinuationOf(block.value.id));
      }
    } else if note != run.promptId && block.Some? && begun != [] {
      EmptyRest(begun);
      if begun[0] != ContinuationOf(block.value.id) { assert PartedAt(next, next.live.turns, after.turns, n); }
    }
  }

  /** What words do to them. */
  ghost predicate TakesWords(run: Run, words: Block, random: Id, history: History, next: Run, after: History)
    requires run.phase.Some?
  {
    && GoesTo(run.live, next.live, OwnTurn(run, random), words.id, words.text)
    && (if history.turns == [] then after.turns == [] && after.lastBlock == history.lastBlock && after.answer == history.answer
        else after.lastBlock == Some(words.id) && after.answer == Answer(Some(words))
             && after.turns == if history.answer && history.lastBlock.Some? then history.turns + [Turn(ContinuationOf(history.lastBlock.value), [words.id])] else Shown(history.turns, words.id))
    && |next.queue| == |run.queue| && (forall i :: 0 <= i < |next.queue| ==> next.queue[i] == run.queue[i].(waited := true))
    && (forall id :: Queues(run.queue, id) ==> Queues(next.queue, id))
    && random.Given? && random !in run.used && run.used <= next.used && random in next.used
    && next.phase == AfterWords(run, words)
  }

  lemma {:induction false} WordsTogether(run: Run, event: Event, history: History)
    requires Sound(run) && Enabled(run, event) && run.phase.Some? && Together(run, history) && event.Streamed?
    ensures Outcome(Apply(run, event), Steps(history, Written(run, event)))
  {
    hide Steps, LiveStep, Shown, WordsGoOn;
    WordsHistory(history, event.message, event.index, Length(event.deltas));
    WordsLive(run, event);
    var next, after := Apply(run, event), Steps(history, Written(run, event));
    QueueSame(run.queue, next.queue);
    var words := Block(BlockOf(event.message, event.index), Length(event.deltas));
    assert TakesWords(run, words, event.random, history, next, after);
    hide *;
    match run.phase.value {
      case Ahead => WordsAhead(run, words, event.random, history, next, after);
      case Behind(_, _) =>
        if run.phase.value.begun == [] { WordsEven(run, words, event.random, history, next, after); }
        else { WordsBehind(run, words, event.random, history, next, after); }
    }
  }

  lemma {:induction false} QueueSame(was: seq<Waiting>, now: seq<Waiting>)
    requires |now| == |was| && forall i :: 0 <= i < |now| ==> now[i] == was[i].(waited := true)
    ensures forall id :: Queues(was, id) ==> Queues(now, id)
  {
    forall id | Queues(was, id) ensures Queues(now, id) {
      var i :| 0 <= i < |was| && was[i].prompt == Some(id);
      assert now[i].prompt == Some(id);
    }
  }

  lemma {:induction false} WordsAhead(run: Run, words: Block, random: Id, history: History, next: Run, after: History)
    requires Sound(run) && run.phase == Some(Ahead) && Together(run, history) && TakesWords(run, words, random, history, next, after)
    ensures Outcome(next, after)
  {
    hide Queues, WordsGoOn;
    var n, c := |run.live.turns|, ContinuationOf(run.live.lastBlock.value.id);
    ShownNew(run.live.turns, c, words.id);
    if run.live.turns != [] { ShownGrows(run.live.turns, words.id); }
    hide Shown;
    if run.live.turn.Some? && !WordsGoOn(run) { assert PartedAt(next, next.live.turns, after.turns, n - 1); }
    assert forall i :: 0 <= i < |next.queue| ==> next.queue[i].prompt == run.queue[i].prompt;
  }

  lemma {:induction false} WordsEven(run: Run, words: Block, random: Id, history: History, next: Run, after: History)
    requires Sound(run) && run.phase.Some? && run.phase.value.Behind? && run.phase.value.begun == [] && Together(run, history)
    requires TakesWords(run, words, random, history, next, after)
    ensures Outcome(next, after)
  {
    hide Queues, WordsGoOn;
    var n, turnless := |history.turns|, run.live.turn.None?;
    assert run.live.turns == history.turns;
    if history.turns != [] { ShownGrows(history.turns, words.id); }
    hide Shown;
    if Answer(run.live.lastBlock) != (turnless || WordsGoOn(run)) {
      if turnless && run.live.lastBlock.None? { assert PartedAt(next, next.live.turns, after.turns, n); }
      else { assert PartedAt(next, next.live.turns, after.turns, n - 1); }
    }
    assert forall i :: 0 <= i < |next.queue| ==> next.queue[i].prompt == run.queue[i].prompt;
  }

  lemma {:induction false} WordsBehind(run: Run, words: Block, random: Id, history: History, next: Run, after: History)
    requires Sound(run) && run.phase.Some? && run.phase.value.Behind? && run.phase.value.begun != [] && Together(run, history)
    requires TakesWords(run, words, random, history, next, after)
    ensures Outcome(next, after)
  {
    hide *;
    if run.live.turn.None? { WordsTurnless(run, words, random, history, next, after); }
    else if history.turns == [] { WordsFirst(run, words, random, history, next, after); }
    else if Answer(run.phase.value.block) { WordsAfterAnswer(run, words, random, history, next, after); }
    else { WordsOnLast(run, words, random, history, next, after); }
  }

  lemma {:induction false} WordsTurnless(run: Run, words: Block, random: Id, history: History, next: Run, after: History)
    requires Sound(run) && run.phase.Some? && run.phase.value.Behind? && run.phase.value.begun != [] && Together(run, history)
    requires TakesWords(run, words, random, history, next, after)
    requires run.live.turn.None?
    ensures Outcome(next, after)
  {
    hide Queues;
    if history.turns != [] { ShownGrows(history.turns, words.id); }
    hide Shown;
    assert PartedAt(next, next.live.turns, after.turns, |history.turns| + |run.phase.value.begun|);
  }

  lemma {:induction false} WordsFirst(run: Run, words: Block, random: Id, history: History, next: Run, after: History)
    requires Sound(run) && run.phase.Some? && run.phase.value.Behind? && run.phase.value.begun != [] && Together(run, history)
    requires TakesWords(run, words, random, history, next, after)
    requires run.live.turn.Some? && history.turns == []
    ensures Outcome(next, after)
  {
    var begun := run.phase.value.begun;
    FirstNever(run, next, begun[0]) by { FirstQueues(run, history); }
    ShownGrows(run.live.turns, words.id);
    hide Queues, Shown, NeverHistory;
    assert PartedAt(next, next.live.turns, after.turns, 0);
  }

  lemma {:induction false} FirstQueues(run: Run, history: History)
    requires run.phase.Some? && run.phase.value.Behind? && run.phase.value.begun != [] && Together(run, history) && history.turns == []
    ensures Queues(run.queue, run.phase.value.begun[0])
  {
    hide Queues;
  }

  lemma {:induction false} WordsAfterAnswer(run: Run, words: Block, random: Id, history: History, next: Run, after: History)
    requires Sound(run) && run.phase.Some? && run.phase.value.Behind? && run.phase.value.begun != [] && Together(run, history)
    requires TakesWords(run, words, random, history, next, after)
    requires run.live.turn.Some? && history.turns != [] && Answer(run.phase.value.block)
    ensures Outcome(next, after)
  {
    hide Queues;
    var n, begun, block := |history.turns|, run.phase.value.begun, run.phase.value.block;
    ShownGrows(run.live.turns, words.id);
    ShownNew(history.turns, begun[0], words.id);
    hide Shown;
    assert forall i :: 0 <= i < |next.queue| ==> next.queue[i].prompt == run.queue[i].prompt;
    if begun == [ContinuationOf(block.value.id)] { assert Empty(begun) == [Turn(begun[0], [])]; }
    else { assert PartedAt(next, next.live.turns, after.turns, n); }
  }

  lemma {:induction false} WordsOnLast(run: Run, words: Block, random: Id, history: History, next: Run, after: History)
    requires Sound(run) && run.phase.Some? && run.phase.value.Behind? && run.phase.value.begun != [] && Together(run, history)
    requires TakesWords(run, words, random, history, next, after)
    requires run.live.turn.Some? && history.turns != [] && !Answer(run.phase.value.block)
    ensures Outcome(next, after)
  {
    hide Queues;
    ShownGrows(history.turns, words.id);
    ShownGrows(run.live.turns, words.id);
    hide Shown;
    assert PartedAt(next, next.live.turns, after.turns, |history.turns| - 1);
  }

  /** A prompt that waits begins no turn in history. */
  lemma {:induction false} FirstNever(run: Run, next: Run, id: Id)
    requires Sound(run) && Queues(run.queue, id) && run.used <= next.used
    requires |next.queue| == |run.queue| && forall i :: 0 <= i < |next.queue| ==> next.queue[i] == run.queue[i].(waited := true)
    ensures NeverHistory(next, id)
  {}

  lemma {:induction false} QuietTogether(run: Run, event: Event, history: History)
    requires Sound(run) && Enabled(run, event) && run.phase.Some? && Together(run, history) && MirrorsQueue(run, history.steering)
    requires event.NoteQueued? || event.ToolResult? || event.Finished? || event.Idle?
    ensures Outcome(Apply(run, event), Steps(history, Written(run, event)))
  {
    hide Steps;
    var next := Apply(run, event);
    match event {
      case NoteQueued(text) =>
        QueuedHistory(history, text);
        QueueGrows(run.queue, Waiting(None, text, false));
      case ToolResult(uuid, text, promptId) =>
        ResultHistory(history, text, uuid, promptId);
        QueueSame(run.queue, next.queue);
      case _ => UpToTwo(history, Dequeue, Dequeue);
    }
    hide Queues, Empty, MirrorsQueue;
    assert |run.queue| <= |next.queue| && forall i :: 0 <= i < |run.queue| ==> next.queue[i].prompt == run.queue[i].prompt;
  }

  lemma {:induction false} EventTogether(run: Run, event: Event, history: History)
    requires Sound(run) && Enabled(run, event) && run.phase.Some? && Together(run, history) && MirrorsQueue(run, history.steering)
    requires history.promptId == run.promptId
    ensures Outcome(Apply(run, event), Steps(history, Written(run, event)))
  {
    hide *;
    match event {
      case Sent(_, _) => SentTogether(run, event, history);
      case Taken(_, _) => TakenTogether(run, event, history);
      case NoteTaken(_, _, _) => NoteTogether(run, event, history);
      case Streamed(_, _, _, _) => WordsTogether(run, event, history);
      case _ => QuietTogether(run, event, history);
    }
  }

  lemma {:induction false} EventPrompt(run: Run, event: Event, history: History)
    requires Enabled(run, event) && TurnShown(run.live) && history.promptId == run.promptId && MirrorsQueue(run, history.steering)
    requires event.ToolResult? || event.NoteTaken? ==> event.uuid !in history.steering.steered
    ensures Steps(history, Written(run, event)).promptId == Apply(run, event).promptId
  {
    hide Steps, LiveStep, AfterEvent;
    match event {
      case Sent(_, text) => QueuedHistory(history, text);
      case Taken(promptId, _) =>
        QueueRest(run.queue);
        TakenHistory(history, run.queue[0].prompt.value, run.queue[0].text, promptId);
      case NoteQueued(text) => QueuedHistory(history, text);
      case NoteTaken(uuid, promptId, _) =>
        QueueRest(run.queue);
        NoteHistory(history, uuid, run.queue[0].text, promptId);
      case Streamed(message, index, deltas, _) => WordsHistory(history, message, index, Length(deltas));
      case ToolResult(uuid, text, promptId) => ResultHistory(history, text, uuid, promptId);
      case _ => UpToTwo(history, Dequeue, Dequeue);
    }
  }

  // ---- runs ----

  /** The turns that history shows of a transcript. */
  function HistoryTurns(records: seq<Record>): seq<Turn> {
    var starts := StartingOf(records, SteeringOf(records).steered).starts;
    StartsAreIn(records, SteeringOf(records).steered);
    Partition(records, starts)
  }

  /** Each recorded uuid is once there, and neither new nor in the queue any more. */
  ghost predicate Recorded(records: seq<Record>, run: Run) {
    UuidsOnce(records) && forall i :: 0 <= i < |records| && UserUuid(records[i]).Some? ==> NeverLive(run, UserUuid(records[i]).value)
  }

  /** What every run keeps of history. */
  ghost predicate Follows(run: Run, records: seq<Record>) {
    var history := HistoryOf(records);
    Sound(run) && Recorded(records, run) && MirrorsQueue(run, history.steering) && history.promptId == run.promptId && Outcome(run, history)
  }

  /** Only the last record an event writes is a user's. */
  lemma {:induction false} WrittenUuids(run: Run, event: Event)
    requires Sound(run) && Enabled(run, event)
    ensures var more, next := Written(run, event), Apply(run, event);
            && (forall i :: 0 <= i < |more| - 1 ==> UserUuid(more[i]).None?)
            && (more != [] && UserUuid(more[|more| - 1]).Some? ==>
                  !NeverLive(run, UserUuid(more[|more| - 1]).value) && NeverLive(next, UserUuid(more[|more| - 1]).value))
  {
    hide LiveStep, AfterEvent;
    var next := Apply(run, event);
    match event {
      case Taken(_, _) =>
        assert forall i :: 0 <= i < |next.queue| ==> next.queue[i].prompt == run.queue[i + 1].prompt;
        assert Queues(run.queue, run.queue[0].prompt.value);
      case NoteTaken(_, _, _) => assert forall i :: 0 <= i < |next.queue| ==> next.queue[i] == run.queue[i + 1];
      case _ =>
    }
  }

  lemma {:induction false} EventRecorded(run: Run, event: Event, records: seq<Record>)
    requires Sound(run) && Enabled(run, event) && Recorded(records, run)
    ensures Recorded(records + Written(run, event), Apply(run, event))
  {
    NeverStays(run, event);
    WrittenUuids(run, event);
    var more, next := Written(run, event), Apply(run, event);
    hide Written, Apply, NeverLive, NeverHistory;
    var all := records + more;
    forall i | 0 <= i < |all| && UserUuid(all[i]).Some?
      ensures (i < |records| && all[i] == records[i]) || (i == |all| - 1 && all[i] == more[|more| - 1])
    {
      if i >= |records| { assert all[i] == more[i - |records|]; }
    }
  }

  lemma {:induction false} EventFollows(run: Run, event: Event, records: seq<Record>)
    requires Follows(run, records) && Enabled(run, event)
    ensures Follows(Apply(run, event), records + Written(run, event))
  {
    var history, more, next := HistoryOf(records), Written(run, event), Apply(run, event);
    NewUnsteered(run, event, history);
    assert run.phase.None? ==> next.phase.None? by { hide LiveStep, AfterEvent; }
    hide HistoryOf, Apply, Written, Together, Parted, MirrorsQueue, Recorded, Sound, Steps, HistoryStep, Enabled;
    StepsGoOn(records, more);
    EventSound(run, event);
    EventRecorded(run, event, records);
    EventQueue(run, event, history);
    EventPrompt(run, event, history);
    if run.phase.Some? { EventTogether(run, event, history); } else { EventStaysParted(run, event, history); }
  }

  lemma {:induction false} NewUnsteered(run: Run, event: Event, history: History)
    requires Enabled(run, event) && MirrorsQueue(run, history.steering)
    ensures event.ToolResult? || event.NoteTaken? ==> event.uuid !in history.steering.steered
  {}

  lemma {:induction false} RunFollows(events: seq<Event>)
    requires Execute(events).Some?
    ensures Follows(Execute(events).value, Transcript(events))
    decreases |events|
  {
    if events != [] {
      var before := events[..|events| - 1];
      RunFollows(before);
      hide Follows, Apply, Written;
      EventFollows(Execute(before).value, events[|events| - 1], Transcript(before));
    } else {
      NothingFollows();
    }
  }

  lemma {:induction false} NothingFollows()
    ensures Follows(Begin(), [])
  {
    assert Empty([]) == [] && [] + Empty([]) == [] && QueueOf([]) == [];
  }

  /** The transcript's last user record that is no tool result: here one that starts a turn, or a finished task's notification. */
  function LastPromptOf(records: seq<Record>): Option<LastPrompt> {
    if records == [] then None
    else match records[|records| - 1]
         case UserRecord(uuid, _, origin, _, starts) =>
           if starts || origin.TaskNotification? then Some(LastPrompt(uuid, origin.TaskNotification?)) else LastPromptOf(records[..|records| - 1])
         case _ => LastPromptOf(records[..|records| - 1])
  }

  /** What a session reads back as the last prompt is the transcript's. */
  lemma {:induction false} PromptReadBack(events: seq<Event>)
    requires Execute(events).Some?
    ensures Execute(events).value.prompt == LastPromptOf(Transcript(events))
    decreases |events|
  {
    if events != [] {
      var before := events[..|events| - 1];
      var run, event, records := Execute(before).value, events[|events| - 1], Transcript(before);
      PromptReadBack(before);
      EventPromptRead(run, event, records);
      hide Apply, Written, LastPromptOf;
    }
  }

  lemma {:induction false} EventPromptRead(run: Run, event: Event, records: seq<Record>)
    requires Enabled(run, event) && TurnShown(run.live) && run.prompt == LastPromptOf(records)
    ensures Apply(run, event).prompt == LastPromptOf(records + Written(run, event))
  {
    hide LiveStep, AfterEvent;
    var more := Written(run, event);
    if |more| == 1 { assert (records + more)[..|records|] == records; }
    if |more| == 2 { assert (records + more)[..|records| + 1] == records + [more[0]] && (records + [more[0]])[..|records|] == records; }
    if |more| == 0 { assert records + more == records; }
  }

  /**
   * Over every run, history shows the turns seen live, with the same ids and the same blocks in each (but for the turns
   * that the phase says only one of them has begun so far), exactly when no event of the run parted them.
   */
  lemma {:induction false} SameTurns(events: seq<Event>)
    requires Execute(events).Some?
    ensures var run := Execute(events).value;
            HistoryTurns(Transcript(events)) + LiveOnly(run) == run.live.turns + HistoryOnly(run) <==> run.phase.Some?
  {
    var run, records := Execute(events).value, Transcript(events);
    RunFollows(events);
    OnePass(records);
    ShowsHistory(records);
    FollowsIs(run, records);
    hide *;
    if run.phase.Some? { TogetherIs(run, HistoryOf(records)); } else { PartedIs(run, HistoryOf(records).turns); }
  }

  lemma {:induction false} FollowsIs(run: Run, records: seq<Record>)
    requires Follows(run, records)
    ensures if run.phase.Some? then Together(run, HistoryOf(records)) else Parted(run, run.live.turns, HistoryOf(records).turns)
  {
    hide Together, Parted, Sound, MirrorsQueue, HistoryOf;
  }

  lemma {:induction false} PartedIs(run: Run, history: seq<Turn>)
    requires run.phase.None? && Parted(run, run.live.turns, history)
    ensures history + LiveOnly(run) != run.live.turns + HistoryOnly(run)
  {
    assert history + [] == history && run.live.turns + [] == run.live.turns;
    PartedDiffer(run, run.live.turns, history);
    hide Parted;
  }

  lemma {:induction false} TogetherIs(run: Run, history: History)
    requires run.phase.Some? && Together(run, history)
    ensures history.turns + LiveOnly(run) == run.live.turns + HistoryOnly(run)
  {
    hide Empty, Queues;
    assert run.live.turns + [] == run.live.turns && history.turns + [] == history.turns;
  }

  lemma {:induction false} ShowsHistory(records: seq<Record>)
    requires var steering := SteeringOf(records);
             var starting := StartingOf(records, steering.steered);
             && StartsIn(starting.starts, |records|)
             && HistoryOf(records) == History(steering, Partition(records, starting.starts), starting.promptId, starting.lastBlock, starting.answer)
    ensures HistoryTurns(records) == HistoryOf(records).turns
  {
    hide HistoryOf, StartingOf, SteeringOf, Partition, StartsIn;
  }

  /** Once parted, whatever happens they never show the same turns again. */
  lemma {:induction false} PartedForGood(events: seq<Event>, k: nat)
    requires k <= |events| && Execute(events).Some?
    ensures Execute(events[..k]).Some?
    ensures Execute(events[..k]).value.phase.None? ==> HistoryTurns(Transcript(events)) != Execute(events).value.live.turns
  {
    PhaseStaysNone(events, k);
    SameTurns(events);
    var turns := HistoryTurns(Transcript(events));
    hide *;
    NonePhase(Execute(events).value);
    assert turns + [] == turns && Execute(events).value.live.turns + [] == Execute(events).value.live.turns;
  }

  lemma {:induction false} NonePhase(run: Run)
    ensures run.phase.None? ==> LiveOnly(run) == [] && HistoryOnly(run) == []
  {}

  lemma {:induction false} PhaseStaysNone(events: seq<Event>, k: nat)
    requires k <= |events| && Execute(events).Some?
    ensures Execute(events[..k]).Some? && (Execute(events[..k]).value.phase.None? ==> Execute(events).value.phase.None?)
    decreases |events|
  {
    if k == |events| {
      assert events[..k] == events;
    } else {
      assert events[..|events| - 1][..k] == events[..k];
      hide LiveStep, AfterEvent;
      PhaseStaysNone(events[..|events| - 1], k);
    }
  }

  // ---- runs that part them ----

  lemma {:induction false} OneMore(events: seq<Event>, run: Run, event: Event) returns (next: Run)
    requires Execute(events) == Some(run) && Enabled(run, event) && TurnShown(run.live)
    ensures Execute(events + [event]) == Some(next) && next == Apply(run, event)
  {
    assert (events + [event])[..|events|] == events;
    next := Apply(run, event);
  }

  /** A session after a prompt was sent and taken. */
  lemma {:induction false} Prompted(prompt: Id, text: Text, promptId: Token, random: Id) returns (run: Run)
    requires prompt.Given? && random.Given? && prompt != random
    ensures Execute([Sent(prompt, text), Taken(Some(promptId), random)]) == Some(run)
    ensures run == Run(Live(Some(prompt), [Turn(prompt, [])], None, false, false, false, {}), [], Some(promptId), Some(LastPrompt(prompt, false)),
                       {prompt, random}, Some(Behind([], None)))
  {
    assert Execute([]) == Some(Begin());
    assert [] + [Sent(prompt, text)] == [Sent(prompt, text)];
    assert [Sent(prompt, text)] + [Taken(Some(promptId), random)] == [Sent(prompt, text), Taken(Some(promptId), random)];
    hide Execute;
    FirstSent(prompt, text);
    var sent := OneMore([], Begin(), Sent(prompt, text));
    FirstTakenIs(sent, prompt, text, promptId, random);
    hide Apply, Enabled;
    run := OneMore([Sent(prompt, text)], sent, Taken(Some(promptId), random));
  }

  lemma {:induction false} FirstSent(prompt: Id, text: Text)
    requires prompt.Given?
    ensures TurnShown(Begin().live) && Enabled(Begin(), Sent(prompt, text))
    ensures Apply(Begin(), Sent(prompt, text))
         == Run(Live(Some(prompt), [Turn(prompt, [])], None, false, false, false, {}), [Waiting(Some(prompt), text, false)], None, None, {prompt}, Some(Behind([prompt], None)))
  {
    assert [] + [Turn(prompt, [])] == [Turn(prompt, [])] && [] + [prompt] == [prompt];
  }

  lemma {:induction false} FirstTakenIs(sent: Run, prompt: Id, text: Text, promptId: Token, random: Id)
    requires prompt.Given? && random.Given? && prompt != random
    requires sent == Run(Live(Some(prompt), [Turn(prompt, [])], None, false, false, false, {}), [Waiting(Some(prompt), text, false)], None, None, {prompt}, Some(Behind([prompt], None)))
    ensures TurnShown(sent.live) && Enabled(sent, Taken(Some(promptId), random))
    ensures Apply(sent, Taken(Some(promptId), random))
         == Run(Live(Some(prompt), [Turn(prompt, [])], None, false, false, false, {}), [], Some(promptId), Some(LastPrompt(prompt, false)), {prompt, random}, Some(Behind([], None)))
  {
    assert AllWaited([Waiting(Some(prompt), text, false)][1..]) == [];
    assert {prompt} + {random} == {prompt, random} && [prompt][1..] == [];
  }

  /** A steer sent and taken at once, before Claude's first words, is a prompt of its own in history. */
  lemma {:induction false} SteeredAtOnce(prompt: Id, steer: Id, text: Text, promptId: Token, r: Id, t: Id)
    requires prompt.Given? && steer.Given? && r.Given? && t.Given? && prompt != r && steer !in {prompt, r} && t !in {prompt, r, steer}
    ensures var events := [Sent(prompt, text), Taken(Some(promptId), r)] + [Sent(steer, text)] + [Taken(None, t)];
            Execute(events).Some? && Execute(events).value.phase.None?
  {
    var run := Prompted(prompt, text, promptId, r);
    var events := [Sent(prompt, text), Taken(Some(promptId), r)];
    var sent := OneMore(events, run, Sent(steer, text));
    assert sent.queue == [Waiting(Some(steer), text, false)] && sent.phase == Some(Behind([], None));
    var taken := OneMore(events + [Sent(steer, text)], sent, Taken(None, t));
  }

  /** The session after a first prompt's words: `sofar` was sent or queued before them. */
  lemma {:induction false} Spoken(events: seq<Event>, run: Run, message: Id, random: Id) returns (next: Run)
    requires Execute(events) == Some(run) && Sound(run) && Fresh(run, random) && run.live.turn.Some? && run.live.lastBlock.None? && run.phase == Some(Behind([], None))
    ensures Execute(events + [Streamed(message, 0, None, random)]) == Some(next)
    ensures var block := Some(Block(BlockOf(message, 0), None));
            next.live.lastBlock == block && next.live.turn.Some? && next.live.pending == run.live.pending && next.phase == Some(Behind([], block))
    ensures next.queue == AllWaited(run.queue) && next.promptId == run.promptId && next.used == run.used + {random} && Sound(next)
  {
    hide Sound;
    var event := Streamed(message, 0, None, random);
    SoundShown(run);
    next := OneMore(events, run, event);
    WordsLive(run, event);
    EventSound(run, event);
    hide LiveStep, Execute, AllWaited, Shown;
  }

  lemma {:induction false} SoundShown(run: Run)
    requires Sound(run)
    ensures TurnShown(run.live)
  {}

  /** A task ends while Claude is idle, and a prompt is sent before Claude takes its notification: history goes on after the last block, live the prompt's turn runs. */
  lemma {:induction false} PromptBeforeNote(events: seq<Event>, run: Run, prompt: Id, note: Id, random: Id, text: Text, promptId: Token)
    requires Execute(events) == Some(run) && run.live.turn.None? && run.queue == [] && run.promptId != Some(promptId)
    requires run.phase.Some? && run.phase.value.Behind? && run.phase.value.begun == [] && run.phase.value.block.Some?
    requires Fresh(run, prompt) && Fresh(run, note) && Fresh(run, random) && prompt != note && prompt != random && note != random
    ensures var all := events + [NoteQueued(text)] + [Sent(prompt, text)] + [NoteTaken(note, Some(promptId), random)];
            Execute(all).Some? && Execute(all).value.phase.None?
  {
    hide Execute;
    var ended := OneMore(events, run, NoteQueued(text));
    assert ended.queue == [Waiting(None, text, false)];
    var sent := OneMore(events + [NoteQueued(text)], ended, Sent(prompt, text));
    assert [] + [prompt] == [prompt];
    assert sent.queue[0] == Waiting(None, text, false) && sent.phase == Some(Behind([prompt], run.phase.value.block)) && sent.live.turn == Some(prompt);
    var taken := OneMore(events + [NoteQueued(text)] + [Sent(prompt, text)], sent, NoteTaken(note, Some(promptId), random));
  }

  /** After a result Claude takes a notification and then a steer, before any words: history went on, live the running turn goes on. */
  lemma {:induction false} SteerAfterNote(events: seq<Event>, run: Run, steer: Id, note: Id, r: Id, t: Id, u: Id, text: Text, promptId: Token, words: Id)
    requires Execute(events) == Some(run) && TurnShown(run.live) && run.live.turn.Some? && run.live.lastBlock.Some? && !Answer(run.live.lastBlock)
    requires run.promptId != Some(promptId) && run.phase == Some(Behind([], run.live.lastBlock))
    requires run.queue == [Waiting(None, text, true), Waiting(Some(steer), text, true)]
    requires Fresh(run, note) && Fresh(run, r) && Fresh(run, t) && Fresh(run, u) && note != r && t !in {note, r} && u !in {note, r, t}
    ensures var all := events + [Finished] + [NoteTaken(note, Some(promptId), r)] + [Taken(None, t)] + [Streamed(words, 0, None, u)];
            Execute(all).Some? && Execute(all).value.phase.None?
  {
    hide Execute;
    var done := OneMore(events, run, Finished);
    var noted := OneMore(events + [Finished], done, NoteTaken(note, Some(promptId), r));
    assert noted.phase == Some(Ahead) && noted.queue == [Waiting(Some(steer), text, true)] && noted.live.turn.Some?;
    assert noted.live.lastBlock == run.live.lastBlock && noted.live.turns == run.live.turns;
    var b := events + [Finished] + [NoteTaken(note, Some(promptId), r)];
    var taken := OneMore(b, noted, Taken(None, t));
    assert taken.phase == Some(Ahead) && taken.prompt == Some(LastPrompt(steer, false)) && taken.live.lastBlock == run.live.lastBlock;
    assert taken.live.turn.Some? && TurnShown(taken.live);
    var spoken := OneMore(b + [Taken(None, t)], taken, Streamed(words, 0, None, u));
    hide LiveStep;
  }

  /** After a first prompt, its words and its result, Claude is idle. */
  lemma {:induction false} Answered(p: Id, r: Id, t: Id, text: Text, first: Token) returns (events: seq<Event>, run: Run)
    requires p.Given? && r.Given? && t.Given? && p != r && t !in {p, r}
    ensures events == [Sent(p, text), Taken(Some(first), r)] + [Streamed(p, 0, None, t)] + [Finished] + [Idle] && Execute(events) == Some(run)
    ensures run.live.turn.None? && run.queue == [] && run.promptId == Some(first) && run.used == {p, r, t}
    ensures run.phase == Some(Behind([], Some(Block(BlockOf(p, 0), None))))
  {
    hide Execute, Apply;
    var run0 := Prompted(p, text, first, r);
    PromptedSound(run0);
    var words := Spoken([Sent(p, text), Taken(Some(first), r)], run0, p, t);
    events := [Sent(p, text), Taken(Some(first), r)] + [Streamed(p, 0, None, t)];
    SoundShown(words);
    var done := OneMore(events, words, Finished);
    FinishedIdle(words);
    run := OneMore(events + [Finished], done, Idle);
    events := events + [Finished] + [Idle];
    assert {p, r} + {t} == {p, r, t} && AllWaited([]) == [];
  }

  lemma {:induction false} PromptedSound(run: Run)
    requires TurnShown(run.live) && run.live.lastBlock.None? && (forall id :: id in run.used ==> id.Given?) && run.live.pending == {} && run.queue == []
    ensures Sound(run)
  {}

  lemma {:induction false} FinishedIdle(run: Run)
    requires TurnShown(run.live) && run.live.turn.Some?
    ensures var done := Apply(run, Finished);
            && TurnShown(done.live) && Apply(done, Idle) == done.(live := CompleteTurn(done.live))
            && done == run.(live := run.live.(resultSeen := true, afterResult := true))
  {}

  /** Such a run: a task ends, a second prompt is sent, its notification is taken. */
  lemma {:induction false} PromptBeforeNoteRun(p: Id, r: Id, t: Id, q: Id, n: Id, u: Id, text: Text, first: Token, second: Token) returns (events: seq<Event>)
    requires p.Given? && r.Given? && t.Given? && q.Given? && n.Given? && u.Given? && first != second
    requires p != r && t !in {p, r} && q !in {p, r, t} && n !in {p, r, t, q} && u !in {p, r, t, q, n}
    ensures events == [Sent(p, text), Taken(Some(first), r)] + [Streamed(p, 0, None, t)] + [Finished] + [Idle]
                      + [NoteQueued(text)] + [Sent(q, text)] + [NoteTaken(n, Some(second), u)]
    ensures Execute(events).Some? && Execute(events).value.phase.None?
  {
    hide Execute;
    var before, run := Answered(p, r, t, text, first);
    PromptBeforeNote(before, run, q, n, u, text, second);
    events := before + [NoteQueued(text)] + [Sent(q, text)] + [NoteTaken(n, Some(second), u)];
  }

  lemma {:induction false} WhileWorking(run: Run, uuid: Id, text: Text)
    requires run.live.turn.Some? && TurnShown(run.live) && Fresh(run, uuid)
    ensures Apply(run, NoteQueued(text)) == run.(queue := run.queue + [Waiting(None, text, false)])
    ensures Apply(run, Sent(uuid, text)) == run.(live := run.live.(pending := run.live.pending + {uuid}), queue := run.queue + [Waiting(Some(uuid), text, false)],
                                                 used := run.used + {uuid})
  {}

  /** A task ends and a steer is sent while Claude works; its words follow. */
  lemma {:induction false} BothWait(p: Id, r: Id, t: Id, q: Id, text: Text, first: Token) returns (events: seq<Event>, run: Run)
    requires p.Given? && r.Given? && t.Given? && q.Given? && p != r && t !in {p, r} && q !in {p, r, t}
    ensures events == [Sent(p, text), Taken(Some(first), r)] + [NoteQueued(text)] + [Sent(q, text)] + [Streamed(p, 0, None, t)] && Execute(events) == Some(run)
    ensures TurnShown(run.live) && run.live.turn.Some? && run.promptId == Some(first) && run.used == {p, r, t, q}
    ensures run.live.lastBlock == Some(Block(BlockOf(p, 0), None)) && run.phase == Some(Behind([], run.live.lastBlock))
    ensures run.queue == [Waiting(None, text, true), Waiting(Some(q), text, true)]
  {
    hide Execute, Apply;
    var prompted := Prompted(p, text, first, r);
    events := [Sent(p, text), Taken(Some(first), r)];
    PromptedSound(prompted);
    EventSound(prompted, NoteQueued(text));
    var queued := OneMore(events, prompted, NoteQueued(text));
    WhileWorking(prompted, q, text);
    WhileWorking(queued, q, text);
    EventSound(queued, Sent(q, text));
    hide Sound;
    SoundShown(queued);
    assert queued.queue == [Waiting(None, text, false)] by { assert [] + [Waiting(None, text, false)] == [Waiting(None, text, false)]; }
    var sent := OneMore(events + [NoteQueued(text)], queued, Sent(q, text));
    events := events + [NoteQueued(text)] + [Sent(q, text)];
    run := Spoken(events, sent, p, t);
    SoundShown(run);
    events := events + [Streamed(p, 0, None, t)];
    assert AllWaited(sent.queue) == [Waiting(None, text, true), Waiting(Some(q), text, true)];
    assert {p, r} + {q} + {t} == {p, r, t, q};
  }

  /** And such a run: both are taken after Claude's result, before its next words. */
  lemma {:induction false} SteerAfterNoteRun(p: Id, r: Id, t: Id, q: Id, n: Id, u: Id, v: Id, w: Id, text: Text, first: Token, second: Token) returns (events: seq<Event>)
    requires p.Given? && r.Given? && t.Given? && q.Given? && n.Given? && u.Given? && v.Given? && w.Given? && first != second
    requires p != r && t !in {p, r} && q !in {p, r, t} && n !in {p, r, t, q} && u !in {p, r, t, q, n} && v !in {p, r, t, q, n, u} && w !in {p, r, t, q, n, u, v}
    ensures events == [Sent(p, text), Taken(Some(first), r)] + [NoteQueued(text)] + [Sent(q, text)] + [Streamed(p, 0, None, t)]
                      + [Finished] + [NoteTaken(n, Some(second), u)] + [Taken(None, v)] + [Streamed(t, 0, None, w)]
    ensures Execute(events).Some? && Execute(events).value.phase.None?
  {
    hide Execute;
    var before, run := BothWait(p, r, t, q, text, first);
    SteerAfterNote(before, run, q, n, u, v, w, text, second, t);
    events := before + [Finished] + [NoteTaken(n, Some(second), u)] + [Taken(None, v)] + [Streamed(t, 0, None, w)];
  }
}
