/**
 * Runs of the user and Claude, seen live and written to the transcript (src/claude/session.ts 423-484, 779-843,
 * 1010-1080; src/claude/native/projector.ts 495-575). Any event may follow any other: a notification may wait while the
 * user sends a prompt, a session may go idle with its queue full, Claude may speak unasked.
 */
module Runs {
  import opened Basics
  import opened LiveTurns
  import opened Projector

  /**
   * The user sends a prompt; Claude takes the first of its queue, a prompt or a finished task's notification; streams a
   * block (a text in deltas of these lengths), reads a tool's result, gives its result or goes idle. `random` is the id of a turn that nothing names.
   */
  datatype Event =
    | Sent(uuid: Id, text: Text)
    | Taken(taken: Option<Token>, random: Id)
    | NoteQueued(text: Text)
    | NoteTaken(uuid: Id, note: Option<Token>, random: Id)
    | Streamed(message: Id, index: int, deltas: Option<seq<nat>>, random: Id)
    | ToolResult(uuid: Id, text: Text, result: Option<Token>)
    | Finished
    | Idle

  /** A prompt (its uuid) or a notification in Claude's queue; it waits once more was written meanwhile. */
  datatype Waiting = Waiting(prompt: Option<Id>, text: Text, waited: bool)

  /**
   * How far apart the two are, told by the events alone. `Ahead`: history began the turn that goes on after Claude's last
   * block, and live it has not begun. `Behind`: live the turns `begun` have begun, which history has not; `block` is the
   * last block since history's last turn began. Behind by none, the two are even.
   */
  datatype Phase = Ahead | Behind(begun: seq<Id>, block: Option<Block>)

  /** The session live, Claude's queue, what the transcript told last; no phase once the two have parted. */
  datatype Run = Run(live: Live, queue: seq<Waiting>, promptId: Option<Token>, prompt: Option<LastPrompt>, used: set<Id>, phase: Option<Phase>)

  function Begin(): Run {
    Run(Live(None, [], None, false, false, false, {}), [], None, None, {}, Some(Behind([], None)))
  }

  predicate Fresh(run: Run, uuid: Id) { uuid.Given? && uuid !in run.used }

  /** Ids are new; only the first of the queue is taken. */
  predicate Enabled(run: Run, event: Event) {
    match event
    case Sent(uuid, _) => Fresh(run, uuid)
    case Taken(_, random) => run.queue != [] && run.queue[0].prompt.Some? && Fresh(run, random)
    case NoteQueued(_) => true
    case NoteTaken(uuid, _, random) => run.queue != [] && run.queue[0].prompt.None? && Fresh(run, uuid) && Fresh(run, random) && uuid != random
    case Streamed(_, _, _, random) => Fresh(run, random)
    case ToolResult(uuid, _, _) => Fresh(run, uuid)
    case Finished => true
    case Idle => true
  }

  predicate TurnShown(live: Live) { live.turn.Some? ==> live.turns != [] }

  // ---- what is seen live ----

  function LiveStep(run: Run, event: Event): Live
    requires Enabled(run, event) && TurnShown(run.live)
  {
    var live := run.live;
    match event
    case Sent(uuid, _) => StartTurn(live, uuid)
    case Taken(_, random) => CommandStarted(live, run.queue[0].prompt.value, random)
    case NoteQueued(_) => TaskEnded(live)
    case NoteTaken(uuid, _, random) => CommandStarted(live, uuid, random)
    case Streamed(message, index, deltas, random) =>
      TextDeltas(BlockStart(Streams(live, run.prompt, random), BlockOf(message, index), deltas.Some?), deltas.GetOr([]))
    case ToolResult(_, _, _) => live
    case Finished => ResultCame(live)
    case Idle => WentIdle(live)
  }

  // ---- what is written ----

  /** A streamed text's length; none of another block. */
  function Length(deltas: Option<seq<nat>>): Option<nat> {
    match deltas case Some(lengths) => Some(Sum(lengths)) case None => None
  }

  function Written(run: Run, event: Event): seq<Record>
    requires Enabled(run, event)
  {
    match event
    case Sent(_, text) => [Enqueue(text)]
    case Taken(promptId, _) => [Dequeue, UserRecord(run.queue[0].prompt.value, run.queue[0].text, NoOrigin, promptId, true)]
    case NoteQueued(text) => [Enqueue(text)]
    case NoteTaken(uuid, promptId, _) => [Dequeue, UserRecord(uuid, run.queue[0].text, TaskNotification, promptId, false)]
    case Streamed(message, index, deltas, _) => [AssistantRecord(message, index, Length(deltas))]
    case ToolResult(uuid, text, promptId) => [UserRecord(uuid, text, NoOrigin, promptId, false)]
    case Finished => []
    case Idle => []
  }

  // ---- when the two part ----

  /** Claude's next words live begin the turn after its last block: that was an answer, or a notification came since the result. */
  predicate WordsGoOn(run: Run) {
    && run.live.lastBlock.Some?
    && (Answer(run.live.lastBlock)
        || (run.live.afterResult && run.prompt.Some? && run.prompt.value.notification && run.live.turn != Some(run.prompt.value.uuid)))
  }

  /** A prompt is taken. Live a turn begins with it if none runs; in history if it had not waited. */
  function AfterTaken(run: Run): Option<Phase>
    requires run.phase.Some? && run.queue != [] && run.queue[0].prompt.Some?
  {
    var prompt, waited, turnless := run.queue[0].prompt.value, run.queue[0].waited, run.live.turn.None?;
    match run.phase.value
    case Ahead => if turnless || !waited then None else run.phase
    case Behind(begun, block) =>
      if turnless then (if begun == [] && !waited then Some(Behind([], None)) else None)
      else if waited then (if prompt in begun then None else run.phase)
      else if begun != [] && begun[0] == prompt then Some(Behind(begun[1..], None)) else None
  }

  /** A notification is taken. Live a turn begins with it if none runs; in history if it is a new prompt's and a block came before. */
  function AfterNote(run: Run, note: Option<Token>): Option<Phase>
    requires run.phase.Some?
  {
    var live, turnless := run.live, run.live.turn.None?;
    match run.phase.value
    case Ahead => if !turnless then run.phase else if live.notified then Some(Behind([], None)) else None
    case Behind(begun, block) =>
      var goesOn := note != run.promptId && block.Some?;
      if turnless then
        if !live.notified || live.lastBlock.None? then None
        else Some(if goesOn then Behind([], None) else Behind([ContinuationOf(live.lastBlock.value.id)], block))
      else if !goesOn then run.phase
      else if begun == [] then Some(Ahead)
      else if begun[0] == ContinuationOf(block.value.id) then Some(Behind(begun[1..], None)) else None
  }

  /** Claude streams a block. */
  function AfterWords(run: Run, words: Block): Option<Phase>
    requires run.phase.Some?
  {
    var turnless := run.live.turn.None?;
    match run.phase.value
    case Ahead => if turnless || WordsGoOn(run) then Some(Behind([], Some(words))) else None
    case Behind(begun, block) =>
      if begun == [] then (if Answer(block) == (turnless || WordsGoOn(run)) then Some(Behind([], Some(words))) else None)
      else if !turnless && Answer(block) && begun == [ContinuationOf(block.value.id)] then Some(Behind([], Some(words))) else None
  }

  /** The phase after an event; none when live and history part with it. */
  function AfterEvent(run: Run, event: Event): Option<Phase>
    requires Enabled(run, event) && run.phase.Some?
  {
    match event
    case Sent(uuid, _) =>
      if run.live.turn.Some? then run.phase
      else (match run.phase.value
            case Ahead => None
            case Behind(begun, block) => Some(Behind(begun + [uuid], block)))
    case Taken(_, _) => AfterTaken(run)
    case NoteTaken(_, note, _) => AfterNote(run, note)
    case Streamed(message, index, deltas, _) => AfterWords(run, Block(BlockOf(message, index), Length(deltas)))
    case _ => run.phase
  }

  // ---- runs ----

  function AllWaited(queue: seq<Waiting>): seq<Waiting> {
    seq(|queue|, i requires 0 <= i < |queue| => queue[i].(waited := true))
  }

  function Later(was: Option<Token>, promptId: Option<Token>): Option<Token> { if promptId.Some? then promptId else was }

  function Apply(run: Run, event: Event): Run
    requires Enabled(run, event) && TurnShown(run.live)
  {
    var next := run.(live := LiveStep(run, event), phase := if run.phase.Some? then AfterEvent(run, event) else None);
    match event
    case Sent(uuid, text) => next.(queue := run.queue + [Waiting(Some(uuid), text, false)], used := run.used + {uuid})
    case Taken(promptId, random) =>
      next.(queue := if run.queue[0].waited then run.queue[1..] else AllWaited(run.queue[1..]), promptId := Later(run.promptId, promptId),
            prompt := Some(LastPrompt(run.queue[0].prompt.value, false)), used := run.used + {random})
    case NoteQueued(text) => next.(queue := run.queue + [Waiting(None, text, false)])
    case NoteTaken(uuid, promptId, random) =>
      next.(queue := run.queue[1..], promptId := Later(run.promptId, promptId), prompt := Some(LastPrompt(uuid, true)), used := run.used + {uuid, random})
    case Streamed(_, _, _, random) => next.(queue := AllWaited(run.queue), used := run.used + {random})
    case ToolResult(uuid, _, promptId) =>
      next.(queue := AllWaited(run.queue), promptId := Later(run.promptId, promptId), used := run.used + {uuid})
    case Finished => next
    case Idle => next
  }

  /** The state after a run of events, each allowed where it happens; none when one is not. */
  function Execute(events: seq<Event>): Option<Run> {
    if events == [] then Some(Begin())
    else match Execute(events[..|events| - 1])
         case None => None
         case Some(run) =>
           var event := events[|events| - 1];
           if Enabled(run, event) && TurnShown(run.live) then Some(Apply(run, event)) else None
  }

  /** The transcript of a run. */
  function Transcript(events: seq<Event>): seq<Record>
    requires Execute(events).Some?
  {
    if events == [] then []
    else Transcript(events[..|events| - 1]) + Written(Execute(events[..|events| - 1]).value, events[|events| - 1])
  }
}
