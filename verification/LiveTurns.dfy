/**
 * How the live stream is split into turns (src/claude/session.ts): which turn a prompt, a streamed block or a finished
 * task's notification opens, and which turn each block goes to. Sub-agents, messages from other agents and queued
 * submissions are not in these runs.
 */
module LiveTurns {
  import opened Basics

  /** A message of this length is an answer: work after it goes on in a new turn. */
  const ANSWER_CHARS := 800

  datatype Turn = Turn(id: Id, blocks: seq<Id>)

  /** Claude's last block since a turn began: its item id, and its text's length while it is text. */
  datatype Block = Block(id: Id, text: Option<nat>)

  datatype Live = Live(turn: Option<Id>, turns: seq<Turn>, lastBlock: Option<Block>, resultSeen: bool, afterResult: bool, notified: bool, pending: set<Id>)

  /** The transcript's last prompt, as it is read back: its uuid, and whether it is a finished task's notification. */
  datatype LastPrompt = LastPrompt(uuid: Id, notification: bool)

  predicate Answer(block: Option<Block>) {
    block.Some? && block.value.text.Some? && block.value.text.value >= ANSWER_CHARS
  }

  function OpenTurn(live: Live, id: Id): Live {
    live.(turn := Some(id), turns := live.turns + [Turn(id, [])], lastBlock := None, resultSeen := false, afterResult := false, notified := false)
  }

  function CompleteTurn(live: Live): Live { live.(turn := None, resultSeen := false) }

  /** With no id Claude went on by itself: after an answer, in the turn named after it, else in one with a random id. */
  function NextId(live: Live, random: Id): Id {
    if live.lastBlock.Some? then ContinuationOf(live.lastBlock.value.id) else random
  }

  function EnsureTurn(live: Live, id: Id): Live {
    if live.turn.Some? then live else OpenTurn(live, id).(pending := live.pending - {id})
  }

  function ContinueTurn(live: Live): Live
    requires live.lastBlock.Some?
  {
    EnsureTurn(CompleteTurn(live), ContinuationOf(live.lastBlock.value.id))
  }

  /** A prompt of the user's: a turn of its own, or a message into the running one. */
  function StartTurn(live: Live, uuid: Id): Live {
    if live.turn.Some? then live.(pending := live.pending + {uuid}) else OpenTurn(live, uuid)
  }

  /** A pushed message, or one Claude took by itself, reaches the model. */
  function CommandStarted(live: Live, uuid: Id, random: Id): Live {
    if uuid in live.pending then (if live.turn.None? then EnsureTurn(live, uuid) else live.(pending := live.pending - {uuid}))
    else if live.turn.None? && live.notified then EnsureTurn(live, NextId(live, random))
    else EnsureTurn(live, uuid)
  }

  /** The first of what Claude streams after a result: with a notification it took, it goes on after its answer. */
  function Continued(live: Live, prompt: Option<LastPrompt>): Live {
    var next := live.(afterResult := false);
    if prompt.Some? && next.turn.Some? && next.turn != Some(prompt.value.uuid) && prompt.value.notification && next.lastBlock.Some? then ContinueTurn(next)
    else next
  }

  function Streams(live: Live, prompt: Option<LastPrompt>, random: Id): Live {
    var next := if live.afterResult then Continued(live, prompt) else live;
    EnsureTurn(next, NextId(next, random))
  }

  function Shown(turns: seq<Turn>, block: Id): seq<Turn>
    requires turns != []
  {
    var last := turns[|turns| - 1];
    turns[..|turns| - 1] + [last.(blocks := last.blocks + [block])]
  }

  /** A block starts, in the turn that goes on after an answer if the last block was one. */
  function BlockStart(live: Live, id: Id, text: bool): Live
    requires live.turn.Some? && live.turns != []
  {
    var next := if Answer(live.lastBlock) then ContinueTurn(live) else live;
    next.(lastBlock := Some(Block(id, if text then Some(0) else None)), turns := Shown(next.turns, id))
  }

  function TextDelta(live: Live, length: nat): Live {
    match live.lastBlock
    case Some(Block(id, Some(n))) => live.(lastBlock := Some(Block(id, Some(n + length))))
    case _ => live
  }

  /** A block's text streams in, delta by delta. */
  function TextDeltas(live: Live, deltas: seq<nat>): Live {
    if deltas == [] then live else TextDelta(TextDeltas(live, deltas[..|deltas| - 1]), deltas[|deltas| - 1])
  }

  /** How long a text is whose parts are so long. */
  function Sum(lengths: seq<nat>): nat {
    if lengths == [] then 0 else lengths[0] + Sum(lengths[1..])
  }

  lemma {:induction false} SumLast(lengths: seq<nat>)
    requires lengths != []
    ensures Sum(lengths) == Sum(lengths[..|lengths| - 1]) + lengths[|lengths| - 1]
    decreases |lengths|
  {
    if |lengths| > 1 {
      SumLast(lengths[1..]);
      assert lengths[1..][..|lengths| - 2] == lengths[..|lengths| - 1][1..];
    }
  }

  /** While a text streams, the last block stays that text, as long as all of its deltas; nothing else changes. */
  lemma {:induction false} TextGrows(live: Live, deltas: seq<nat>)
    requires live.lastBlock.Some?
    ensures var Block(id, text) := live.lastBlock.value;
            TextDeltas(live, deltas) == live.(lastBlock := Some(Block(id, match text case Some(n) => Some(n + Sum(deltas)) case None => None)))
    decreases |deltas|
  {
    var Block(id, text) := live.lastBlock.value;
    if deltas == [] {
      assert live.lastBlock == Some(Block(id, text)) && (text.Some? ==> text == Some(text.value + 0));
    } else {
      TextGrows(live, deltas[..|deltas| - 1]);
      SumLast(deltas);
    }
  }

  /** After a text block the next block goes on in a turn of its own, named after the text, exactly when its deltas come to 800 characters. */
  lemma {:induction false} LongTextGoesOn(live: Live, id: Id, deltas: seq<nat>, next: Id, text: bool)
    requires live.turn.Some? && live.turns != []
    ensures var was := TextDeltas(BlockStart(live, id, true), deltas);
            && was.turn.Some? && was.turns != []
            && var now := BlockStart(was, next, text);
               if Sum(deltas) >= 800 then now.turn == Some(ContinuationOf(id)) && now.turns == was.turns + [Turn(ContinuationOf(id), [next])]
               else now.turn == was.turn && |now.turns| == |was.turns|
  {
    TextGrows(BlockStart(live, id, true), deltas);
    var was := TextDeltas(BlockStart(live, id, true), deltas);
    var turn := Turn(ContinuationOf(id), []);
    assert (was.turns + [turn])[..|was.turns|] == was.turns && [] + [next] == [next];
  }

  function ResultCame(live: Live): Live {
    if live.turn.Some? then live.(resultSeen := true, afterResult := true) else live
  }

  function WentIdle(live: Live): Live {
    if live.turn.Some? && live.resultSeen then CompleteTurn(live) else live
  }

  /** A task's end. */
  function TaskEnded(live: Live): Live { live.(notified := live.notified || live.turn.None?) }

  // ---- what opens, goes on and ends a turn ----

  /** With no turn running, the command Claude takes after a task's end goes on after its last block, once; without one it is a turn of its own. */
  lemma {:induction false} NoteGoesOn(live: Live, note: Id, random: Id)
    requires live.turn.None? && note !in live.pending
    ensures var next := CommandStarted(TaskEnded(live), note, random);
            next.turn == Some(match live.lastBlock case Some(block) => ContinuationOf(block.id) case None => random) && !next.notified
    ensures !live.notified ==> CommandStarted(live, note, random).turn == Some(note)
  {}

  /** A task's end while a turn runs changes nothing. */
  lemma {:induction false} NoteWhileRunning(live: Live)
    requires live.turn.Some?
    ensures TaskEnded(live) == live
  {}

  /** A turn ends as Claude goes idle after its result: not before it, nor for the result of an earlier turn. */
  lemma {:induction false} IdleAfterResult(live: Live, first: Id, second: Id)
    requires live.turn.None?
    ensures ResultCame(live) == live
    ensures var open := OpenTurn(live, first);
            && WentIdle(open).turn == Some(first) && WentIdle(ResultCame(open)).turn == None
            && WentIdle(OpenTurn(WentIdle(ResultCame(open)), second)).turn == Some(second)
  {}

  /**
   * The first words after a result go on in the turn named after the last block when the transcript's last prompt is a
   * notification that is not the turn's own; all other words stay in their turn.
   */
  lemma {:induction false} WordsAfterResult(live: Live, prompt: Option<LastPrompt>, later: Option<LastPrompt>, random: Id)
    requires live.turn.Some? && !live.afterResult
    ensures Streams(live, prompt, random) == live
    ensures var next := Streams(ResultCame(live), prompt, random);
            && next.turn == (if prompt.Some? && prompt.value.notification && Some(prompt.value.uuid) != live.turn && live.lastBlock.Some?
                             then Some(ContinuationOf(live.lastBlock.value.id)) else live.turn)
            && Streams(next, later, random).turn == next.turn
  {}

  /** A prompt is a turn of its own, or a message that waits while one runs: taken, it opens none. */
  lemma {:induction false} PromptsWait(live: Live, prompt: Id, random: Id)
    ensures live.turn.None? ==> StartTurn(live, prompt).turn == Some(prompt) && StartTurn(live, prompt).pending == live.pending
    ensures live.turn.Some? ==>
              && StartTurn(live, prompt).turn == live.turn && StartTurn(live, prompt).turns == live.turns
              && CommandStarted(StartTurn(live, prompt), prompt, random) == live.(pending := live.pending - {prompt})
    ensures live.turn.Some? ==> CommandStarted(CompleteTurn(StartTurn(live, prompt)), prompt, random).turn == Some(prompt)
  {
    assert live.pending + {prompt} - {prompt} == live.pending - {prompt};
  }
}
