/**
 * A live Claude session's turn machine (src/claude/session.ts): each handler of a message, and what the user does, as a
 * method that changes the session's fields and tells its clients. Over every run of them turns start and complete in
 * turn, the status told last is active exactly while a turn is open, and every tool item is accounted for. Where no
 * sub-agents run and nothing is queued, the turns are those of `LiveTurns`.
 */
module Session {
  import opened Basics
  import opened LiveTurns
  import opened TurnTrace

  datatype ActiveTurn = ActiveTurn(id: Id, resultSeen: bool, interrupted: bool, failed: bool, waiting: bool)

  datatype State = Idle | Busy

  /** Another agent's message in the transcript, a finished task's notification, or a prompt of the user's. */
  datatype PromptKind = FromPeer | Notification | FromUser
  datatype Told = Told(uuid: Id, kind: PromptKind)

  function StatusOf(turn: ActiveTurn): Status {
    if turn.interrupted then Interrupted else if turn.failed then Failed else Completed
  }

  /** What came for a turn while it was open and tells how it ends: Claude's result, a message with an error, its process's failure, or Stop. */
  datatype Cause = Result(aborted: bool, failed: bool) | MessageFailed | ProcessFailed | Stopped

  /** A turn with what came for it. */
  datatype Course = Course(id: Id, causes: seq<Cause>)

  predicate Interrupts(cause: Cause) { cause.Stopped? || (cause.Result? && cause.aborted) }

  predicate Fails(cause: Cause) { cause.MessageFailed? || cause.ProcessFailed? || (cause.Result? && cause.failed && !cause.aborted) }

  /** Interrupted when anything interrupted it; else failed when anything failed; else completed. */
  ghost predicate Tells(status: Status, causes: seq<Cause>) {
    match status
    case Interrupted => exists i :: 0 <= i < |causes| && Interrupts(causes[i])
    case Failed => (forall i :: 0 <= i < |causes| ==> !Interrupts(causes[i])) && exists i :: 0 <= i < |causes| && Fails(causes[i])
    case Completed => forall i :: 0 <= i < |causes| ==> !Interrupts(causes[i]) && !Fails(causes[i])
  }

  function Completions(trace: seq<Notification>): seq<Notification> {
    if trace == [] then []
    else Completions(trace[..|trace| - 1]) + if trace[|trace| - 1].TurnCompleted? then [trace[|trace| - 1]] else []
  }

  /** The completions told are those of the turns that ended, each with the status that what came for it tells. */
  ghost predicate EndsTold(trace: seq<Notification>, ended: seq<Course>) {
    && |Completions(trace)| == |ended|
    && forall k :: 0 <= k < |ended| ==>
         Completions(trace)[k].TurnCompleted? && Completions(trace)[k].id == ended[k].id && Tells(Completions(trace)[k].status, ended[k].causes)
  }

  /** The open turn's flags are what came for it. */
  ghost predicate FlagsTold(turn: Option<ActiveTurn>, causes: seq<Cause>) {
    turn.Some? ==>
      && (turn.value.interrupted <==> exists i :: 0 <= i < |causes| && Interrupts(causes[i]))
      && (!turn.value.interrupted ==> (turn.value.failed <==> exists i :: 0 <= i < |causes| && Fails(causes[i])))
  }

  lemma {:induction false} CompletionsOnce(trace: seq<Notification>, event: Notification)
    ensures Completions(trace + [event]) == Completions(trace) + if event.TurnCompleted? then [event] else []
  {
    assert (trace + [event])[..|trace|] == trace;
  }

  lemma {:induction false} EndsStay(trace: seq<Notification>, event: Notification, ended: seq<Course>)
    requires EndsTold(trace, ended) && !event.TurnCompleted?
    ensures EndsTold(trace + [event], ended)
  {
    CompletionsOnce(trace, event);
    hide Completions, Tells;
  }

  lemma {:induction false} EndsOnce(trace: seq<Notification>, event: Notification, ended: seq<Course>, causes: seq<Cause>)
    requires EndsTold(trace, ended) && event.TurnCompleted? && Tells(event.status, causes)
    ensures EndsTold(trace + [event], ended + [Course(event.id, causes)])
  {
    CompletionsOnce(trace, event);
    hide Completions, Tells;
  }

  /** What changes of a turn but its flags changes nothing of this. */
  lemma {:induction false} FlagsStay(turn: ActiveTurn, now: ActiveTurn, causes: seq<Cause>)
    requires FlagsTold(Some(turn), causes) && now.interrupted == turn.interrupted && now.failed == turn.failed
    ensures FlagsTold(Some(now), causes)
  {}

  lemma {:induction false} StatusTells(turn: ActiveTurn, causes: seq<Cause>)
    requires FlagsTold(Some(turn), causes)
    ensures Tells(StatusOf(turn), causes)
  {}

  lemma {:induction false} CauseTold(turn: ActiveTurn, causes: seq<Cause>, cause: Cause, now: ActiveTurn)
    requires FlagsTold(Some(turn), causes)
    requires now.interrupted == (turn.interrupted || Interrupts(cause)) && (!now.interrupted ==> now.failed == (turn.failed || Fails(cause)))
    ensures FlagsTold(Some(now), causes + [cause])
  {
    var more := causes + [cause];
    assert more[|causes|] == cause && forall i :: 0 <= i < |causes| ==> more[i] == causes[i];
  }

  lemma {:induction false} NoFlags(causes: seq<Cause>)
    ensures FlagsTold(None, causes)
  {}

  lemma {:induction false} NothingCame(turn: ActiveTurn)
    requires !turn.interrupted && !turn.failed
    ensures FlagsTold(Some(turn), [])
  {}

  /** The items that end with their turn. */
  function Ends(tools: seq<Tool>, turn: Id): seq<Notification> {
    if tools == [] then [] else (if tools[0].bearing then [ToolCompleted(tools[0].id, turn)] else []) + Ends(tools[1..], turn)
  }

  /** Those with a status that run complete, each in the turn; nothing else is told. */
  lemma {:induction false} EndsAre(tools: seq<Tool>, turn: Id, event: Notification)
    ensures event in Ends(tools, turn) <==> exists i :: 0 <= i < |tools| && tools[i].bearing && event == ToolCompleted(tools[i].id, turn)
    decreases |tools|
  {
    if tools != [] {
      EndsAre(tools[1..], turn, event);
      if i :| 0 <= i < |tools| && tools[i].bearing && event == ToolCompleted(tools[i].id, turn) {
        assert i == 0 || tools[1..][i - 1] == tools[i];
      }
    }
  }

  class ClaudeSession {
    var turn: Option<ActiveTurn>
    var state: State
    var sdk: bool
    var tools: seq<Tool>
    var background: map<Token, Running>
    var stops: map<Id, Tool>
    var tasks: seq<Token>
    var agents: set<Token>
    var queued: seq<Id>
    /** A queued submission being started. */
    var launched: Option<Id>
    var pending: set<Id>
    var injections: set<Id>
    var afterResult: bool
    var notified: bool
    var lastBlock: Option<Block>
    var trace: seq<Notification>
    ghost var tally: Tally
    /** What came for the open turn, and for each that completed. */
    ghost var causes: seq<Cause>
    ghost var ended: seq<Course>

    function OpenId(): Option<Id>
      reads this`turn
    {
      match turn case Some(active) => Some(active.id) case None => None
    }

    ghost predicate Fine()
      reads this`turn, this`tools, this`background, this`stops, this`trace, this`tally, this`causes, this`ended
    {
      && EndsTold(trace, ended) && FlagsTold(turn, causes)
      && tally == TallyOf(trace) && tally.fine && tally.open == OpenId()
      && Accounted(tally, tools, background, stops)
      && (turn.Some? ==> tally.turns != [])
    }

    /** Between the handlers of messages. */
    ghost predicate Valid()
      reads this
    {
      Fine() && (tally.active <==> turn.Some?) && (turn.None? ==> tools == []) && (turn.Some? && turn.value.waiting ==> turn.value.resultSeen)
    }

    /** A turn completed, and the work goes on in the next. */
    ghost predicate Between()
      reads this
    {
      Fine() && turn.None? && tally.active
    }

    /** The session as its split into turns sees it. */
    ghost function Split(): Live
      reads this
    {
      Live(OpenId(), tally.turns, lastBlock, turn.Some? && turn.value.resultSeen, afterResult, notified, pending)
    }

    ghost predicate Calm()
      reads this
    {
      agents == {} && queued == [] && injections == {} && (turn.Some? ==> !turn.value.waiting)
    }

    constructor ()
      ensures Valid() && turn.None? && trace == [] && Calm() && state == Idle && !sdk && tasks == [] && launched.None?
      ensures Split() == Live(None, [], None, false, false, false, {})
    {
      turn, state, sdk, tools, background, stops, tasks, agents := None, Idle, false, [], map[], map[], [], {};
      queued, launched, pending, injections, afterResult, notified, lastBlock, trace := [], None, {}, {}, false, false, None, [];
      tally := TallyOf([]);
      causes, ended := [], [];
    }

    lemma {:induction false} ValidFlags()
      requires Valid() && turn.Some?
      ensures FlagsTold(Some(turn.value), causes)
    {
      hide EndsTold, FlagsTold, TallyOf, Accounted;
    }

    /** The turns so far, the open one last, each with what came for it. */
    ghost function Courses(): seq<Course>
      reads this`turn, this`causes, this`ended
    {
      ended + match turn case Some(active) => [Course(active.id, causes)] case None => []
    }

    /** The turn that was open has had these causes, the earlier ones are as they were, and to those opened since nothing came yet. */
    ghost predicate Had(before: seq<Course>, was: Option<ActiveTurn>, came: seq<Cause>)
      reads this`turn, this`causes, this`ended
    {
      && before <= ended
      && (was.Some? ==> |Courses()| > |before| && Courses()[|before|] == Course(was.value.id, came))
      && forall k :: |before| + (if was.Some? then 1 else 0) <= k < |Courses()| ==> Courses()[k].causes == []
    }

    method Emit(event: Notification)
      requires tally == TallyOf(trace)
      modifies this`trace, this`tally
      ensures trace == old(trace) + [event] && tally == Note(old(tally), event) == TallyOf(trace)
      ensures EndsTold(old(trace), ended) && !event.TurnCompleted? ==> EndsTold(trace, ended)
    {
      OneMore(trace, event);
      if EndsTold(trace, ended) && !event.TurnCompleted? { EndsStay(trace, event, ended); }
      hide TallyOf, Note, EndsTold, Tells;
      trace := trace + [event];
      tally := Note(tally, event);
    }

    // ---- turn bookkeeping ----

    /** The open turn's fields as they are now, with what came for it. */
    method Mark(now: ActiveTurn, ghost came: seq<Cause>)
      requires Valid() && turn.Some? && now.id == turn.value.id && (now.waiting ==> now.resultSeen) && FlagsTold(Some(now), causes + came)
      modifies this`turn, this`causes
      ensures Valid() && turn == Some(now) && causes == old(causes) + came && Split() == old(Split()).(resultSeen := now.resultSeen)
    {
      hide EndsTold, FlagsTold, TallyOf, Accounted;
      turn := Some(now);
      causes := causes + came;
    }

    method OpenTurn(id: Id)
      requires (Valid() && turn.None?) || Between()
      modifies this`turn, this`causes, this`ended, this`afterResult, this`notified, this`lastBlock, this`trace, this`tally
      ensures Valid() && turn == Some(ActiveTurn(id, false, false, false, false))
      ensures trace == old(trace) + [TurnStarted(id), StatusChanged(true)]
      ensures Split() == LiveTurns.OpenTurn(old(Split()), id)
      ensures causes == [] && ended == old(ended)
    {
      hide EndsTold, FlagsTold, TallyOf, Accounted;
      NothingCame(ActiveTurn(id, false, false, false, false));
      turn := Some(ActiveTurn(id, false, false, false, false));
      causes := [];
      afterResult, notified, lastBlock := false, false, None;
      OtherNotes(tally, TurnStarted(id), tools, background, stops);
      Emit(TurnStarted(id));
      OtherNotes(tally, StatusChanged(true), tools, background, stops);
      Emit(StatusChanged(true));
    }

    method EnsureTurn(id: Id)
      requires Valid() || Between()
      modifies this`turn, this`causes, this`ended, this`afterResult, this`notified, this`lastBlock, this`trace, this`tally, this`pending
      ensures Valid() && turn.Some?
      ensures old(turn).Some? ==> turn == old(turn) && trace == old(trace)
      ensures old(turn).None? ==> turn == Some(ActiveTurn(id, false, false, false, false)) && trace == old(trace) + [TurnStarted(id), StatusChanged(true)]
      ensures Split() == LiveTurns.EnsureTurn(old(Split()), id)
      ensures ended == old(ended) && causes == if old(turn).Some? then old(causes) else []
    {
      hide EndsTold, FlagsTold, TallyOf, Accounted, Fine;
      if turn.Some? { return; }
      pending := pending - {id};
      OpenTurn(id);
    }

    /** The tools that run still end with the turn. */
    method EndTools()
      requires Fine() && turn.Some?
      modifies this`tools, this`trace, this`tally
      ensures Fine() && tools == [] && tally.active == old(tally.active) && tally.turns == old(tally.turns)
      ensures trace == old(trace) + Ends(old(tools), turn.value.id)
    {
      hide EndsTold, FlagsTold, TallyOf, Accounted;
      while |tools| > 0
        invariant Fine() && tally.active == old(tally.active) && tally.turns == old(tally.turns)
        invariant old(trace) + Ends(old(tools), turn.value.id) == trace + Ends(tools, turn.value.id)
        decreases |tools|
      {
        var tool := tools[0];
        FirstOut(tools);
        if tool.bearing {
          Completes(tally, tools, background, stops, 0, turn.value.id);
          OpenStill(tally, tools, background, stops, 0);
          Emit(ToolCompleted(tool.id, turn.value.id));
        } else {
          Drops(tally, tools, background, stops, 0);
        }
        tools := tools[1..];
      }
    }

    /** The completion of the turn is told, with its status. */
    method TellCompleted()
      requires Fine() && turn.Some? && tally.active
      modifies this`turn, this`ended, this`trace, this`tally
      ensures Between() && trace == old(trace) + [TurnCompleted(old(turn).value.id, StatusOf(old(turn).value))]
      ensures ended == old(ended) + [Course(old(turn).value.id, causes)] && tally.turns == old(tally).turns
    {
      hide EndsTold, FlagsTold, TallyOf, Accounted, Ends, Tells, StatusOf;
      var was := turn.value;
      ghost var told := trace;
      StatusTells(was, causes);
      turn := None;
      OtherNotes(tally, TurnCompleted(was.id, StatusOf(was)), tools, background, stops);
      Emit(TurnCompleted(was.id, StatusOf(was)));
      EndsOnce(told, TurnCompleted(was.id, StatusOf(was)), ended, causes);
      ended := ended + [Course(was.id, causes)];
      NoFlags(causes);
    }

    /**
     * Completes the turn. When the work goes on in the next turn, nothing else; else the tools that run end with it, and
     * the thread is idle, unless sub-agents work on, for which the next turn waits at once.
     */
    method CompleteTurn(continued: bool, random: Id)
      requires Valid() && turn.Some?
      modifies this`turn, this`causes, this`ended, this`tools, this`queued, this`launched, this`afterResult, this`notified, this`lastBlock, this`trace, this`tally
      ensures continued ==> Between() && tools == old(tools) && queued == old(queued) && launched == old(launched)
      ensures !continued ==> Valid() && tools == []
      ensures var was := old(turn).value;
              trace == old(trace) + (if continued then [] else Ends(old(tools), was.id)) + [TurnCompleted(was.id, StatusOf(was))]
                + (if continued then []
                   else if old(queued) == [] && !was.interrupted && agents != {} then [TurnStarted(NextId(old(Split()), random)), StatusChanged(true)]
                   else [StatusChanged(false)])
      ensures !continued && old(queued) != [] ==> launched == Some(old(queued)[0]) && queued == old(queued)[1..] && turn.None?
      ensures !continued && old(queued) == [] ==>
                launched == old(launched) && queued == [] && (turn.Some? <==> !old(turn).value.interrupted && agents != {})
                && (turn.Some? ==> turn == Some(ActiveTurn(NextId(old(Split()), random), true, false, false, true)))
      ensures continued || (agents == {} && old(queued) == []) ==> Split() == LiveTurns.CompleteTurn(old(Split()))
      ensures ended == old(ended) + [Course(old(turn).value.id, old(causes))] && (turn.Some? ==> causes == [])
    {
      hide EndsTold, FlagsTold, TallyOf, Accounted, Ends, Fine;
      var was := turn.value;
      if !continued { EndTools(); }
      TellCompleted();
      if !continued { AfterCompletion(was.interrupted, random); }
    }

    /** What follows a turn that is not continued: the next submission, the wait for the sub-agents, or idleness. */
    method AfterCompletion(interrupted: bool, random: Id)
      requires Between() && tools == []
      modifies this`turn, this`causes, this`ended, this`queued, this`launched, this`afterResult, this`notified, this`lastBlock, this`trace, this`tally
      ensures Valid()
      ensures trace == old(trace) + (if old(queued) == [] && !interrupted && agents != {} then [TurnStarted(NextId(old(Split()), random)), StatusChanged(true)]
                                     else [StatusChanged(false)])
      ensures old(queued) != [] ==> launched == Some(old(queued)[0]) && queued == old(queued)[1..] && turn.None?
      ensures old(queued) == [] ==> launched == old(launched) && queued == [] && (turn.Some? <==> !interrupted && agents != {})
      ensures turn.Some? ==> turn == Some(ActiveTurn(NextId(old(Split()), random), true, false, false, true))
      ensures agents == {} && old(queued) == [] ==> Split() == old(Split())
      ensures ended == old(ended) && (turn.Some? ==> causes == [])
    {
      hide EndsTold, FlagsTold, TallyOf, Accounted;
      var next := if |queued| > 0 then Some(queued[0]) else None;
      if |queued| > 0 { queued := queued[1..]; }
      var waiting := next.None? && !interrupted && |agents| > 0;
      if !waiting {
        OtherNotes(tally, StatusChanged(false), tools, background, stops);
        Emit(StatusChanged(false));
      } else {
        WaitForAgents(random);
      }
      if next.Some? { launched := next; }
    }

    /** The turn that waits for the sub-agents: the one Claude goes on in as one of them ends. */
    method WaitForAgents(random: Id)
      requires Between() && tools == []
      modifies this`turn, this`causes, this`ended, this`afterResult, this`notified, this`lastBlock, this`trace, this`tally
      ensures Valid() && turn == Some(ActiveTurn(NextId(old(Split()), random), true, false, false, true)) && afterResult
      ensures trace == old(trace) + [TurnStarted(turn.value.id), StatusChanged(true)]
      ensures causes == [] && ended == old(ended)
    {
      hide EndsTold, FlagsTold, TallyOf, Accounted;
      var id := if lastBlock.Some? then ContinuationOf(lastBlock.value.id) else random;
      OpenTurn(id);
      FlagsStay(turn.value, turn.value.(resultSeen := true, waiting := true), causes);
      turn := Some(turn.value.(resultSeen := true, waiting := true));
      afterResult := true;
    }

    /** Claude goes on after an answer with no prompt. */
    method ContinueTurn(random: Id)
      requires Valid() && turn.Some? && lastBlock.Some?
      modifies this`turn, this`causes, this`ended, this`tools, this`queued, this`launched, this`afterResult, this`notified, this`lastBlock, this`pending, this`trace, this`tally
      ensures Valid() && tools == old(tools) && queued == old(queued) && launched == old(launched)
      ensures turn == Some(ActiveTurn(ContinuationOf(old(lastBlock).value.id), false, false, false, false))
      ensures trace == old(trace) + [TurnCompleted(old(turn).value.id, StatusOf(old(turn).value)), TurnStarted(turn.value.id), StatusChanged(true)]
      ensures Split() == LiveTurns.ContinueTurn(old(Split()))
      ensures Had(old(ended), old(turn), old(causes))
    {
      hide EndsTold, FlagsTold, TallyOf, Accounted, Fine;
      var id := ContinuationOf(lastBlock.value.id);
      CompleteTurn(true, random);
      EnsureTurn(id);
    }

    /** A turn just completed: its items ended with it, and a turn waits for the sub-agents, or the thread is idle. */
    ghost predicate JustEnded(was: ActiveTurn, running: seq<Tool>, next: seq<Id>, before: seq<Notification>)
      reads this
    {
      && tools == [] && (turn.Some? <==> next == [] && !was.interrupted && agents != {})
      && trace == before + Ends(running, was.id) + [TurnCompleted(was.id, StatusOf(was))]
           + if turn.Some? then [TurnStarted(turn.value.id), StatusChanged(true)] else [StatusChanged(false)]
    }

    method MaybeComplete(random: Id)
      requires Valid()
      modifies this`turn, this`causes, this`ended, this`tools, this`queued, this`launched, this`afterResult, this`notified, this`lastBlock, this`trace, this`tally
      ensures Valid()
      ensures var completes := old(turn).Some? && old(turn).value.resultSeen && (if agents != {} then !old(turn).value.waiting else state == Idle);
              (!completes ==> turn == old(turn) && trace == old(trace) && tools == old(tools) && queued == old(queued) && launched == old(launched) && Split() == old(Split()))
              && (completes ==> JustEnded(old(turn).value, old(tools), old(queued), old(trace)))
      ensures old(Calm()) && turn.None? ==> Calm()
      ensures old(Calm()) && state == Idle ==> Split() == LiveTurns.WentIdle(old(Split()))
      ensures old(Calm()) && state != Idle ==> Split() == old(Split())
      ensures Had(old(ended), old(turn), old(causes))
    {
      hide EndsTold, FlagsTold, TallyOf, Accounted, Ends, Fine;
      if turn.None? || !turn.value.resultSeen { return; }
      if (if |agents| > 0 then turn.value.waiting else state != Idle) { return; }
      CompleteTurn(false, random);
    }

    // ---- what the user does ----

    /** A prompt: a turn of its own, also while a turn only waits for sub-agents; else a message into the running turn. */
    method StartTurn(uuid: Id, random: Id)
      requires Valid()
      modifies this`turn, this`causes, this`ended, this`tools, this`queued, this`launched, this`afterResult, this`notified, this`lastBlock, this`pending, this`sdk, this`trace, this`tally
      ensures Valid() && turn.Some? && sdk && tools == old(tools) && queued == old(queued) && launched == old(launched)
      ensures old(turn).None? || old(turn).value.waiting ==> turn == Some(ActiveTurn(uuid, false, false, false, false)) && pending == old(pending)
      ensures old(turn).None? || old(turn).value.waiting ==>
                trace == old(trace) + (if old(turn).Some? then [TurnCompleted(old(turn).value.id, StatusOf(old(turn).value))] else []) + [TurnStarted(uuid), StatusChanged(true)]
      ensures old(turn).Some? && !old(turn).value.waiting ==> turn == old(turn) && trace == old(trace) && pending == old(pending) + {uuid}
      ensures old(Calm()) ==> Calm() && Split() == LiveTurns.StartTurn(old(Split()), uuid)
      ensures Had(old(ended), old(turn), old(causes))
    {
      hide EndsTold, FlagsTold, TallyOf, Accounted, Fine;
      if turn.Some? && turn.value.waiting { CompleteTurn(true, random); }
      sdk := true;
      if turn.Some? {
        pending := pending + {uuid};
        return;
      }
      OpenTurn(uuid);
    }

    /** The submission that was queued starts. */
    method StartLaunched(random: Id)
      requires Valid() && launched.Some?
      modifies this`turn, this`causes, this`ended, this`tools, this`queued, this`launched, this`afterResult, this`notified, this`lastBlock, this`pending, this`sdk, this`trace, this`tally
      ensures Valid() && turn.Some? && launched.None?
      ensures old(turn).None? ==> turn.value.id == old(launched).value
      ensures Had(old(ended), old(turn), old(causes))
    {
      var uuid := launched.value;
      launched := None;
      StartTurn(uuid, random);
    }

    method Steer(uuid: Id) returns (taken: bool)
      requires Valid()
      modifies this`pending, this`sdk
      ensures Valid() && (taken <==> turn.Some? && !turn.value.waiting) && sdk == (old(sdk) || taken)
      ensures pending == if taken then old(pending) + {uuid} else old(pending)
    {
      if turn.None? || turn.value.waiting { return false; }
      pending, sdk := pending + {uuid}, true;
      taken := true;
    }

    /** Stop: Claude's tasks and sub-agents too. Waiting or with Claude idle, the turn ends at once. */
    method Interrupt(cancelled: set<Id>, random: Id)
      requires Valid()
      modifies this
      ensures Valid()
      ensures old(turn).None? ==> trace == old(trace)
      ensures Had(old(ended), old(turn), old(causes) + [Stopped])
      ensures old(turn).Some? && old(sdk) ==>
                && tasks == [] && agents == {} && pending == old(pending) - cancelled
                && forall task :: task in background <==> task in old(background) && task !in old(tasks)
      ensures old(turn).Some? && !old(sdk) && old(queued) == [] ==>
                turn.None? && tools == [] && trace == old(trace) + Ends(old(tools), old(turn).value.id) + [TurnCompleted(old(turn).value.id, Interrupted), StatusChanged(false)]
      ensures old(turn).Some? && (old(state) == Idle || old(turn).value.waiting) && old(sdk) ==>
                turn.None? && tools == [] && exists i :: |old(trace)| <= i < |trace| && trace[i] == TurnCompleted(old(turn).value.id, Interrupted)
      ensures old(turn).Some? && old(state) == Busy && !old(turn).value.waiting && old(sdk) ==> turn == Some(old(turn).value.(interrupted := true))
    {
      hide EndsTold, FlagsTold, TallyOf, Accounted, Ends, Note, Fine, Split;
      if turn.None? { return; }
      ValidFlags();
      CauseTold(turn.value, causes, Stopped, turn.value.(interrupted := true));
      Mark(turn.value.(interrupted := true), [Stopped]);
      if !sdk {
        CutOff(random);
        return;
      }
      StopTasks(cancelled);
      if state == Idle || turn.value.waiting { EndsNow(random); }
    }

    /** An interrupted turn ends as it is. */
    method CutOff(random: Id)
      requires Valid() && turn.Some? && turn.value.interrupted
      modifies this`turn, this`causes, this`ended, this`tools, this`queued, this`launched, this`afterResult, this`notified, this`lastBlock, this`trace, this`tally
      ensures Valid() && turn.None? && tools == [] && ended == old(ended) + [Course(old(turn).value.id, old(causes))]
      ensures old(queued) == [] ==> trace == old(trace) + Ends(old(tools), old(turn).value.id) + [TurnCompleted(old(turn).value.id, Interrupted), StatusChanged(false)]
    {
      hide EndsTold, FlagsTold, TallyOf, Accounted, Ends, Note, Fine, Split;
      CompleteTurn(false, random);
    }

    /** Claude's tasks and sub-agents end, and what was sent and not taken yet is no longer waited for. */
    method StopTasks(cancelled: set<Id>)
      requires Valid()
      modifies this`pending, this`background, this`tasks, this`agents, this`trace, this`tally
      ensures Valid() && old(trace) <= trace && tasks == [] && agents == {} && pending == old(pending) - cancelled
      ensures forall task :: task in background <==> task in old(background) && task !in old(tasks)
    {
      hide EndsTold, FlagsTold, TallyOf, Accounted, Note;
      pending := pending - cancelled;
      EndBackgrounds(tasks);
      tasks, agents := [], {};
    }

    /** The turn ends as its result was seen, with no sub-agents left. */
    method EndsNow(random: Id)
      requires Valid() && turn.Some? && agents == {}
      modifies this`turn, this`causes, this`ended, this`tools, this`queued, this`launched, this`afterResult, this`notified, this`lastBlock, this`trace, this`tally
      ensures Valid() && turn.None? && tools == [] && old(trace) <= trace
      ensures trace == old(trace) + Ends(old(tools), old(turn).value.id) + [TurnCompleted(old(turn).value.id, StatusOf(old(turn).value)), StatusChanged(false)]
      ensures exists i :: |old(trace)| <= i < |trace| && trace[i] == TurnCompleted(old(turn).value.id, StatusOf(old(turn).value))
      ensures ended == old(ended) + [Course(old(turn).value.id, old(causes))]
      ensures Had(old(ended), old(turn), old(causes))
    {
      hide EndsTold, FlagsTold, TallyOf, Accounted, Ends, Note;
      FlagsStay(turn.value, turn.value.(resultSeen := true), causes);
      turn := Some(turn.value.(resultSeen := true));
      ghost var ends := Ends(tools, turn.value.id);
      CompleteTurn(false, random);
      assert trace[|old(trace)| + |ends|] == TurnCompleted(old(turn).value.id, StatusOf(old(turn).value));
    }

    method EndBackgrounds(over: seq<Token>)
      requires Valid()
      modifies this`background, this`trace, this`tally
      ensures Valid() && Split() == old(Split()) && |old(trace)| <= |trace| && old(trace) <= trace
      ensures forall task :: task in background <==> task in old(background) && task !in over
    {
      for n := 0 to |over|
        invariant Valid() && Split() == old(Split()) && old(trace) <= trace
        invariant forall task :: task in background <==> task in old(background) && task !in over[..n]
      {
        EndBackground(over[n]);
        assert over[..n + 1] == over[..n] + [over[n]];
      }
      assert over[..|over|] == over;
    }

    /** A background command ends: its item completes in the turn it started in, whichever turn runs now. */
    method EndBackground(task: Token)
      requires Valid()
      modifies this`background, this`trace, this`tally
      ensures Valid() && Split() == old(Split()) && background == old(background) - {task}
      ensures trace == old(trace) + if task in old(background) then [ToolCompleted(old(background)[task].item, old(background)[task].turn)] else []
    {
      hide EndsTold, FlagsTold, TallyOf, Accounted;
      if task !in background {
        assert background - {task} == background;
        return;
      }
      EndsInBackground(tally, tools, background, stops, task);
      var running := background[task];
      background := background - {task};
      Emit(ToolCompleted(running.item, running.turn));
    }

    // ---- what Claude streams ----

    /** After a result Claude goes on: the transcript tells with what. */
    method Continued(prompt: Option<Told>, random: Id)
      requires Valid()
      modifies this`turn, this`causes, this`ended, this`tools, this`queued, this`launched, this`afterResult, this`notified, this`lastBlock, this`pending, this`trace, this`tally
      ensures Valid()
      ensures prompt.None? || old(turn).None? || old(turn).value.id == prompt.value.uuid || old(queued) != [] || prompt.value.kind == FromUser ==> turn == old(turn) && trace == old(trace)
      ensures old(Calm()) && (prompt.None? || prompt.value.kind != FromPeer) ==>
                Calm() && Split() == LiveTurns.Continued(old(Split()), LastOf(prompt))
      // Another agent's message gets a turn of its own id, unless sub-agents run: then the turn that waits for them takes it.
      ensures prompt.Some? && prompt.value.kind == FromPeer && old(turn).Some? && old(turn).value.id != prompt.value.uuid && old(queued) == [] ==>
                && turn.Some?
                && turn.value.id == (if old(turn).value.waiting || old(turn).value.interrupted || agents == {} then prompt.value.uuid
                                     else NextId(old(Split()), random))
      ensures Had(old(ended), old(turn), old(causes))
    {
      hide EndsTold, FlagsTold, TallyOf, Accounted, Ends, Fine;
      afterResult := false;
      if prompt.None? || turn.None? || turn.value.id == prompt.value.uuid || |queued| > 0 { return; }
      match prompt.value.kind {
        case FromUser =>
        case Notification => if lastBlock.Some? { ContinueTurn(random); }
        case FromPeer =>
          CompleteTurn(turn.value.waiting, random);
          EnsureTurn(prompt.value.uuid);
      }
    }

    /** A turn that waited for its sub-agents is Claude's own again. */
    method Wakes()
      requires Valid()
      modifies this`turn
      ensures Valid() && OpenId() == old(OpenId())
      ensures turn == if old(turn).Some? && old(turn).value.waiting then Some(old(turn).value.(resultSeen := false, waiting := false)) else old(turn)
    {
      hide EndsTold, FlagsTold, TallyOf, Accounted, Note, Ends;
      if turn.Some? && turn.value.waiting {
        FlagsStay(turn.value, turn.value.(resultSeen := false, waiting := false), causes);
        turn := Some(turn.value.(resultSeen := false, waiting := false));
      }
    }

    /** What comes before each streamed message, and its start: Claude woke up, the turn that waited is its turn now. */
    method Streams(prompt: Option<Told>, random: Id)
      requires Valid()
      modifies this`turn, this`causes, this`ended, this`tools, this`queued, this`launched, this`afterResult, this`notified, this`lastBlock, this`pending, this`trace, this`tally
      ensures Valid() && turn.Some? && !turn.value.waiting
      ensures old(Calm()) && (prompt.None? || prompt.value.kind != FromPeer) ==>
                Calm() && Split() == LiveTurns.Streams(old(Split()), LastOf(prompt), random)
      ensures Had(old(ended), old(turn), old(causes))
    {
      hide EndsTold, FlagsTold, TallyOf, Accounted, Note, Ends, Fine, Between;
      if afterResult { Continued(prompt, random); }
      Speaks(random);
    }

    method Speaks(random: Id)
      requires Valid()
      modifies this`turn, this`causes, this`ended, this`afterResult, this`notified, this`lastBlock, this`pending, this`trace, this`tally
      ensures Valid() && turn.Some? && !turn.value.waiting && ended == old(ended)
      ensures Courses() == old(Courses()) + if old(turn).Some? then [] else [Course(turn.value.id, [])]
      ensures old(Calm()) ==> Calm() && Split() == LiveTurns.EnsureTurn(old(Split()), NextId(old(Split()), random))
    {
      hide EndsTold, FlagsTold, TallyOf, Accounted, Note, Ends, Fine, Between;
      Wakes();
      EnsureTurn(if lastBlock.Some? then ContinuationOf(lastBlock.value.id) else random);
    }

    /** A block: after a message of an answer's length it begins the next turn. */
    method BlockStart(id: Id, text: bool, random: Id)
      requires Valid() && turn.Some?
      modifies this`turn, this`causes, this`ended, this`tools, this`queued, this`launched, this`afterResult, this`notified, this`lastBlock, this`pending, this`trace, this`tally
      ensures Valid() && turn.Some? && tools == old(tools)
      ensures Split() == LiveTurns.BlockStart(old(Split()), id, text)
      ensures !Answer(old(lastBlock)) ==> turn == old(turn) && trace == old(trace) + [TurnTrace.Shown(id)]
      ensures Had(old(ended), old(turn), old(causes))
    {
      hide EndsTold, FlagsTold, TallyOf, Accounted;
      if lastBlock.Some? && lastBlock.value.text.Some? && lastBlock.value.text.value >= ANSWER_CHARS { ContinueTurn(random); }
      lastBlock := Some(Block(id, if text then Some(0) else None));
      OtherNotes(tally, TurnTrace.Shown(id), tools, background, stops);
      Emit(TurnTrace.Shown(id));
    }

    method TextDelta(length: nat)
      requires Valid()
      modifies this`lastBlock
      ensures Valid() && Split() == LiveTurns.TextDelta(old(Split()), length)
      ensures old(lastBlock).Some? && old(lastBlock).value.text.Some? ==>
                lastBlock == Some(Block(old(lastBlock).value.id, Some(old(lastBlock).value.text.value + length)))
    {
      if lastBlock.Some? && lastBlock.value.text.Some? {
        lastBlock := Some(Block(lastBlock.value.id, Some(lastBlock.value.text.value + length)));
      }
    }

    // ---- tools ----

    /** A tool call: its item starts, but a TaskStop's waits for what it stopped. A call seen already changes nothing here. */
    method ToolUse(tool: Tool, taskStop: bool)
      requires Valid() && turn.Some?
      requires HasTool(tools, tool.id) || (tool.id !in tally.started && (tool.id in stops ==> taskStop))
      modifies this`tools, this`stops, this`trace, this`tally
      ensures Valid() && Split() == old(Split())
      ensures HasTool(old(tools), tool.id) ==> tools == old(tools) && trace == old(trace) && stops == old(stops)
      ensures !HasTool(old(tools), tool.id) && taskStop ==> stops == old(stops)[tool.id := tool] && tools == old(tools) && trace == old(trace)
      ensures !HasTool(old(tools), tool.id) && !taskStop ==>
                tools == old(tools) + [tool] && stops == old(stops) && trace == old(trace) + [ToolStarted(tool.id, turn.value.id, tool.bearing)]
    {
      hide EndsTold, FlagsTold, TallyOf, Accounted;
      var at := FindTool(tool.id);
      if at >= 0 { return; }
      if taskStop {
        StopWaits(tally, tools, background, stops, tool);
        stops := stops[tool.id := tool];
        return;
      }
      Starts(tally, tools, background, stops, tool, turn.value.id);
      NotCompleted(tally, tools, background, stops, tool.id);
      tools := tools + [tool];
      Emit(ToolStarted(tool.id, turn.value.id, tool.bearing));
    }

    method FindTool(id: Id) returns (at: int)
      ensures -1 <= at < |tools| && (at >= 0 ==> tools[at].id == id) && (at < 0 ==> !HasTool(tools, id))
    {
      at := 0;
      while at < |tools|
        invariant 0 <= at <= |tools| && forall i :: 0 <= i < at ==> tools[i].id != id
      {
        if tools[at].id == id { return; }
        at := at + 1;
      }
      at := -1;
    }

    /**
     * A tool's result: its item completes, or goes on in the background as a task. A TaskStop that stopped a background
     * command shows on that command; any other shows as an item that starts and completes now.
     */
    method ToolResult(id: Id, stopped: Option<Token>, task: Option<Token>)
      requires Valid() && (task.Some? ==> task.value !in background)
      modifies this`tools, this`stops, this`background, this`trace, this`tally
      ensures Valid() && Split() == old(Split()) && stops == old(stops) - {id}
      ensures id in old(stops) && stopped.Some? ==>
                && tools == old(tools) && background == old(background) - {stopped.value}
                && trace == old(trace) + if stopped.value in old(background) then [ToolCompleted(old(background)[stopped.value].item, old(background)[stopped.value].turn)] else []
      ensures id in old(stops) && stopped.None? && turn.Some? ==>
                exists before, at :: before == old(trace) + [ToolStarted(old(stops)[id].id, turn.value.id, old(stops)[id].bearing)]
                                     && Resolved(id, task, before, old(tools) + [old(stops)[id]], old(background), at)
      ensures id !in old(stops) && HasTool(old(tools), id) ==> exists at :: Resolved(id, task, old(trace), old(tools), old(background), at)
      ensures (id in old(stops) && stopped.None? && turn.None?) || (id !in old(stops) && !HasTool(old(tools), id)) ==>
                trace == old(trace) && tools == old(tools) && background == old(background)
    {
      hide EndsTold, FlagsTold, TallyOf, Accounted, Resolved;
      if id in stops {
        var stop := stops[id];
        StopTold(tally, tools, background, stops, id);
        stops := stops - {id};
        if stopped.Some? {
          EndBackground(stopped.value);
          return;
        }
        if turn.None? { return; }
        Starts(tally, tools, background, stops, stop, turn.value.id);
        NotCompleted(tally, tools, background, stops, stop.id);
        tools := tools + [stop];
        Emit(ToolStarted(stop.id, turn.value.id, stop.bearing));
        assert tools[|tools| - 1].id == id;
      } else {
        assert stops - {id} == stops;
      }
      var at := FindTool(id);
      if at < 0 { return; }
      ToolEnds(id, at, task);
    }

    /** What a tool's result does to the tool there and to what was told. */
    ghost predicate Resolved(id: Id, task: Option<Token>, before: seq<Notification>, running: seq<Tool>, inBackground: map<Token, Running>, at: nat)
      reads this
    {
      && turn.Some? && at < |running| && running[at].id == id && tools == Without(running, at)
      && (if running[at].bash && task.Some?
          then background == inBackground[task.value := Running(id, turn.value.id)] && trace == before + [ToolStarted(id, turn.value.id, running[at].bearing)]
          else background == inBackground && trace == before + [ToolCompleted(id, turn.value.id)])
    }

    /** A command that goes on in the background is told again as a task; any other tool completes. */
    method ToolEnds(id: Id, at: nat, task: Option<Token>)
      requires Valid() && (task.Some? ==> task.value !in background)
      requires at < |tools| && tools[at].id == id
      modifies this`tools, this`background, this`trace, this`tally
      ensures Valid() && Split() == old(Split())
      ensures Resolved(id, task, old(trace), old(tools), old(background), at)
    {
      hide EndsTold, FlagsTold, TallyOf, Accounted;
      var tool := tools[at];
      OpenStill(tally, tools, background, stops, at);
      if tool.bash && task.Some? {
        GoesToBackground(tally, tools, background, stops, at, task.value, turn.value.id);
        background := background[task.value := Running(id, turn.value.id)];
        tools := Without(tools, at);
        Emit(ToolStarted(id, turn.value.id, tool.bearing));
      } else {
        Completes(tally, tools, background, stops, at, turn.value.id);
        tools := Without(tools, at);
        Emit(ToolCompleted(id, turn.value.id));
      }
    }

    // ---- other messages ----

    /** Claude's result; the turn ends with it once Claude is idle, or at once while sub-agents work on. */
    method OnResult(aborted: bool, failed: bool, random: Id)
      requires Valid()
      modifies this`turn, this`causes, this`ended, this`tools, this`queued, this`launched, this`afterResult, this`notified, this`lastBlock, this`trace, this`tally
      ensures Valid()
      ensures old(turn).None? ==> turn.None? && trace == old(trace)
      ensures old(turn).Some? ==>
                var was := old(turn).value;
                var now := was.(resultSeen := true, interrupted := was.interrupted || aborted, failed := was.failed || (failed && !aborted && !was.interrupted));
                if (if agents != {} then !was.waiting else state == Idle) then JustEnded(now, old(tools), old(queued), old(trace))
                else turn == Some(now) && trace == old(trace) && tools == old(tools) && afterResult
      ensures old(Calm()) && state == Busy ==> Calm() && Split() == LiveTurns.ResultCame(old(Split()))
      ensures Had(old(ended), old(turn), old(causes) + [Result(aborted, failed)])
    {
      hide EndsTold, FlagsTold, TallyOf, Accounted, Ends, Fine;
      if turn.None? { return; }
      SeeResult(aborted, failed);
      MaybeComplete(random);
    }

    method SeeResult(aborted: bool, failed: bool)
      requires Valid() && turn.Some?
      modifies this`turn, this`causes, this`afterResult
      ensures Valid() && Split() == LiveTurns.ResultCame(old(Split())) && causes == old(causes) + [Result(aborted, failed)]
      ensures afterResult && turn == Some(old(turn).value.(resultSeen := true, interrupted := old(turn).value.interrupted || aborted,
                                                          failed := old(turn).value.failed || (failed && !aborted && !old(turn).value.interrupted)))
    {
      hide EndsTold, FlagsTold, TallyOf, Accounted, Ends, Fine;
      var now := turn.value.(resultSeen := true);
      afterResult := true;
      if aborted && !now.interrupted { now := now.(interrupted := true); }
      else if failed && !now.interrupted { now := now.(failed := true); }
      ValidFlags();
      CauseTold(turn.value, causes, Result(aborted, failed), now);
      Mark(now, [Result(aborted, failed)]);
    }

    /** A message of Claude's that tells an error: the turn that runs ends as failed. */
    method AssistantFailed()
      requires Valid()
      modifies this`turn, this`causes
      ensures Valid() && Split() == old(Split())
      ensures turn == if old(turn).Some? then Some(old(turn).value.(failed := true)) else None
      ensures Had(old(ended), old(turn), old(causes) + [MessageFailed])
    {
      hide EndsTold, FlagsTold, TallyOf, Accounted, Note;
      if turn.Some? {
        ValidFlags();
        CauseTold(turn.value, causes, MessageFailed, turn.value.(failed := true));
        Mark(turn.value.(failed := true), [MessageFailed]);
      }
    }

    /** A pushed message, or a command Claude started by itself, reaches the model. */
    method CommandStarted(uuid: Id, random: Id)
      requires Valid()
      modifies this`turn, this`causes, this`ended, this`tools, this`queued, this`launched, this`afterResult, this`notified, this`lastBlock, this`pending, this`trace, this`tally
      ensures Valid()
      ensures uuid in old(injections) && uuid !in old(pending) ==> turn == old(turn) && trace == old(trace)
      ensures old(turn).Some? && (!old(turn).value.waiting || (uuid !in old(pending) && old(notified))) ==> turn == old(turn) && trace == old(trace)
      ensures uuid in old(pending) ==> pending == old(pending) - {uuid}
      ensures uuid !in old(injections) && old(turn).Some? && old(turn).value.waiting && (uuid in old(pending) || !old(notified)) ==>
                turn == Some(ActiveTurn(uuid, false, false, false, false))
      ensures old(Calm()) ==> Calm() && Split() == LiveTurns.CommandStarted(old(Split()), uuid, random)
      ensures Had(old(ended), old(turn), old(causes))
    {
      hide EndsTold, FlagsTold, TallyOf, Accounted, Ends, Fine;
      var isPending := uuid in pending;
      var wakes := turn.Some? && turn.value.waiting && uuid !in injections && (isPending || !notified);
      if wakes { CompleteTurn(true, random); }
      if !isPending && uuid !in injections {
        if turn.None? && notified {
          EnsureTurn(if lastBlock.Some? then ContinuationOf(lastBlock.value.id) else random);
          return;
        }
        if turn.None? { EnsureTurn(uuid); }
      }
      if !isPending { return; }
      if turn.None? {
        EnsureTurn(uuid);
        return;
      }
      pending := pending - {uuid};
    }

    /** A command that is the turn's own completed: its result may come without one of the stream's. */
    method CommandCompleted(uuid: Id, random: Id)
      requires Valid()
      modifies this`turn, this`causes, this`ended, this`tools, this`queued, this`launched, this`afterResult, this`notified, this`lastBlock, this`injections, this`trace, this`tally
      ensures Valid() && injections == old(injections) - {uuid}
      ensures old(OpenId()) != Some(uuid) || old(turn).value.resultSeen ==> turn == old(turn) && trace == old(trace)
      ensures old(OpenId()) == Some(uuid) && !old(turn).value.resultSeen ==>
                var now := old(turn).value.(resultSeen := true);
                if (if agents != {} then !now.waiting else state == Idle) then JustEnded(now, old(tools), old(queued), old(trace))
                else turn == Some(now) && trace == old(trace) && tools == old(tools)
      ensures Had(old(ended), old(turn), old(causes))
    {
      hide EndsTold, FlagsTold, TallyOf, Accounted, Ends, Fine;
      injections := injections - {uuid};
      if turn.Some? && turn.value.id == uuid && !turn.value.resultSeen {
        ValidFlags();
        FlagsStay(turn.value, turn.value.(resultSeen := true), causes);
        assert causes + [] == causes;
        Mark(turn.value.(resultSeen := true), []);
        MaybeComplete(random);
      }
    }

    method StateChanged(next: State, random: Id)
      requires Valid()
      modifies this`turn, this`causes, this`ended, this`tools, this`queued, this`launched, this`afterResult, this`notified, this`lastBlock, this`state, this`trace, this`tally
      ensures Valid() && state == next
      ensures next == Busy || old(turn).None? || !old(turn).value.resultSeen || (agents != {} && old(turn).value.waiting) ==> turn == old(turn) && trace == old(trace) && tools == old(tools)
      ensures next == Idle && old(turn).Some? && old(turn).value.resultSeen && (agents == {} || !old(turn).value.waiting) ==>
                JustEnded(old(turn).value, old(tools), old(queued), old(trace))
      ensures old(Calm()) ==> Calm() && Split() == if next == Idle then LiveTurns.WentIdle(old(Split())) else old(Split())
      ensures Had(old(ended), old(turn), old(causes))
    {
      hide EndsTold, FlagsTold, TallyOf, Accounted, Ends, Fine;
      state := next;
      if next == Idle { MaybeComplete(random); }
    }

    /** Claude went on by itself and ran on for a moment: a turn of its own. */
    method RunningTimer(random: Id)
      requires Valid()
      modifies this`turn, this`causes, this`ended, this`afterResult, this`notified, this`lastBlock, this`pending, this`trace, this`tally
      ensures Valid() && (state == Busy ==> turn.Some?) && (state == Idle ==> turn == old(turn))
      ensures state == Busy && old(turn).None? ==> turn.value.id == NextId(old(Split()), random) && trace == old(trace) + [TurnStarted(turn.value.id), StatusChanged(true)]
      ensures Had(old(ended), old(turn), old(causes))
    {
      if state != Idle { EnsureTurn(if lastBlock.Some? then ContinuationOf(lastBlock.value.id) else random); }
    }

    method TaskStarted(task: Token, agent: bool)
      requires Valid()
      modifies this`agents, this`tasks
      ensures Valid()
      ensures if agent then agents == old(agents) + {task} && tasks == old(tasks) else agents == old(agents) && tasks == old(tasks) + [task]
    {
      if agent { agents := agents + {task}; } else { tasks := tasks + [task]; }
    }

    /** A task ended: with no turn running, or one that waits, the command Claude runs for it goes on after its answer. */
    method TaskNotification(task: Token)
      requires Valid()
      modifies this`agents, this`tasks, this`notified, this`background, this`trace, this`tally
      ensures Valid() && agents == old(agents) - {task} && background == old(background) - {task}
      ensures notified == (old(notified) || turn.None? || turn.value.waiting)
      ensures forall each :: each in tasks <==> each in old(tasks) && each != task
      ensures trace == old(trace) + if task in old(background) then [ToolCompleted(old(background)[task].item, old(background)[task].turn)] else []
      ensures old(Calm()) ==> Calm() && Split() == LiveTurns.TaskEnded(old(Split()))
    {
      hide EndsTold, FlagsTold, TallyOf, Accounted, Note, Fine;
      var other := (each: Token) => each != task;
      forall each ensures each in Filter(other, tasks) <==> each in tasks && each != task { FilterMember(other, tasks, each); }
      tasks := Filter(other, tasks);
      agents := agents - {task};
      notified := notified || turn.None? || turn.value.waiting;
      EndBackground(task);
    }

    /** Claude's process ended: the turn that runs ends with it. */
    method QueryEnded(failure: bool, random: Id)
      requires Valid()
      modifies this
      ensures Valid() && state == Idle && !sdk && agents == {} && tasks == [] && injections == {}
      ensures turn.None? && tools == []
      ensures Had(old(ended), old(turn), old(causes) + if failure then [ProcessFailed] else [])
      ensures old(turn).Some? && old(queued) == [] ==>
                trace == old(trace) + Ends(old(tools), old(turn).value.id)
                  + [TurnCompleted(old(turn).value.id, StatusOf(old(turn).value.(failed := old(turn).value.failed || failure))), StatusChanged(false)]
    {
      hide EndsTold, FlagsTold, TallyOf, Accounted, Ends, Note, Fine, Split;
      if failure && turn.Some? {
        ValidFlags();
        CauseTold(turn.value, causes, ProcessFailed, turn.value.(failed := true));
        Mark(turn.value.(failed := true), [ProcessFailed]);
      }
      ProcessGone();
      if turn.Some? { EndsNow(random); }
    }

    method ProcessGone()
      requires Valid()
      modifies this`injections, this`sdk, this`state, this`tasks, this`agents
      ensures Valid() && injections == {} && !sdk && state == Idle && tasks == [] && agents == {}
    {
      hide EndsTold, FlagsTold, TallyOf, Accounted, Note;
      injections, sdk, state, tasks, agents := {}, false, Idle, [], {};
    }

    /** Read back from the transcript, another agent's message was taken as a prompt right after a turn's result: its own turn. */
    method PeerPromptRead(uuid: Id, random: Id)
      requires Valid()
      modifies this`turn, this`causes, this`ended, this`tools, this`queued, this`launched, this`afterResult, this`notified, this`lastBlock, this`pending, this`trace, this`tally
      ensures Valid()
      ensures old(turn).None? || old(turn).value.id == uuid || !old(turn).value.resultSeen || old(queued) != [] ==> turn == old(turn) && trace == old(trace)
      ensures old(turn).Some? && old(turn).value.id != uuid && old(turn).value.resultSeen && old(queued) == [] ==>
                && turn.Some?
                && turn.value.id == (if old(turn).value.waiting || old(turn).value.interrupted || agents == {} then uuid else NextId(old(Split()), random))
      ensures Had(old(ended), old(turn), old(causes))
    {
      hide EndsTold, FlagsTold, TallyOf, Accounted, Ends, Fine;
      if turn.Some? && turn.value.id != uuid && turn.value.resultSeen && |queued| == 0 {
        CompleteTurn(turn.value.waiting, random);
        EnsureTurn(uuid);
      }
    }
  }

  /**
   * A run in which another agent's message, read back after a turn's result while a sub-agent works, gets no turn of its own
   * id: the turn that opened to wait for the sub-agent takes it.
   */
  method PeerMessageMisnamed(prompt: Id, peer: Id, agent: Token, random: Id) returns (session: ClaudeSession)
    requires prompt != peer && random != peer
    ensures fresh(session) && session.Valid() && session.OpenId() == Some(random) && random != peer
  {
    hide EndsTold, FlagsTold, TallyOf, Accounted, Note, Ends, ClaudeSession.Fine;
    session := new ClaudeSession();
    session.StartTurn(prompt, random);
    session.StateChanged(Busy, random);
    session.OnResult(false, false, random);
    session.TaskStarted(agent, true);
    session.Continued(Some(Told(peer, FromPeer)), random);
  }

  /**
   * Every completion a session told is that of a turn that ended, in their order: interrupted exactly when Stop or an aborted
   * result came for it, else failed exactly when a failed message, its process's failure or a result with an error did.
   */
  lemma {:induction false} StatusesTold(session: ClaudeSession, i: nat)
    requires session.Valid() && i < |session.trace| && session.trace[i].TurnCompleted?
    ensures var k := |Completions(session.trace[..i])|;
            && k < |session.ended| && session.ended[k].id == session.trace[i].id
            && var status, causes := session.trace[i].status, session.ended[k].causes;
               && (status == Interrupted <==> Stopped in causes || Result(true, false) in causes || Result(true, true) in causes)
               && (status == Failed <==> status != Interrupted && (MessageFailed in causes || ProcessFailed in causes || Result(false, true) in causes))
  {
    hide TallyOf, Accounted, Completions, Tells;
    CompletionAt(session.trace, i);
    var k := |Completions(session.trace[..i])|;
    TellsStatus(session.trace[i].status, session.ended[k].causes);
  }

  lemma {:induction false} CompletionAt(trace: seq<Notification>, i: nat)
    requires i < |trace| && trace[i].TurnCompleted?
    ensures var k := |Completions(trace[..i])|; k < |Completions(trace)| && Completions(trace)[k] == trace[i]
    decreases |trace|
  {
    if i < |trace| - 1 {
      CompletionAt(trace[..|trace| - 1], i);
      assert trace[..|trace| - 1][..i] == trace[..i];
    }
  }

  lemma {:induction false} TellsStatus(status: Status, causes: seq<Cause>)
    requires Tells(status, causes)
    ensures status == Interrupted <==> Stopped in causes || Result(true, false) in causes || Result(true, true) in causes
    ensures status == Failed <==> status != Interrupted && (MessageFailed in causes || ProcessFailed in causes || Result(false, true) in causes)
  {
    forall cause | cause in causes ensures exists i :: 0 <= i < |causes| && causes[i] == cause {}
  }

  /** A prompt, what Claude tells of it, and idleness: the turn completes with the status this tells. */
  method OneTurn(prompt: Id, messageFailed: bool, aborted: bool, failed: bool, random: Id) returns (session: ClaudeSession)
    ensures fresh(session) && session.Valid()
    ensures session.trace == [TurnStarted(prompt), StatusChanged(true),
                              TurnCompleted(prompt, if aborted then Interrupted else if failed || messageFailed then Failed else Completed),
                              StatusChanged(false)]
  {
    hide EndsTold, FlagsTold, TallyOf, Accounted, Note, ClaudeSession.Fine, ClaudeSession.Split, ClaudeSession.Had;
    session := new ClaudeSession();
    session.StartTurn(prompt, random);
    session.StateChanged(Busy, random);
    if messageFailed { session.AssistantFailed(); }
    session.OnResult(aborted, failed, random);
    assert session.tools == [] && session.trace == [TurnStarted(prompt), StatusChanged(true)];
    session.StateChanged(Idle, random);
  }

  lemma {:induction false} FirstOut(tools: seq<Tool>)
    requires tools != []
    ensures Without(tools, 0) == tools[1..]
  {}

  lemma {:induction false} OpenStill(tally: Tally, tools: seq<Tool>, background: map<Token, Running>, stops: map<Id, Tool>, i: nat)
    requires Accounted(tally, tools, background, stops) && i < |tools|
    ensures tools[i].id in tally.started && tools[i].id !in tally.completed
  {}

  function LastOf(prompt: Option<Told>): Option<LastPrompt> {
    match prompt case Some(told) => Some(LastPrompt(told.uuid, told.kind == Notification)) case None => None
  }

  lemma {:induction false} NotCompleted(tally: Tally, tools: seq<Tool>, background: map<Token, Running>, stops: map<Id, Tool>, id: Id)
    requires Accounted(tally, tools, background, stops) && id !in tally.started
    ensures id !in tally.completed
  {}
}
