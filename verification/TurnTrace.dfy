/** What a session has told its clients so far, and what every such trace must keep. */
module TurnTrace {
  import opened Basics
  import opened LiveTurns

  datatype Status = Completed | Interrupted | Failed

  /** A notification; `Shown` is a streamed block's place. Only tool items with a status are bearing. */
  datatype Notification =
    | TurnStarted(id: Id)
    | TurnCompleted(id: Id, status: Status)
    | StatusChanged(active: bool)
    | ToolStarted(item: Id, turn: Id, bearing: bool)
    | ToolCompleted(item: Id, turn: Id)
    | Shown(block: Id)

  /** What a trace comes to; `fine` is lost for good when a notification comes out of turn. */
  datatype Tally = Tally(open: Option<Id>, active: bool, started: set<Id>, bearing: set<Id>, completed: set<Id>, turns: seq<Turn>, fine: bool)

  function Note(tally: Tally, event: Notification): Tally {
    match event
    case TurnStarted(id) => tally.(open := Some(id), turns := tally.turns + [Turn(id, [])], fine := tally.fine && tally.open.None?)
    case TurnCompleted(id, _) => tally.(open := None, fine := tally.fine && tally.open == Some(id))
    case StatusChanged(active) => tally.(active := active)
    case ToolStarted(item, _, bearing) =>
      tally.(started := tally.started + {item}, bearing := if bearing then tally.bearing + {item} else tally.bearing,
             fine := tally.fine && item !in tally.completed)
    case ToolCompleted(item, _) =>
      tally.(completed := tally.completed + {item}, fine := tally.fine && item in tally.started && item !in tally.completed)
    case Shown(block) => tally.(turns := if tally.turns == [] then [] else LiveTurns.Shown(tally.turns, block))
  }

  function TallyOf(trace: seq<Notification>): Tally {
    if trace == [] then Tally(None, false, {}, {}, {}, [], true) else Note(TallyOf(trace[..|trace| - 1]), trace[|trace| - 1])
  }

  lemma {:induction false} OneMore(trace: seq<Notification>, event: Notification)
    ensures TallyOf(trace + [event]) == Note(TallyOf(trace), event)
  {
    assert (trace + [event])[..|trace|] == trace;
  }

  // ---- what a fine trace means ----

  lemma {:induction false} StaysFine(trace: seq<Notification>, n: nat)
    requires n <= |trace| && TallyOf(trace).fine
    ensures TallyOf(trace[..n]).fine
    decreases |trace|
  {
    if n < |trace| {
      StaysFine(trace[..|trace| - 1], n);
      assert trace[..|trace| - 1][..n] == trace[..n];
    } else {
      assert trace[..n] == trace;
    }
  }

  /** A turn completes only while it is the one that started last; the next starts only after that. */
  lemma {:induction false} TurnsAlternate(trace: seq<Notification>, i: nat, j: nat)
    requires TallyOf(trace).fine && i < j < |trace|
    requires trace[i].TurnStarted? && (trace[j].TurnStarted? || trace[j].TurnCompleted?)
    requires forall k :: i < k < j ==> !trace[k].TurnStarted? && !trace[k].TurnCompleted?
    ensures trace[j].TurnCompleted? && trace[j].id == trace[i].id
  {
    StaysFine(trace, j + 1);
    OpenSince(trace, i, j);
    assert trace[..j + 1] == trace[..j] + [trace[j]];
    OneMore(trace[..j], trace[j]);
  }

  lemma {:induction false} OpenSince(trace: seq<Notification>, i: nat, j: nat)
    requires i < j <= |trace| && trace[i].TurnStarted? && forall k :: i < k < j ==> !trace[k].TurnStarted? && !trace[k].TurnCompleted?
    ensures TallyOf(trace[..j]).open == Some(trace[i].id)
    decreases j
  {
    assert trace[..j] == trace[..j - 1] + [trace[j - 1]];
    OneMore(trace[..j - 1], trace[j - 1]);
    if j - 1 > i { OpenSince(trace, i, j - 1); }
  }

  /** No turn completes before one started, nor twice. */
  lemma {:induction false} CompletesOnce(trace: seq<Notification>, i: nat, j: nat)
    requires TallyOf(trace).fine && i < j < |trace| && trace[i].TurnCompleted?
    requires forall k :: i < k < j ==> !trace[k].TurnStarted?
    ensures !trace[j].TurnCompleted?
  {
    StaysFine(trace, j + 1);
    ClosedSince(trace, i, j);
    assert trace[..j + 1] == trace[..j] + [trace[j]];
    OneMore(trace[..j], trace[j]);
  }

  lemma {:induction false} ClosedSince(trace: seq<Notification>, i: nat, j: nat)
    requires i < j <= |trace| && trace[i].TurnCompleted? && forall k :: i < k < j ==> !trace[k].TurnStarted?
    ensures TallyOf(trace[..j]).open.None?
    decreases j
  {
    assert trace[..j] == trace[..j - 1] + [trace[j - 1]];
    OneMore(trace[..j - 1], trace[j - 1]);
    if j - 1 > i { ClosedSince(trace, i, j - 1); }
  }

  /** An item completes once at most, and after it started. */
  lemma {:induction false} ItemsOnce(trace: seq<Notification>, j: nat)
    requires TallyOf(trace).fine && j < |trace| && trace[j].ToolCompleted?
    ensures exists i :: 0 <= i < j && trace[i].ToolStarted? && trace[i].item == trace[j].item
    ensures forall i :: 0 <= i < j && trace[i].ToolCompleted? ==> trace[i].item != trace[j].item
  {
    StaysFine(trace, j + 1);
    assert trace[..j + 1] == trace[..j] + [trace[j]];
    OneMore(trace[..j], trace[j]);
    Counted(trace[..j]);
    assert forall i :: 0 <= i < j ==> trace[..j][i] == trace[i];
  }

  /** An item that completed does not start again. */
  lemma {:induction false} NoNewStart(trace: seq<Notification>, i: nat, j: nat)
    requires TallyOf(trace).fine && i < j < |trace| && trace[i].ToolCompleted? && trace[j].ToolStarted?
    ensures trace[j].item != trace[i].item
  {
    StaysFine(trace, j + 1);
    assert trace[..j + 1] == trace[..j] + [trace[j]];
    OneMore(trace[..j], trace[j]);
    Counted(trace[..j]);
    assert trace[..j][i] == trace[i];
  }

  lemma {:induction false} Counted(trace: seq<Notification>)
    ensures forall item :: item in TallyOf(trace).started ==> exists i :: 0 <= i < |trace| && trace[i].ToolStarted? && trace[i].item == item
    ensures forall i :: 0 <= i < |trace| && trace[i].ToolCompleted? ==> trace[i].item in TallyOf(trace).completed
    decreases |trace|
  {
    if trace != [] {
      var before := trace[..|trace| - 1];
      Counted(before);
      hide TallyOf;
      assert trace == before + [trace[|trace| - 1]];
      OneMore(before, trace[|trace| - 1]);
      forall item | item in TallyOf(trace).started ensures exists i :: 0 <= i < |trace| && trace[i].ToolStarted? && trace[i].item == item {
        if item in TallyOf(before).started {
          var i :| 0 <= i < |before| && before[i].ToolStarted? && before[i].item == item;
          assert trace[i] == before[i];
        } else {
          assert trace[|trace| - 1].ToolStarted? && trace[|trace| - 1].item == item;
        }
      }
      assert forall i :: 0 <= i < |before| ==> trace[i] == before[i];
    }
  }

  // ---- the tools behind it ----

  datatype Tool = Tool(id: Id, bearing: bool, bash: bool)

  /** A background command: its item, and the turn it started in. */
  datatype Running = Running(item: Id, turn: Id)

  ghost predicate HasTool(tools: seq<Tool>, id: Id) {
    exists i :: 0 <= i < |tools| && tools[i].id == id
  }

  ghost predicate InBackground(background: map<Token, Running>, id: Id) {
    exists task :: task in background && background[task].item == id
  }

  /** Every tool item with a status that started is open, runs in the background or completed: one of them. */
  ghost predicate Accounted(tally: Tally, tools: seq<Tool>, background: map<Token, Running>, stops: map<Id, Tool>) {
    && (forall i, j :: 0 <= i < j < |tools| ==> tools[i].id != tools[j].id)
    && (forall i :: 0 <= i < |tools| ==> tools[i].id in tally.started && tools[i].id !in tally.completed && (tools[i].bearing <==> tools[i].id in tally.bearing))
    && (forall task :: task in background ==> background[task].item in tally.started && background[task].item !in tally.completed && !HasTool(tools, background[task].item))
    && (forall task, other :: task in background && other in background && task != other ==> background[task].item != background[other].item)
    && (forall id :: id in tally.bearing ==> id in tally.completed || HasTool(tools, id) || InBackground(background, id))
    && tally.bearing <= tally.started && tally.completed <= tally.started
    && (forall id :: id in stops ==> stops[id].id == id && id !in tally.started)
  }

  function Without(tools: seq<Tool>, i: nat): seq<Tool>
    requires i < |tools|
  {
    tools[..i] + tools[i + 1..]
  }

  lemma {:induction false} HasToolOne(tools: seq<Tool>, tool: Tool, id: Id)
    ensures HasTool(tools + [tool], id) <==> HasTool(tools, id) || tool.id == id
  {
    if HasTool(tools, id) { var i :| 0 <= i < |tools| && tools[i].id == id; assert (tools + [tool])[i].id == id; }
    assert (tools + [tool])[|tools|] == tool;
  }

  lemma {:induction false} WithoutIs(tools: seq<Tool>, i: nat)
    requires i < |tools|
    ensures |Without(tools, i)| == |tools| - 1
    ensures forall j :: 0 <= j < |tools| - 1 ==> Without(tools, i)[j] == tools[if j < i then j else j + 1]
  {}

  lemma {:induction false} HasToolWithout(tools: seq<Tool>, i: nat, id: Id)
    requires i < |tools| && forall j, k :: 0 <= j < k < |tools| ==> tools[j].id != tools[k].id
    ensures HasTool(Without(tools, i), id) <==> HasTool(tools, id) && id != tools[i].id
  {
    WithoutIs(tools, i);
    var rest := Without(tools, i);
    hide Without;
    if HasTool(tools, id) && id != tools[i].id {
      var k :| 0 <= k < |tools| && tools[k].id == id;
      assert rest[if k < i then k else k - 1] == tools[k];
    }
    if HasTool(rest, id) {
      var j :| 0 <= j < |rest| && rest[j].id == id;
      assert tools[if j < i then j else j + 1].id == id;
    }
  }

  lemma {:induction false} DistinctWithout(tools: seq<Tool>, i: nat)
    requires i < |tools| && forall j, k :: 0 <= j < k < |tools| ==> tools[j].id != tools[k].id
    ensures forall j, k :: 0 <= j < k < |Without(tools, i)| ==> Without(tools, i)[j].id != Without(tools, i)[k].id
    ensures forall j :: 0 <= j < |Without(tools, i)| ==> Without(tools, i)[j].id != tools[i].id && Without(tools, i)[j] in tools
  {
    WithoutIs(tools, i);
    hide Without;
  }

  /** A tool of a fresh id starts. */
  lemma {:induction false} Starts(tally: Tally, tools: seq<Tool>, background: map<Token, Running>, stops: map<Id, Tool>, tool: Tool, turn: Id)
    requires Accounted(tally, tools, background, stops) && tool.id !in tally.started && tool.id !in stops
    ensures Accounted(Note(tally, ToolStarted(tool.id, turn, tool.bearing)), tools + [tool], background, stops)
  {
    forall id ensures HasTool(tools + [tool], id) <==> HasTool(tools, id) || tool.id == id { HasToolOne(tools, tool, id); }
    hide HasTool, InBackground;
    assert tool.id !in tally.completed && tool.id !in tally.bearing;
  }

  /** An open tool completes. */
  lemma {:induction false} Completes(tally: Tally, tools: seq<Tool>, background: map<Token, Running>, stops: map<Id, Tool>, i: nat, turn: Id)
    requires Accounted(tally, tools, background, stops) && i < |tools|
    ensures Accounted(Note(tally, ToolCompleted(tools[i].id, turn)), Without(tools, i), background, stops)
  {
    forall id ensures HasTool(Without(tools, i), id) <==> HasTool(tools, id) && id != tools[i].id { HasToolWithout(tools, i, id); }
    DistinctWithout(tools, i);
    assert HasTool(tools, tools[i].id);
    hide HasTool, InBackground, Without;
  }

  /** A tool without a status is forgotten. */
  lemma {:induction false} Drops(tally: Tally, tools: seq<Tool>, background: map<Token, Running>, stops: map<Id, Tool>, i: nat)
    requires Accounted(tally, tools, background, stops) && i < |tools| && !tools[i].bearing
    ensures Accounted(tally, Without(tools, i), background, stops)
  {
    forall id ensures HasTool(Without(tools, i), id) <==> HasTool(tools, id) && id != tools[i].id { HasToolWithout(tools, i, id); }
    DistinctWithout(tools, i);
    hide HasTool, InBackground, Without;
  }

  /** An open tool goes on in the background, and is shown started again. */
  lemma {:induction false} GoesToBackground(tally: Tally, tools: seq<Tool>, background: map<Token, Running>, stops: map<Id, Tool>, i: nat, task: Token, turn: Id)
    requires Accounted(tally, tools, background, stops) && i < |tools| && task !in background
    ensures Accounted(Note(tally, ToolStarted(tools[i].id, turn, tools[i].bearing)), Without(tools, i), background[task := Running(tools[i].id, turn)], stops)
  {
    var item := tools[i].id;
    forall id ensures HasTool(Without(tools, i), id) <==> HasTool(tools, id) && id != item { HasToolWithout(tools, i, id); }
    DistinctWithout(tools, i);
    assert HasTool(tools, item);
    var after := background[task := Running(item, turn)];
    forall id ensures InBackground(after, id) <==> InBackground(background, id) || id == item {
      if InBackground(background, id) { var t :| t in background && background[t].item == id; assert t in after && after[t].item == id; }
      if id == item { assert task in after && after[task].item == id; }
    }
    hide HasTool, InBackground, Without;
  }

  /** A background command ends. */
  lemma {:induction false} EndsInBackground(tally: Tally, tools: seq<Tool>, background: map<Token, Running>, stops: map<Id, Tool>, task: Token)
    requires Accounted(tally, tools, background, stops) && task in background
    ensures Accounted(Note(tally, ToolCompleted(background[task].item, background[task].turn)), tools, background - {task}, stops)
    ensures background[task].item in tally.started && background[task].item !in tally.completed
  {
    var item, after := background[task].item, background - {task};
    forall id ensures InBackground(after, id) || id == item <==> InBackground(background, id) {
      if InBackground(background, id) && id != item { var t :| t in background && background[t].item == id; assert t in after && after[t].item == id; }
      if InBackground(after, id) { var t :| t in after && after[t].item == id; assert t in background && background[t].item == id; }
      if id == item { assert task in background && background[task].item == id; }
    }
    hide HasTool, InBackground;
  }

  /** A TaskStop call waits for its result to tell what it is shown as. */
  lemma {:induction false} StopWaits(tally: Tally, tools: seq<Tool>, background: map<Token, Running>, stops: map<Id, Tool>, tool: Tool)
    requires Accounted(tally, tools, background, stops) && tool.id !in tally.started
    ensures Accounted(tally, tools, background, stops[tool.id := tool])
  {
    hide HasTool, InBackground;
  }

  lemma {:induction false} StopTold(tally: Tally, tools: seq<Tool>, background: map<Token, Running>, stops: map<Id, Tool>, id: Id)
    requires Accounted(tally, tools, background, stops)
    ensures Accounted(tally, tools, background, stops - {id})
    ensures id in stops ==> stops[id].id == id && id !in tally.started && id !in stops - {id}
  {
    hide HasTool, InBackground;
  }

  /** Other notifications leave the items alone. */
  lemma {:induction false} OtherNotes(tally: Tally, event: Notification, tools: seq<Tool>, background: map<Token, Running>, stops: map<Id, Tool>)
    requires Accounted(tally, tools, background, stops) && !event.ToolStarted? && !event.ToolCompleted?
    ensures Accounted(Note(tally, event), tools, background, stops)
  {
    hide HasTool, InBackground;
  }
}
