/**
 * A thread's header from its transcript's records (src/claude/native/summary.ts): what the summarizer keeps, record by
 * record, is the first or the last of what the records tell. Texts are taken as what the program's expressions find in
 * them; a goal is not part of the model.
 */
module Summary {
  import opened Basics

  // ---- records ----

  /** `/name args` in a text; the settings are `/model` and `/goal clear`. */
  datatype Command = Command(setting: bool, preview: Token)

  /** What the expressions find in a text: markup of Claude Code's own, history it injected, an interruption's note. */
  datatype Text = Text(isEmpty: bool, command: Option<Command>, markup: bool, injected: bool, interruption: bool,
                       delegation: Option<bool>, preview: Token)

  datatype Origin = NoOrigin | Human | Peer(messageId: Option<Token>) | OtherOrigin

  datatype Model = Synthetic | Unnamed | Named(name: Token)

  datatype Body =
    | User(isMeta: bool, isCompactSummary: bool, hasToolResult: bool, origin: Origin, text: Text, hasText: bool,
           sourceToolUseId: Option<Token>, permissionMode: Option<Token>, sentMessage: Option<Token>)
    | Assistant(model: Option<Model>, effort: Option<Token>, stopped: bool, fast: bool)
    | System
    | Attachment
    | PermissionMode(mode: Option<Token>)
    | CustomTitle(title: Option<Token>)
    | AiTitle(title: Option<Token>)
    | OtherState

  /** A record; its timestamp when it has a valid one; the uuid of a record of the chain. */
  datatype Record = Record(uuid: Token, timestamp: Option<int>, cwd: Option<Token>, gitBranch: Option<Token>,
                           version: Option<Token>, body: Body)
  {
    predicate IsChain() { body.User? || body.Assistant? || body.System? || body.Attachment? }
  }

  predicate StartsTurn(record: Record, promptUuid: Option<Token>)
    requires record.body.User?
  {
    var user := record.body;
    if promptUuid == Some(record.uuid) then true
    else if user.isMeta || user.isCompactSummary || user.hasToolResult then false
    else if user.origin.Human? then true
    else if !user.origin.NoOrigin? || user.text.isEmpty then false
    else if user.text.command.Some? then !user.text.command.value.setting
    else !user.text.markup && !user.text.injected && !user.text.interruption
  }

  // ---- what a record tells of each field ----

  function CwdOf(record: Record): Option<Token> { if record.IsChain() then record.cwd else None }

  function BranchOf(record: Record): Option<Token> { if record.IsChain() then record.gitBranch else None }

  function VersionOf(record: Record): Option<Token> { if record.IsChain() then record.version else None }

  function PreviewOf(promptUuid: Option<Token>): Record -> Option<Token> {
    (record: Record) =>
      if record.body.User? && StartsTurn(record, promptUuid)
      then Some(if record.body.text.command.Some? then record.body.text.command.value.preview else record.body.text.preview)
      else None
  }

  function PermissionOf(record: Record): Option<Token> {
    match record.body
    case User(_, _, _, _, _, _, _, mode, _) => mode
    case PermissionMode(mode) => mode
    case _ => None
  }

  function DelegationOf(record: Record): Option<bool> {
    if record.body.User? && record.body.origin.NoOrigin? && !record.body.hasToolResult then record.body.text.delegation else None
  }

  function SentOf(record: Record): Option<Token> { if record.body.User? then record.body.sentMessage else None }

  function ReceivedOf(record: Record): Option<Token> {
    if record.body.User? && record.body.origin.Peer? then record.body.origin.messageId else None
  }

  /** Claude's own replies tell nothing of the model. */
  predicate Replies(record: Record) { record.body.Assistant? && record.body.model != Some(Synthetic) }

  function ModelOf(record: Record): Option<Model> { if Replies(record) then record.body.model else None }

  function EffortOf(record: Record): Option<Token> { if Replies(record) then record.body.effort else None }

  function FastOf(record: Record): Option<bool> { if Replies(record) && record.body.stopped then Some(record.body.fast) else None }

  function CustomTitleOf(record: Record): Option<Option<Token>> { if record.body.CustomTitle? then Some(record.body.title) else None }

  function AiTitleOf(record: Record): Option<Option<Token>> { if record.body.AiTitle? then Some(record.body.title) else None }

  // ---- the first and the last ----

  function First<T>(of: Record -> Option<T>, records: seq<Record>): Option<T> {
    if records == [] then None
    else if of(records[0]).Some? then of(records[0])
    else First(of, records[1..])
  }

  function Last<T>(of: Record -> Option<T>, records: seq<Record>): Option<T> {
    if records == [] then None
    else if of(records[|records| - 1]).Some? then of(records[|records| - 1])
    else Last(of, records[..|records| - 1])
  }

  function Every<T>(of: Record -> Option<T>, records: seq<Record>): seq<T> {
    if records == [] then []
    else Every(of, records[..|records| - 1]) + OneOrNone(of(records[|records| - 1]))
  }

  lemma {:induction false} FirstConcat<T>(of: Record -> Option<T>, a: seq<Record>, b: seq<Record>)
    ensures First(of, a + b) == if First(of, a).Some? then First(of, a) else First(of, b)
    decreases |a|
  {
    if a == [] {
      assert a + b == b;
    } else {
      assert (a + b)[1..] == a[1..] + b;
      FirstConcat(of, a[1..], b);
    }
  }

  lemma {:induction false} FirstOne<T>(of: Record -> Option<T>, records: seq<Record>, record: Record)
    ensures First(of, records + [record]) == if First(of, records).Some? then First(of, records) else of(record)
  {
    FirstConcat(of, records, [record]);
    assert [record][1..] == [];
    assert First(of, [record]) == if of(record).Some? then of(record) else First(of, [record][1..]);
  }

  lemma {:induction false} LastConcat<T>(of: Record -> Option<T>, a: seq<Record>, b: seq<Record>)
    ensures Last(of, a + b) == if Last(of, b).Some? then Last(of, b) else Last(of, a)
    decreases |b|
  {
    if b == [] {
      assert a + b == a;
    } else {
      assert (a + b)[..|a + b| - 1] == a + b[..|b| - 1];
      LastConcat(of, a, b[..|b| - 1]);
    }
  }

  function OneOrNone<T>(value: Option<T>): seq<T> {
    match value case Some(x) => [x] case None => []
  }

  lemma {:induction false} LastOne<T>(of: Record -> Option<T>, records: seq<Record>, record: Record)
    ensures Last(of, records + [record]) == if of(record).Some? then of(record) else Last(of, records)
  {
    assert (records + [record])[..|records|] == records;
  }

  lemma {:induction false} EveryOne<T>(of: Record -> Option<T>, records: seq<Record>, record: Record)
    ensures Every(of, records + [record]) == Every(of, records) + OneOrNone(of(record))
  {
    assert (records + [record])[..|records|] == records;
  }

  lemma {:induction false} FirstIs<T>(of: Record -> Option<T>, records: seq<Record>)
    ensures match First(of, records)
            case Some(x) => exists i :: 0 <= i < |records| && of(records[i]) == Some(x) && forall j :: 0 <= j < i ==> of(records[j]).None?
            case None => forall i :: 0 <= i < |records| ==> of(records[i]).None?
  {
    if records != [] && of(records[0]).None? {
      FirstIs(of, records[1..]);
      var rest := First(of, records[1..]);
      if rest.Some? {
        var i :| 0 <= i < |records| - 1 && of(records[1..][i]) == rest && forall j :: 0 <= j < i ==> of(records[1..][j]).None?;
        assert of(records[i + 1]) == rest;
        assert forall j :: 0 < j < i + 1 ==> of(records[j]) == of(records[1..][j - 1]);
      } else {
        assert forall j :: 0 < j < |records| ==> of(records[j]) == of(records[1..][j - 1]);
      }
    } else if records != [] {
      assert of(records[0]) == First(of, records);
    }
  }

  /**
   * A prompt of the user's: a user record that is the prompt a sub-agent was given; else no meta record, no summary of a
   * compaction and no tool result, which a human sent, or nobody is named for, with a text that is a command other than a
   * setting, or neither markup of Claude Code's, injected history nor an interruption's note.
   */
  ghost predicate Prompts(record: Record, promptUuid: Option<Token>) {
    && record.body.User?
    && var User(isMeta, isCompactSummary, hasToolResult, origin, text, _, _, _, _) := record.body;
       || Some(record.uuid) == promptUuid
       || (!isMeta && !isCompactSummary && !hasToolResult
           && (|| origin == Human
               || (origin == NoOrigin && !text.isEmpty
                   && (match text.command
                       case Some(command) => !command.setting
                       case None => !(text.markup || text.injected || text.interruption)))))
  }

  /** The preview is that of the first prompt: of its command if it is one, else of its text. */
  lemma {:induction false} PreviewIsFirst(records: seq<Record>, promptUuid: Option<Token>)
    ensures match First(PreviewOf(promptUuid), records)
            case Some(preview) =>
              exists i :: 0 <= i < |records| && Prompts(records[i], promptUuid) && (forall j :: 0 <= j < i ==> !Prompts(records[j], promptUuid))
                          && preview == (if records[i].body.text.command.Some? then records[i].body.text.command.value.preview else records[i].body.text.preview)
            case None => forall i :: 0 <= i < |records| ==> !Prompts(records[i], promptUuid)
  {
    FirstIs(PreviewOf(promptUuid), records);
    hide First;
    forall i | 0 <= i < |records| ensures PreviewOf(promptUuid)(records[i]).Some? <==> Prompts(records[i], promptUuid) {}
  }

  /** The directory is the first that a user, assistant, system or attachment record tells. */
  lemma {:induction false} DirectoryIsFirst(records: seq<Record>)
    ensures var tells := (record: Record) => record.cwd.Some? && (record.body.User? || record.body.Assistant? || record.body.System? || record.body.Attachment?);
            match First(CwdOf, records)
            case Some(cwd) => exists i :: 0 <= i < |records| && records[i].cwd == Some(cwd) && tells(records[i]) && forall j :: 0 <= j < i ==> !tells(records[j])
            case None => forall i :: 0 <= i < |records| ==> !tells(records[i])
  {
    FirstIs(CwdOf, records);
    hide First;
  }

  /** The value that a field was told last. */
  ghost predicate ToldLast<T(!new)>(records: seq<Record>, tells: (Record, T) -> bool, told: Option<T>) {
    match told
    case Some(x) => exists i :: 0 <= i < |records| && tells(records[i], x) && forall j, y :: i < j < |records| ==> !tells(records[j], y)
    case None => forall i, y :: 0 <= i < |records| ==> !tells(records[i], y)
  }

  lemma {:induction false} LastIs<T(!new)>(of: Record -> Option<T>, tells: (Record, T) -> bool, records: seq<Record>)
    requires forall record, x :: tells(record, x) <==> of(record) == Some(x)
    ensures ToldLast(records, tells, Last(of, records))
  {
    LastAt(of, records);
    hide Last;
  }

  ghost predicate LastPlace<T(!new)>(of: Record -> Option<T>, records: seq<Record>, last: Option<T>) {
    match last
    case Some(x) => exists i :: 0 <= i < |records| && of(records[i]) == Some(x) && forall j :: i < j < |records| ==> of(records[j]).None?
    case None => forall i :: 0 <= i < |records| ==> of(records[i]).None?
  }

  lemma {:induction false} LastAt<T(!new)>(of: Record -> Option<T>, records: seq<Record>)
    ensures LastPlace(of, records, Last(of, records))
  {
    if records != [] {
      var before, record := records[..|records| - 1], records[|records| - 1];
      assert records == before + [record];
      LastAt(of, before);
      LastOne(of, before, record);
      hide Last, LastPlace;
      OnePlaceMore(of, before, record, Last(of, before));
    }
  }

  lemma {:induction false} OnePlaceMore<T(!new)>(of: Record -> Option<T>, before: seq<Record>, record: Record, last: Option<T>)
    requires LastPlace(of, before, last)
    ensures LastPlace(of, before + [record], if of(record).Some? then of(record) else last)
  {
    var records := before + [record];
    assert records[|before|] == record && forall j :: 0 <= j < |before| ==> records[j] == before[j];
    if of(record).None? && last.Some? {
      var i :| 0 <= i < |before| && of(before[i]) == last && forall j :: i < j < |before| ==> of(before[j]).None?;
      assert of(records[i]) == last;
    }
  }

  /** The model, effort and speed are those told last by a reply that is not Claude's own; only a finished one tells the speed. */
  lemma {:induction false} RepliesTell(records: seq<Record>)
    ensures ToldLast(records, (record: Record, x) => record.body.Assistant? && record.body.model == Some(x) && x != Synthetic, Last(ModelOf, records))
    ensures ToldLast(records, (record: Record, x) => record.body.Assistant? && record.body.effort == Some(x) && record.body.model != Some(Synthetic), Last(EffortOf, records))
    ensures ToldLast(records, (record: Record, x) => record.body.Assistant? && record.body.stopped && record.body.fast == x && record.body.model != Some(Synthetic), Last(FastOf, records))
  {
    hide Last;
    LastIs(ModelOf, (record: Record, x) => record.body.Assistant? && record.body.model == Some(x) && x != Synthetic, records);
    LastIs(EffortOf, (record: Record, x) => record.body.Assistant? && record.body.effort == Some(x) && record.body.model != Some(Synthetic), records);
    LastIs(FastOf, (record: Record, x) => record.body.Assistant? && record.body.stopped && record.body.fast == x && record.body.model != Some(Synthetic), records);
  }

  /** The titles and the permission mode are those told last, whether Claude may delegate by an unnamed message that says so. */
  lemma {:induction false} SettingsTell(records: seq<Record>)
    ensures ToldLast(records, (record: Record, x) => record.body == CustomTitle(x), Last(CustomTitleOf, records))
    ensures ToldLast(records, (record: Record, x) => record.body == AiTitle(x), Last(AiTitleOf, records))
    ensures ToldLast(records, (record: Record, x) => (record.body.User? && record.body.permissionMode == Some(x)) || record.body == PermissionMode(Some(x)), Last(PermissionOf, records))
    ensures ToldLast(records, (record: Record, x) => record.body.User? && record.body.origin == NoOrigin && !record.body.hasToolResult && record.body.text.delegation == Some(x),
                     Last(DelegationOf, records))
  {
    hide Last;
    LastIs(CustomTitleOf, (record: Record, x) => record.body == CustomTitle(x), records);
    LastIs(AiTitleOf, (record: Record, x) => record.body == AiTitle(x), records);
    LastIs(PermissionOf, (record: Record, x) => (record.body.User? && record.body.permissionMode == Some(x)) || record.body == PermissionMode(Some(x)), records);
    LastIs(DelegationOf, (record: Record, x) => record.body.User? && record.body.origin == NoOrigin && !record.body.hasToolResult && record.body.text.delegation == Some(x), records);
  }

  /** Every message a user record tells was sent, and every one another agent sent, is listed, and no other. */
  lemma {:induction false} MessagesAre(records: seq<Record>, message: Token)
    ensures message in Every(SentOf, records) <==> exists i :: 0 <= i < |records| && records[i].body.User? && records[i].body.sentMessage == Some(message)
    ensures message in Every(ReceivedOf, records) <==> exists i :: 0 <= i < |records| && records[i].body.User? && records[i].body.origin == Peer(Some(message))
  {
    EveryIs(SentOf, records, message);
    EveryIs(ReceivedOf, records, message);
  }

  lemma {:induction false} EveryIs<T>(of: Record -> Option<T>, records: seq<Record>, x: T)
    ensures x in Every(of, records) <==> exists i :: 0 <= i < |records| && of(records[i]) == Some(x)
  {
    if records != [] {
      var n := |records| - 1;
      EveryIs(of, records[..n], x);
      if i :| 0 <= i < |records| && of(records[i]) == Some(x) { assert i == n || records[..n][i] == records[i]; }
      if i :| 0 <= i < n && of(records[..n][i]) == Some(x) { assert of(records[i]) == Some(x); }
    }
  }

  function TimeOf(record: Record): Option<int> { record.timestamp }

  // ---- the summarizer ----

  /** The summarizer's fields, assigned as each record comes; they tell what all the records accepted so far do. */
  class Summarizer {
    const root: Token
    const promptUuid: Option<Token>
    var cwd: Token
    var hasCwd: bool
    var createdAt: int
    var hasCreatedAt: bool
    var updatedAt: int
    var gitBranch: Option<Token>
    var cliVersion: Option<Token>
    var preview: Option<Token>
    var hasFirstPrompt: bool
    var delegating: bool
    var sentMessages: seq<Token>
    var receivedMessages: seq<Token>
    var permissionMode: Option<Token>
    var customTitle: Option<Token>
    var aiTitle: Option<Token>
    var model: Option<Model>
    var reasoningEffort: Option<Token>
    var fast: bool
    ghost var accepted: seq<Record>

    /** The first time and directory, the last time, branch and version. */
    ghost predicate TellsPlace(records: seq<Record>)
      reads this
    {
      && cwd == First(CwdOf, records).GetOr(root) && hasCwd == First(CwdOf, records).Some?
      && createdAt == First(TimeOf, records).GetOr(0) && hasCreatedAt == First(TimeOf, records).Some?
      && updatedAt == Last(TimeOf, records).GetOr(0)
      && gitBranch == Last(BranchOf, records) && cliVersion == Last(VersionOf, records)
    }

    /** The first prompt, whether Claude was last told to delegate, every message sent and received. */
    ghost predicate TellsPrompts(records: seq<Record>)
      reads this
    {
      && preview == First(PreviewOf(promptUuid), records) && hasFirstPrompt == preview.Some?
      && delegating == Last(DelegationOf, records).GetOr(false)
      && sentMessages == Every(SentOf, records) && receivedMessages == Every(ReceivedOf, records)
    }

    /** The last titles, mode, and what the model's last replies tell. */
    ghost predicate TellsSettings(records: seq<Record>)
      reads this
    {
      && permissionMode == Last(PermissionOf, records)
      && customTitle == Last(CustomTitleOf, records).GetOr(None) && aiTitle == Last(AiTitleOf, records).GetOr(None)
      && model == Last(ModelOf, records) && reasoningEffort == Last(EffortOf, records)
      && fast == Last(FastOf, records).GetOr(false)
    }

    ghost predicate Valid()
      reads this
    {
      TellsPlace(accepted) && TellsPrompts(accepted) && TellsSettings(accepted)
    }

    constructor (root: Token, promptUuid: Option<Token>)
      ensures Valid() && accepted == [] && this.root == root && this.promptUuid == promptUuid
    {
      this.root, this.promptUuid, accepted := root, promptUuid, [];
      cwd, hasCwd, createdAt, hasCreatedAt, updatedAt, gitBranch, cliVersion := root, false, 0, false, 0, None, None;
      preview, hasFirstPrompt, delegating, sentMessages, receivedMessages := None, false, false, [], [];
      permissionMode, customTitle, aiTitle, model, reasoningEffort, fast := None, None, None, None, None, false;
    }

    method AcceptPlace(record: Record)
      requires TellsPlace(accepted)
      modifies this`cwd, this`hasCwd, this`createdAt, this`hasCreatedAt, this`updatedAt, this`gitBranch, this`cliVersion
      ensures TellsPlace(accepted + [record])
    {
      hide First, Last;
      FirstOne(CwdOf, accepted, record);
      FirstOne(TimeOf, accepted, record);
      LastOne(TimeOf, accepted, record);
      LastOne(BranchOf, accepted, record);
      LastOne(VersionOf, accepted, record);
      var timestamp := record.timestamp;
      if !hasCreatedAt && timestamp.Some? { createdAt, hasCreatedAt := timestamp.value, true; }
      if timestamp.Some? { updatedAt := timestamp.value; }
      if record.IsChain() {
        if record.cwd.Some? && !hasCwd { cwd, hasCwd := record.cwd.value, true; }
        if record.gitBranch.Some? { gitBranch := record.gitBranch; }
        if record.version.Some? { cliVersion := record.version; }
      }
    }

    method AcceptPrompt(record: Record)
      requires TellsPrompts(accepted)
      modifies this`preview, this`hasFirstPrompt, this`delegating, this`sentMessages, this`receivedMessages
      ensures TellsPrompts(accepted + [record])
    {
      hide First, Last, Every;
      FirstOne(PreviewOf(promptUuid), accepted, record);
      LastOne(DelegationOf, accepted, record);
      EveryOne(SentOf, accepted, record);
      EveryOne(ReceivedOf, accepted, record);
      if !record.body.User? { return; }
      var user := record.body;
      if !hasFirstPrompt && StartsTurn(record, promptUuid) {
        preview := Some(if user.text.command.Some? then user.text.command.value.preview else user.text.preview);
        hasFirstPrompt := true;
      }
      if user.origin.NoOrigin? && !user.hasToolResult && user.text.delegation.Some? { delegating := user.text.delegation.value; }
      if user.sentMessage.Some? { sentMessages := sentMessages + [user.sentMessage.value]; }
      if user.origin.Peer? && user.origin.messageId.Some? { receivedMessages := receivedMessages + [user.origin.messageId.value]; }
    }

    method AcceptSettings(record: Record)
      requires TellsSettings(accepted)
      modifies this`permissionMode, this`customTitle, this`aiTitle, this`model, this`reasoningEffort, this`fast
      ensures TellsSettings(accepted + [record])
    {
      hide Last;
      LastOne(PermissionOf, accepted, record);
      LastOne(CustomTitleOf, accepted, record);
      LastOne(AiTitleOf, accepted, record);
      LastOne(ModelOf, accepted, record);
      LastOne(EffortOf, accepted, record);
      LastOne(FastOf, accepted, record);
      match record.body {
        case User(_, _, _, _, _, _, _, mode, _) => if mode.Some? { permissionMode := mode; }
        case Assistant(replied, effort, stopped, speed) =>
          // Claude's own replies (its errors) tell nothing of the model it runs.
          if replied != Some(Synthetic) {
            if replied.Some? { model := replied; }
            if effort.Some? { reasoningEffort := effort; }
            if stopped { fast := speed; }
          }
        case CustomTitle(title) => customTitle := title;
        case AiTitle(title) => aiTitle := title;
        case PermissionMode(mode) => if mode.Some? { permissionMode := mode; }
        case _ =>
      }
    }

    /** Accepts a record. */
    method Accept(record: Record)
      requires Valid()
      modifies this
      ensures Valid() && accepted == old(accepted) + [record]
    {
      hide First, Last, Every, PreviewOf;
      AcceptPlace(record);
      AcceptPrompt(record);
      AcceptSettings(record);
      accepted := accepted + [record];
    }
  }
}
