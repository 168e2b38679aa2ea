/**
 * Pages of a lineage's stitched turns, newest first, each segment paging on its own backend (`stitchedPage`,
 * `pagePosition`, `segmentStart`, `segmentOf` of src/gateway/lineage.ts).
 */
module Stitching {
  import opened Basics
  import opened Pagination
  import opened Segments

  datatype Anchor = Anchor(turnId: Id, inclusive: bool)

  /** A backend's own cursor: Claude's names a turn, stock's an ordinal (how many turns are older). */
  datatype BackendCursor = ClaudeCursor(text: CursorText) | StockCursor(older: nat)

  /** Where a stitched page goes on; `marker`: the segment's switch marker is next. */
  datatype Position = At(segment: int, cursor: Option<BackendCursor>, skipTo: Option<Anchor>, marker: bool)

  /** A client's cursor: a page's position, a turn anchor, or stock's own from before the thread switched provider. */
  datatype ClientCursor =
    | PageCursor(at: Position)
    | TurnCursor(anchor: Anchor, segment: Option<int>)
    | OwnStockCursor(threadId: Id, cursor: BackendCursor)

  datatype BackendPage = BackendPage(turns: seq<Id>, next: Option<BackendCursor>)

  datatype PageOfTurns = PageOfTurns(data: seq<Id>, next: Option<Position>, backwards: Option<ClientCursor>, segments: seq<int>)

  function Itself(): Id -> Id { (id: Id) => id }

  function Every(): Id -> bool { (id: Id) => true }

  // ---- a backend's turns past a cursor, and what a segment shows of them ----

  function Left(turns: seq<Id>, cursor: Option<BackendCursor>): seq<Id> {
    match cursor
    case None => Reverse(turns)
    case Some(StockCursor(older)) => Reverse(turns[..Min(older, |turns|)])
    case Some(ClaudeCursor(text)) =>
      match Remaining(turns, TurnKey, Itself(), Some(text), Desc, Every())
      case Ok(rest) => rest
      case Err(_) => []
  }

  ghost predicate CursorFits(turns: seq<Id>, provider: Provider, cursor: Option<BackendCursor>) {
    match cursor
    case None => true
    case Some(StockCursor(older)) => provider.Codex? && older <= |turns|
    case Some(ClaudeCursor(text)) => provider.Claude? && Remaining(turns, TurnKey, Itself(), Some(text), Desc, Every()).Ok?
  }

  /** Newest first, the turns from an anchor on (none when it is not among them). */
  function Skipped(turns: seq<Id>, skipTo: Option<Anchor>): seq<Id> {
    if skipTo.None? || turns == [] then turns
    else if turns[0] != skipTo.value.turnId then Skipped(turns[1..], skipTo)
    else if skipTo.value.inclusive then turns else turns[1..]
  }

  function StillSkipping(turns: seq<Id>, skipTo: Option<Anchor>): Option<Anchor> {
    if skipTo.Some? && skipTo.value.turnId in turns then None else skipTo
  }

  lemma {:induction false} SkippedConcat(a: seq<Id>, b: seq<Id>, skipTo: Option<Anchor>)
    ensures Skipped(a + b, skipTo) == Skipped(a, skipTo) + Skipped(b, StillSkipping(a, skipTo))
  {
    if a == [] {
      assert a + b == b;
    } else if skipTo.Some? {
      assert (a + b)[1..] == a[1..] + b;
      if a[0] != skipTo.value.turnId { SkippedConcat(a[1..], b, skipTo); }
    }
  }

  lemma {:induction false} SkipNone(skipTo: Option<Anchor>)
    ensures Skipped([], skipTo) == [] && StillSkipping([], skipTo) == skipTo
  {}

  /** One more turn of a page: skipped, the anchor itself, or taken. */
  lemma {:induction false} SkipStep(turns: seq<Id>, i: nat, skipTo: Option<Anchor>)
    requires i < |turns|
    ensures var before, after := StillSkipping(turns[..i], skipTo), StillSkipping(turns[..i + 1], skipTo);
            var found := before.Some? && turns[i] == before.value.turnId;
            && after == (if found then None else before)
            && Skipped(turns[i..], before)
               == (if before.None? || (found && before.value.inclusive) then [turns[i]] else []) + Skipped(turns[i + 1..], after)
  {
    assert turns[..i + 1] == turns[..i] + [turns[i]];
    assert turns[i..] == [turns[i]] + turns[i + 1..] && turns[i..][1..] == turns[i + 1..];
  }

  lemma {:induction false} SkippedAbsent(turns: seq<Id>, skipTo: Anchor)
    requires skipTo.turnId !in turns
    ensures Skipped(turns, Some(skipTo)) == []
  {
    if turns != [] { SkippedAbsent(turns[1..], skipTo); }
  }

  /** Skipping to the turn at `at` of a list without repeats, newest first, leaves the list before it. */
  lemma {:induction false} SkippedReverse(turns: seq<Id>, at: nat, inclusive: bool)
    requires Distinct(turns) && at < |turns|
    ensures Skipped(Reverse(turns), Some(Anchor(turns[at], inclusive))) == Reverse(turns[..if inclusive then at + 1 else at])
    decreases |turns|
  {
    var last := |turns| - 1;
    assert Reverse(turns)[1..] == Reverse(turns[..last]);
    if at < last {
      SkippedReverse(turns[..last], at, inclusive);
      assert turns[..last][..if inclusive then at + 1 else at] == turns[..if inclusive then at + 1 else at];
    } else {
      assert turns[..|turns|] == turns;
    }
  }

  // ---- what a position still has to show ----

  ghost predicate PositionFits(backends: Backends, segments: seq<Segment>, at: Position)
    requires Present(backends, segments)
  {
    && -1 <= at.segment < |segments|
    && (at.segment >= 0 ==>
          at.marker || CursorFits(backends[segments[at.segment].threadId], segments[at.segment].provider, at.cursor))
  }

  /** The rest of a position's own segment, newest first. */
  function OwnRest(backends: Backends, segments: seq<Segment>, at: Position): seq<Id>
    requires Present(backends, segments) && 0 <= at.segment < |segments|
  {
    var segment := segments[at.segment];
    (if at.marker then [] else Skipped(Left(backends[segment.threadId], at.cursor), at.skipTo))
    + if at.marker || Marked(segments, at.segment) then [SwitchOf(segment.threadId)] else []
  }

  /** All that is left from a position, newest first. */
  function Rest(backends: Backends, segments: seq<Segment>, at: Position): seq<Id>
    requires Present(backends, segments) && -1 <= at.segment < |segments|
  {
    if at.segment < 0 then [] else OwnRest(backends, segments, at) + Newest(backends, segments, at.segment)
  }

  /** Where a segment's turns start, newest first (a segment before the first one: nowhere). */
  function SegmentStart(segments: seq<Segment>, index: int): Position
    requires index < |segments|
  {
    if index < 0 || segments[index].lastTurnId.None? then At(index, None, None, false)
    else match segments[index].provider
         case Claude => At(index, Some(ClaudeCursor(Encoded(TurnKey, segments[index].lastTurnId.value, true))), None, false)
         case Codex => At(index, None, Some(Anchor(segments[index].lastTurnId.value, true)), false)
  }

  lemma {:induction false} EveryKept(turns: seq<Id>)
    ensures Filter(Every(), turns) == turns
  {
    FilterAll(Every(), turns);
  }

  /** A Claude anchor leaves the turns before it. */
  lemma {:induction false} ClaudeLeft(turns: seq<Id>, at: nat, inclusive: bool)
    requires Distinct(turns) && at < |turns|
    ensures var cursor := Some(ClaudeCursor(Encoded(TurnKey, turns[at], inclusive)));
            && CursorFits(turns, Claude, cursor)
            && Left(turns, cursor) == Reverse(turns[..if inclusive then at + 1 else at])
  {
    FindDistinct(turns, Itself(), at);
    EveryKept(Side(turns, Desc, SliceAt(Desc, inclusive, at)));
  }

  /** A segment's start shows its backend's turns up to its cut. */
  lemma {:induction false} StartOwn(turns: seq<Id>, segments: seq<Segment>, index: nat)
    requires index < |segments| && Distinct(turns)
    requires segments[index].lastTurnId.Some? ==> segments[index].lastTurnId.value in turns
    ensures var at := SegmentStart(segments, index);
            && CursorFits(turns, segments[index].provider, at.cursor)
            && Skipped(Left(turns, at.cursor), at.skipTo) == Reverse(CutTurns(turns, segments[index].lastTurnId))
  {
    var segment := segments[index];
    if segment.lastTurnId.Some? {
      var end := IndexOf(turns, segment.lastTurnId.value);
      if segment.provider.Claude? { ClaudeLeft(turns, end, true); }
      else { SkippedReverse(turns, end, true); }
    }
  }

  /** A segment starts with its newest turn, and what it has left is its turns and then the older segments'. */
  lemma {:induction false} StartRest(backends: Backends, segments: seq<Segment>, index: int)
    requires Lineage(backends, segments) && -1 <= index < |segments|
    ensures var at := SegmentStart(segments, index);
            && at.segment == index && !at.marker
            && PositionFits(backends, segments, at)
            && Rest(backends, segments, at) == Newest(backends, segments, index + 1)
  {
    hide Left, Skipped, CursorFits, CutTurns;
    if index >= 0 {
      var segment := segments[index];
      var turns := backends[segment.threadId];
      StartOwn(turns, segments, index);
      var mark := if Marked(segments, index) then [SwitchOf(segment.threadId)] else [];
      var own := CutTurns(turns, segment.lastTurnId);
      assert Reverse(mark + own) == Reverse(own) + mark;
    }
  }

  // ---- one backend's page ----

  /** A page of one backend: the next turns past the cursor, at most `limit`, and a cursor for the rest if any. */
  ghost predicate IsBackendPage(turns: seq<Id>, provider: Provider, cursor: Option<BackendCursor>, limit: nat, page: BackendPage) {
    var left := Left(turns, cursor);
    && |page.turns| <= limit
    && page.turns <= left
    && match page.next
       case None => page.turns == left
       case Some(next) => page.turns != [] && CursorFits(turns, provider, page.next) && Left(turns, page.next) == left[|page.turns|..]
  }

  /** Claude's backend pages its turns with `paginateTurns`. */
  lemma {:induction false} ClaudePage(turns: seq<Id>, cursor: Option<BackendCursor>, limit: nat, page: Page<Id>)
    requires Distinct(turns) && 1 <= limit <= 100
    requires CursorFits(turns, Claude, cursor)
    requires Paginate(turns, TurnKey, Itself(), PageParams(if cursor.None? then None else Some(cursor.value.text), Some(limit), Some(Desc)), Desc, Every()) == Ok(page)
    ensures IsBackendPage(turns, Claude, cursor, limit,
                          BackendPage(page.data, if page.nextCursor.None? then None else Some(ClaudeCursor(page.nextCursor.value))))
  {
    hide Paginate, FindIndex, Remaining, Left, CursorFits, Distinct;
    ClaudeRemaining(turns, cursor);
    var text := if cursor.None? then None else Some(cursor.value.text);
    PageIs(turns, TurnKey, Itself(), PageParams(text, Some(limit), Some(Desc)), Desc, Every());
    if page.nextCursor.Some? {
      DistinctItself(turns);
      NextRemaining(turns, TurnKey, Itself(), text, Desc, Every(), limit);
      ClaudeLeaves(turns, page.nextCursor.value);
    }
  }

  lemma {:induction false} DistinctItself(turns: seq<Id>)
    requires Distinct(turns)
    ensures DistinctIds(turns, Itself())
  {}

  /** What a cursor of Claude's leaves. */
  lemma {:induction false} ClaudeLeaves(turns: seq<Id>, text: CursorText)
    requires Remaining(turns, TurnKey, Itself(), Some(text), Desc, Every()).Ok?
    ensures CursorFits(turns, Claude, Some(ClaudeCursor(text)))
    ensures Left(turns, Some(ClaudeCursor(text))) == Remaining(turns, TurnKey, Itself(), Some(text), Desc, Every()).value
  {
    hide Remaining;
  }

  lemma {:induction false} ClaudeRemaining(turns: seq<Id>, cursor: Option<BackendCursor>)
    requires CursorFits(turns, Claude, cursor)
    ensures cursor.Some? ==> cursor.value.ClaudeCursor?
    ensures Remaining(turns, TurnKey, Itself(), if cursor.None? then None else Some(cursor.value.text), Desc, Every()) == Ok(Left(turns, cursor))
  {
    if cursor.None? {
      EveryKept(Reverse(turns));
      assert turns[..|turns|] == turns;
    }
  }

  // ---- moving a position on ----

  /** Where a page's position goes after a backend page of its segment. */
  function Advance(segments: seq<Segment>, at: Position, page: BackendPage, skipLeft: Option<Anchor>): Position
    requires 0 <= at.segment < |segments|
  {
    if page.next.Some? then At(at.segment, page.next, skipLeft, false)
    else if Marked(segments, at.segment) then At(at.segment, None, None, true)
    else SegmentStart(segments, at.segment - 1)
  }

  /** What a segment shows after its own turns: its marker, and the older segments. */
  function AfterTurns(backends: Backends, segments: seq<Segment>, index: nat): seq<Id>
    requires Present(backends, segments) && index < |segments|
  {
    (if Marked(segments, index) then [SwitchOf(segments[index].threadId)] else []) + Newest(backends, segments, index)
  }

  lemma {:induction false} RestOpens(backends: Backends, segments: seq<Segment>, at: Position)
    requires Present(backends, segments) && 0 <= at.segment < |segments|
    ensures Rest(backends, segments, at) ==
            if at.marker then [SwitchOf(segments[at.segment].threadId)] + Newest(backends, segments, at.segment)
            else Skipped(Left(backends[segments[at.segment].threadId], at.cursor), at.skipTo) + AfterTurns(backends, segments, at.segment)
  {
    hide Left, Skipped, Newest;
    var own := if at.marker then [] else Skipped(Left(backends[segments[at.segment].threadId], at.cursor), at.skipTo);
    var mark := if at.marker || Marked(segments, at.segment) then [SwitchOf(segments[at.segment].threadId)] else [];
    var older := Newest(backends, segments, at.segment);
    assert (own + mark) + older == own + (mark + older);
    assert [] + mark == mark;
  }

  /** A page's turns are the first of those left, and its next cursor leaves the others. */
  lemma {:induction false} PageLeaves(turns: seq<Id>, provider: Provider, cursor: Option<BackendCursor>, limit: nat, page: BackendPage, skipTo: Option<Anchor>)
    requires IsBackendPage(turns, provider, cursor, limit, page)
    ensures var skipLeft := StillSkipping(page.turns, skipTo);
            && (page.next.Some? ==>
                  && CursorFits(turns, provider, page.next) && |Left(turns, page.next)| < |Left(turns, cursor)|
                  && Skipped(Left(turns, cursor), skipTo) == Skipped(page.turns, skipTo) + Skipped(Left(turns, page.next), skipLeft))
            && (page.next.None? ==> Skipped(Left(turns, cursor), skipTo) == Skipped(page.turns, skipTo))
  {
    hide Left, Skipped, CursorFits;
    var left := Left(turns, cursor);
    var later := left[|page.turns|..];
    assert left == page.turns + later;
    SkippedConcat(page.turns, later, skipTo);
  }

  /** A backend page's turns past the skipped ones, and then what is left from the next position, are what was left. */
  lemma {:induction false} AdvanceRest(backends: Backends, segments: seq<Segment>, at: Position, page: BackendPage, limit: nat)
    requires Lineage(backends, segments) && PositionFits(backends, segments, at) && at.segment >= 0 && !at.marker
    requires IsBackendPage(backends[segments[at.segment].threadId], segments[at.segment].provider, at.cursor, limit, page)
    ensures var next := Advance(segments, at, page, StillSkipping(page.turns, at.skipTo));
            && PositionFits(backends, segments, next)
            && Rest(backends, segments, at) == Skipped(page.turns, at.skipTo) + Rest(backends, segments, next)
            && (page.next.Some? ==>
                  |Left(backends[segments[at.segment].threadId], next.cursor)| < |Left(backends[segments[at.segment].threadId], at.cursor)|)
  {
    hide CursorFits, CutTurns, Newest, Left, Skipped, Rest, IsBackendPage, StillSkipping;
    var turns := backends[segments[at.segment].threadId];
    PageLeaves(turns, segments[at.segment].provider, at.cursor, limit, page, at.skipTo);
    RestOpens(backends, segments, at);
    var next := Advance(segments, at, page, StillSkipping(page.turns, at.skipTo));
    if page.next.Some? || Marked(segments, at.segment) {
      RestOpens(backends, segments, next);
    } else {
      StartRest(backends, segments, at.segment - 1);
      assert [] + Newest(backends, segments, at.segment) == Newest(backends, segments, at.segment);
    }
    hide Advance, Marked, Lineage;
  }

  /** The marker of a segment, and then what is left in the older segments, are what was left. */
  lemma {:induction false} MarkerRest(backends: Backends, segments: seq<Segment>, at: Position)
    requires Lineage(backends, segments) && PositionFits(backends, segments, at) && at.segment >= 0 && at.marker
    ensures var next := SegmentStart(segments, at.segment - 1);
            && PositionFits(backends, segments, next)
            && Rest(backends, segments, at) == [SwitchOf(segments[at.segment].threadId)] + Rest(backends, segments, next)
  {
    hide CursorFits, CutTurns, Newest, Left, Skipped, Rest;
    RestOpens(backends, segments, at);
    StartRest(backends, segments, at.segment - 1);
  }

  // ---- pages ----

  datatype StitchError = TurnNotFound

  /** Each of these turns is the marker of its segment, or its backend's. */
  ghost predicate FoundThere(backends: Backends, segments: seq<Segment>, turns: seq<Id>, origins: seq<int>)
    requires Present(backends, segments)
  {
    && |turns| == |origins|
    && forall i :: 0 <= i < |turns| ==>
         && 0 <= origins[i] < |segments|
         && var thread := segments[origins[i]].threadId;
            turns[i] == SwitchOf(thread) || turns[i] in backends[thread]
  }

  /** A page from a position: the first `limit` of the turns left, and a position for the rest when more may follow. */
  ghost predicate IsPageFrom(backends: Backends, segments: seq<Segment>, at: Position, limit: nat, page: PageOfTurns)
    requires Present(backends, segments) && -1 <= at.segment < |segments|
  {
    var rest := Rest(backends, segments, at);
    && page.data == rest[..Min(limit, |rest|)]
    && FoundThere(backends, segments, page.data, page.segments)
    && page.backwards == (if page.data == [] then None else Some(TurnCursor(Anchor(page.data[0], true), Some(page.segments[0]))))
    && match page.next
       case None => |rest| <= limit
       case Some(next) =>
         && next.segment >= 0 && limit <= |rest|
         && PositionFits(backends, segments, next)
         && Rest(backends, segments, next) == rest[limit..]
  }

  // ---- where pages found turns ----

  type TurnSegments = map<Id, Id>

  ghost predicate CacheRight(backends: Backends, cache: TurnSegments) {
    forall t :: t in cache ==> cache[t] in backends && t in backends[cache[t]]
  }

  /** A cache that only learnt turns of the lineage's own backends. */
  ghost predicate Learnt(backends: Backends, segments: seq<Segment>, before: TurnSegments, after: TurnSegments)
    requires Present(backends, segments)
  {
    && before.Keys <= after.Keys
    && forall t :: t in after ==>
         || (t in before && after[t] == before[t])
         || exists i :: 0 <= i < |segments| && after[t] == segments[i].threadId && t in backends[segments[i].threadId]
  }

  ghost predicate Remembers(cache: TurnSegments, segments: seq<Segment>, turns: seq<Id>, origins: seq<int>) {
    && |turns| == |origins|
    && forall i :: 0 <= i < |turns| ==>
         && 0 <= origins[i] < |segments|
         && (turns[i].SwitchOf? || (turns[i] in cache && cache[turns[i]] == segments[origins[i]].threadId))
  }

  /** The cache after noting turns as found in a backend. */
  function Noted(cache: TurnSegments, turns: seq<Id>, threadId: Id): (r: TurnSegments)
    ensures r.Keys == cache.Keys + set t | t in turns
    ensures forall t :: t in r ==> r[t] == if t in turns then threadId else cache[t]
  {
    if turns == [] then cache
    else
      var last := |turns| - 1;
      assert turns == turns[..last] + [turns[last]];
      Noted(cache, turns[..last], threadId)[turns[last] := threadId]
  }

  predicate Locates(cache: TurnSegments, segment: Segment, turnId: Id) {
    turnId == SwitchOf(segment.threadId) || (turnId in cache && cache[turnId] == segment.threadId)
  }

  function Locate(cache: TurnSegments, segments: seq<Segment>, turnId: Id): (i: int)
    ensures -1 <= i < |segments|
    ensures 0 <= i ==> Locates(cache, segments[i], turnId)
    ensures i < 0 ==> forall j :: 0 <= j < |segments| ==> !Locates(cache, segments[j], turnId)
  {
    if segments == [] then -1
    else if Locates(cache, segments[0], turnId) then 0
    else var rest := Locate(cache, segments[1..], turnId);
         if rest < 0 then -1 else rest + 1
  }

  /** Claude's `thread/turns/list`, newest first. */
  method ClaudeTurnsPage(turns: seq<Id>, limit: nat, cursor: Option<BackendCursor>) returns (page: BackendPage)
    requires 1 <= limit <= 100 && Distinct(turns) && CursorFits(turns, Claude, cursor)
    ensures IsBackendPage(turns, Claude, cursor, limit, page)
  {
    hide Paginate, IsBackendPage;
    var text := if cursor.None? then None else Some(cursor.value.text);
    var params := PageParams(text, Some(limit), Some(Desc));
    ClaudeRemaining(turns, cursor);
    PageIs(turns, TurnKey, Itself(), params, Desc, Every());
    var answer := Paginate(turns, TurnKey, Itself(), params, Desc, Every());
    ClaudePage(turns, cursor, limit, answer.value);
    page := BackendPage(answer.value.data, if answer.value.nextCursor.None? then None else Some(ClaudeCursor(answer.value.nextCursor.value)));
  }

  lemma {:induction false} StockPage(turns: seq<Id>, older: nat, size: nat)
    requires 1 <= size <= older <= |turns|
    ensures var taken := Reverse(turns[older - size..older]);
            && taken != []
            && Reverse(turns[..older]) == taken + Reverse(turns[..older - size])
  {
    assert turns[..older] == turns[..older - size] + turns[older - size..older];
    ReverseConcat(turns[..older - size], turns[older - size..older]);
  }

  /** Stock's `thread/turns/list`, newest first: as many of the older turns as it likes, and its own cursor for the rest. */
  method StockTurnsPage(turns: seq<Id>, limit: nat, cursor: Option<BackendCursor>) returns (page: BackendPage)
    requires 1 <= limit <= 100 && CursorFits(turns, Codex, cursor)
    ensures IsBackendPage(turns, Codex, cursor, limit, page)
  {
    hide Remaining;
    var older := if cursor.None? then |turns| else cursor.value.older;
    assert turns[..|turns|] == turns;
    if older == 0 { return BackendPage([], None); }
    var size: nat := *;
    if size < 1 || size > limit || size > older { size := 1; }
    var mentionsEnd: bool := *;
    StockPage(turns, older, size);
    page := BackendPage(Reverse(turns[older - size..older]), if size == older && !mentionsEnd then None else Some(StockCursor(older - size)));
  }

  // ---- where a client's cursor stands ----

  function FirstSegment(segments: seq<Segment>, threadId: Id): (i: int)
    ensures -1 <= i < |segments|
    ensures 0 <= i ==> segments[i].threadId == threadId
    ensures forall k :: 0 <= k < |segments| && (i < 0 || k < i) ==> segments[k].threadId != threadId
  {
    if segments == [] then -1
    else if segments[0].threadId == threadId then 0
    else var rest := FirstSegment(segments[1..], threadId);
         if rest < 0 then -1 else rest + 1
  }

  /** Whether a turn is a segment's own: its marker, or its backend's. */
  predicate HoldsTurn(backends: Backends, segments: seq<Segment>, index: int, turnId: Id)
    requires Present(backends, segments)
  {
    && 0 <= index < |segments|
    && (turnId == SwitchOf(segments[index].threadId) || turnId in backends[segments[index].threadId])
  }

  /** The position of a turn anchor in its segment. */
  function AnchorPosition(segments: seq<Segment>, index: nat, anchor: Anchor): Position
    requires index < |segments|
  {
    if anchor.turnId.SwitchOf? then
      if anchor.inclusive then At(index, None, None, true) else SegmentStart(segments, index - 1)
    else match segments[index].provider
         case Claude => At(index, Some(ClaudeCursor(Encoded(TurnKey, anchor.turnId, anchor.inclusive))), None, false)
         case Codex => At(index, None, Some(anchor), false)
  }

  /** Cursors the gateway hands out for a lineage. */
  ghost predicate CursorOk(backends: Backends, segments: seq<Segment>, cursor: Option<ClientCursor>)
    requires Present(backends, segments)
  {
    match cursor
    case None => true
    case Some(PageCursor(at)) => PositionFits(backends, segments, at)
    case Some(TurnCursor(anchor, None)) => true
    case Some(TurnCursor(anchor, Some(segment))) => HoldsTurn(backends, segments, segment, anchor.turnId)
    case Some(OwnStockCursor(threadId, own)) =>
      PositionFits(backends, segments, At(FirstSegment(segments, threadId), Some(own), None, false))
  }

  /** The position a cursor stands for (an anchor without a segment: in whichever segment holds its turn). */
  ghost predicate StandsFor(backends: Backends, segments: seq<Segment>, cursor: Option<ClientCursor>, at: Position)
    requires Present(backends, segments) && segments != []
  {
    match cursor
    case None => at == SegmentStart(segments, |segments| - 1)
    case Some(PageCursor(position)) => at == position
    case Some(OwnStockCursor(threadId, own)) => at == At(FirstSegment(segments, threadId), Some(own), None, false)
    case Some(TurnCursor(anchor, segment)) =>
      exists i :: HoldsTurn(backends, segments, i, anchor.turnId) && at == AnchorPosition(segments, i, anchor)
                  && (segment.Some? ==> segment.value == i)
  }

  lemma {:induction false} NewestStart(backends: Backends, segments: seq<Segment>)
    requires Lineage(backends, segments)
    ensures StandsFor(backends, segments, None, SegmentStart(segments, |segments| - 1))
    ensures PositionFits(backends, segments, SegmentStart(segments, |segments| - 1))
  {
    StartRest(backends, segments, |segments| - 1);
  }

  lemma {:induction false} AnchorFits(backends: Backends, segments: seq<Segment>, index: nat, anchor: Anchor)
    requires Lineage(backends, segments) && HoldsTurn(backends, segments, index, anchor.turnId)
    ensures PositionFits(backends, segments, AnchorPosition(segments, index, anchor))
  {
    if anchor.turnId.SwitchOf? {
      StartRest(backends, segments, index - 1);
    } else {
      var turns := backends[segments[index].threadId];
      ClaudeLeft(turns, IndexOf(turns, anchor.turnId), anchor.inclusive);
    }
  }

  /** What was remembered stays so while the cache only learns: a turn is of one segment. */
  lemma {:induction false} RememberedStays(backends: Backends, segments: seq<Segment>, before: TurnSegments, after: TurnSegments, turns: seq<Id>, origins: seq<int>)
    requires Lineage(backends, segments) && Learnt(backends, segments, before, after)
    requires FoundThere(backends, segments, turns, origins) && Remembers(before, segments, turns, origins)
    ensures Remembers(after, segments, turns, origins)
  {}

  lemma {:induction false} LearntTwice(backends: Backends, segments: seq<Segment>, a: TurnSegments, b: TurnSegments, c: TurnSegments)
    requires Present(backends, segments) && Learnt(backends, segments, a, b) && Learnt(backends, segments, b, c)
    ensures Learnt(backends, segments, a, c)
  {}

  lemma {:induction false} SkippedIn(turns: seq<Id>, skipTo: Option<Anchor>, t: Id)
    requires t in Skipped(turns, skipTo)
    ensures t in turns
  {
    if skipTo.Some? && turns != [] && turns[0] != skipTo.value.turnId { SkippedIn(turns[1..], skipTo, t); }
  }

  lemma {:induction false} LeftIn(turns: seq<Id>, cursor: Option<BackendCursor>, t: Id)
    requires t in Left(turns, cursor)
    ensures t in turns
  {
    hide Filter, CutOf;
    match cursor {
      case None => ReverseMember(turns, t);
      case Some(StockCursor(older)) => ReverseMember(turns[..Min(older, |turns|)], t);
      case Some(ClaudeCursor(text)) =>
        if turns != [] {
          var cut := CutOf(turns, TurnKey, Itself(), Some(text), Desc).value;
          EveryKept(Side(turns, Desc, cut));
          ReverseMember(turns[..cut], t);
        }
    }
  }

  lemma {:induction false} PageTurnsIn(turns: seq<Id>, provider: Provider, cursor: Option<BackendCursor>, limit: nat, page: BackendPage)
    requires IsBackendPage(turns, provider, cursor, limit, page)
    ensures forall t :: t in page.turns ==> t in turns
  {
    hide Left;
    forall t | t in page.turns ensures t in turns {
      assert t in Left(turns, cursor)[..|page.turns|];
      LeftIn(turns, cursor, t);
    }
  }

  /** Noting turns of a backend keeps the cache right. */
  lemma {:induction false} NotedRight(backends: Backends, segments: seq<Segment>, index: nat, cache: TurnSegments, turns: seq<Id>)
    requires Present(backends, segments) && index < |segments| && CacheRight(backends, cache)
    requires forall t :: t in turns ==> t in backends[segments[index].threadId]
    ensures var after := Noted(cache, turns, segments[index].threadId);
            CacheRight(backends, after) && Learnt(backends, segments, cache, after)
  {
    var after := Noted(cache, turns, segments[index].threadId);
    forall t | t in after
      ensures (t in cache && after[t] == cache[t]) || (after[t] == segments[index].threadId && t in backends[segments[index].threadId])
    {}
  }

  /** The turns taken from a noted page are found in its segment, and remembered. */
  lemma {:induction false} TakenFound(backends: Backends, segments: seq<Segment>, index: nat, cache: TurnSegments, turns: seq<Id>, skipTo: Option<Anchor>)
    requires Present(backends, segments) && index < |segments|
    requires forall t :: t in turns ==> t in backends[segments[index].threadId]
    ensures var taken := Skipped(turns, skipTo);
            var origins := seq(|taken|, _ => index);
            FoundThere(backends, segments, taken, origins) && Remembers(Noted(cache, turns, segments[index].threadId), segments, taken, origins)
  {
    hide Skipped;
    var taken := Skipped(turns, skipTo);
    forall i | 0 <= i < |taken| ensures taken[i] in turns { SkippedIn(turns, skipTo, taken[i]); }
  }

  lemma {:induction false} SkippedShorter(turns: seq<Id>, skipTo: Option<Anchor>)
    ensures |Skipped(turns, skipTo)| <= |turns|
  {
    if skipTo.Some? && turns != [] { SkippedShorter(turns[1..], skipTo); }
  }

  ghost function Rank(cursor: Option<ClientCursor>): nat {
    if cursor.Some? && cursor.value.TurnCursor? then 1 else 0
  }

  ghost function LeftAt(backends: Backends, segments: seq<Segment>, at: Position): nat
    requires Present(backends, segments) && at.segment < |segments|
  {
    if at.segment < 0 || at.marker then 0 else |Left(backends[segments[at.segment].threadId], at.cursor)| + 1
  }

  // ---- a page being gathered ----

  /** Gathered so far from `start`: `data`, with where each was found; `at` is where the gathering goes on. */
  ghost predicate Gathered(backends: Backends, segments: seq<Segment>, known: TurnSegments, cache: TurnSegments,
                           start: Position, at: Position, data: seq<Id>, origins: seq<int>)
    requires Present(backends, segments)
  {
    && CacheRight(backends, cache) && Learnt(backends, segments, known, cache)
    && PositionFits(backends, segments, start) && PositionFits(backends, segments, at)
    && Rest(backends, segments, start) == data + Rest(backends, segments, at)
    && FoundThere(backends, segments, data, origins) && Remembers(cache, segments, data, origins)
  }

  lemma {:induction false} JoinFound(backends: Backends, segments: seq<Segment>, cache: TurnSegments, turns: seq<Id>, origins: seq<int>, turns': seq<Id>, origins': seq<int>)
    requires Present(backends, segments)
    requires FoundThere(backends, segments, turns, origins) && Remembers(cache, segments, turns, origins)
    requires FoundThere(backends, segments, turns', origins') && Remembers(cache, segments, turns', origins')
    ensures FoundThere(backends, segments, turns + turns', origins + origins') && Remembers(cache, segments, turns + turns', origins + origins')
  {}

  lemma {:induction false} MarkFound(backends: Backends, segments: seq<Segment>, cache: TurnSegments, index: nat)
    requires Present(backends, segments) && index < |segments|
    ensures var mark := [SwitchOf(segments[index].threadId)];
            FoundThere(backends, segments, mark, [index]) && Remembers(cache, segments, mark, [index])
  {}

  lemma {:induction false} SegmentReady(backends: Backends, segments: seq<Segment>, known: TurnSegments, cache: TurnSegments,
                     start: Position, at: Position, data: seq<Id>, origins: seq<int>)
    requires Lineage(backends, segments) && Gathered(backends, segments, known, cache, start, at, data, origins)
    requires at.segment >= 0 && !at.marker
    ensures var segment := segments[at.segment];
            segment.threadId in backends && Distinct(backends[segment.threadId]) && CursorFits(backends[segment.threadId], segment.provider, at.cursor)
  {}

  lemma {:induction false} GatherMarker(backends: Backends, segments: seq<Segment>, known: TurnSegments, cache: TurnSegments,
                     start: Position, at: Position, data: seq<Id>, origins: seq<int>)
    requires Lineage(backends, segments) && Gathered(backends, segments, known, cache, start, at, data, origins)
    requires at.segment >= 0 && at.marker
    ensures Gathered(backends, segments, known, cache, start, SegmentStart(segments, at.segment - 1),
                     data + [SwitchOf(segments[at.segment].threadId)], origins + [at.segment])
    ensures SegmentStart(segments, at.segment - 1).segment == at.segment - 1
  {
    MarkerRest(backends, segments, at);
    hide Rest, PositionFits, Learnt, CacheRight, SegmentStart, DistinctTurns, CutsPresent, FoundThere, Remembers;
    var next := SegmentStart(segments, at.segment - 1);
    var mark := [SwitchOf(segments[at.segment].threadId)];
    assert data + (mark + Rest(backends, segments, next)) == (data + mark) + Rest(backends, segments, next);
    MarkFound(backends, segments, cache, at.segment);
    JoinFound(backends, segments, cache, data, origins, mark, [at.segment]);
  }

  lemma {:induction false} GatherPage(backends: Backends, segments: seq<Segment>, known: TurnSegments, cache: TurnSegments,
                   start: Position, at: Position, data: seq<Id>, origins: seq<int>, limit: nat, page: BackendPage)
    requires Lineage(backends, segments) && Gathered(backends, segments, known, cache, start, at, data, origins)
    requires at.segment >= 0 && !at.marker
    requires IsBackendPage(backends[segments[at.segment].threadId], segments[at.segment].provider, at.cursor, limit, page)
    ensures var taken := Skipped(page.turns, at.skipTo);
            var next := Advance(segments, at, page, StillSkipping(page.turns, at.skipTo));
            && Gathered(backends, segments, known, Noted(cache, page.turns, segments[at.segment].threadId), start, next,
                        data + taken, origins + seq(|taken|, _ => at.segment))
            && (next.segment == at.segment ==> LeftAt(backends, segments, next) < LeftAt(backends, segments, at))
            && next.segment <= at.segment
  {
    hide DistinctTurns, CutsPresent, OwnRest, CursorFits, Skipped, Left, Noted, IsBackendPage, Learnt, CacheRight, FoundThere, Remembers, Rest,
         Advance, LeftAt, StillSkipping;
    var turns := backends[segments[at.segment].threadId];
    var taken := Skipped(page.turns, at.skipTo);
    var next := Advance(segments, at, page, StillSkipping(page.turns, at.skipTo));
    var after := Noted(cache, page.turns, segments[at.segment].threadId);
    PageTurnsIn(turns, segments[at.segment].provider, at.cursor, limit, page);
    NotedRight(backends, segments, at.segment, cache, page.turns);
    TakenFound(backends, segments, at.segment, cache, page.turns, at.skipTo);
    AdvanceRest(backends, segments, at, page, limit);
    LearntTwice(backends, segments, known, cache, after);
    RememberedStays(backends, segments, cache, after, data, origins);
    GoesDown(backends, segments, at, page, StillSkipping(page.turns, at.skipTo));
    assert data + (taken + Rest(backends, segments, next)) == (data + taken) + Rest(backends, segments, next);
    JoinFound(backends, segments, after, data, origins, taken, seq(|taken|, _ => at.segment));
  }

  /** The next position is in the segment with less left, or lower. */
  lemma {:induction false} GoesDown(backends: Backends, segments: seq<Segment>, at: Position, page: BackendPage, skipLeft: Option<Anchor>)
    requires Present(backends, segments) && 0 <= at.segment < |segments| && !at.marker
    requires var next := Advance(segments, at, page, skipLeft);
             page.next.Some? && next.segment < |segments| ==> |Left(backends[segments[at.segment].threadId], next.cursor)| < |Left(backends[segments[at.segment].threadId], at.cursor)|
    ensures var next := Advance(segments, at, page, skipLeft);
            && next.segment <= at.segment
            && (next.segment == at.segment ==> LeftAt(backends, segments, next) < LeftAt(backends, segments, at))
  {
    hide Left;
  }

  lemma {:induction false} GatherStart(backends: Backends, segments: seq<Segment>, cache: TurnSegments, start: Position)
    requires Present(backends, segments) && CacheRight(backends, cache) && PositionFits(backends, segments, start)
    ensures Gathered(backends, segments, cache, cache, start, start, [], [])
  {}

  /** What gathering stops with is a page. */
  lemma {:induction false} GatheredPage(backends: Backends, segments: seq<Segment>, known: TurnSegments, cache: TurnSegments,
                     start: Position, at: Position, data: seq<Id>, origins: seq<int>, limit: nat)
    requires Present(backends, segments) && Gathered(backends, segments, known, cache, start, at, data, origins)
    requires 1 <= limit && |data| <= limit && (at.segment < 0 || |data| >= limit)
    ensures IsPageFrom(backends, segments, start, limit, PageOfTurns(
              data, if at.segment >= 0 && data != [] then Some(at) else None,
              if data == [] then None else Some(TurnCursor(Anchor(data[0], true), Some(origins[0]))), origins))
    ensures |origins| == |data| && Remembers(cache, segments, data, origins)
    ensures CacheRight(backends, cache) && Learnt(backends, segments, known, cache) && PositionFits(backends, segments, start)
  {
    hide OwnRest, Newest, CursorFits;
  }

  /** The page a client's cursor and limit ask for. */
  ghost predicate IsStitchedPage(backends: Backends, segments: seq<Segment>, cursor: Option<ClientCursor>, limit: Option<int>, page: PageOfTurns)
    requires Present(backends, segments) && segments != []
  {
    exists at :: PositionFits(backends, segments, at) && StandsFor(backends, segments, cursor, at)
                 && IsPageFrom(backends, segments, at, PageLimit(limit), page)
  }

  /** What a walk has still to show when its next request carries `cursor`. */
  ghost predicate PendingAt(backends: Backends, segments: seq<Segment>, cursor: Option<ClientCursor>, pending: seq<Id>)
    requires Lineage(backends, segments)
  {
    match cursor
    case None => pending == Newest(backends, segments, |segments|)
    case Some(PageCursor(at)) => PositionFits(backends, segments, at) && pending == Rest(backends, segments, at)
    case _ => false
  }

  /** A page of a walk shows the next of what is pending, and leaves the rest. */
  lemma {:induction false} PendingPage(backends: Backends, segments: seq<Segment>, cursor: Option<ClientCursor>, pending: seq<Id>, limit: Option<int>, page: PageOfTurns)
    requires Lineage(backends, segments) && PendingAt(backends, segments, cursor, pending)
    requires IsStitchedPage(backends, segments, cursor, limit, page)
    ensures page.data == pending[..Min(PageLimit(limit), |pending|)] && FoundThere(backends, segments, page.data, page.segments)
    ensures match page.next
            case None => page.data == pending
            case Some(next) => page.data != [] && PendingAt(backends, segments, Some(PageCursor(next)), pending[|page.data|..])
  {
    StartRest(backends, segments, |segments| - 1);
  }

  /** A walk of 100-turn pages: what it showed and where it found it, what is pending, and what the cache learnt. */
  ghost predicate Walked(backends: Backends, segments: seq<Segment>, known: TurnSegments, cache: TurnSegments, cursor: Option<ClientCursor>,
                         more: bool, done: seq<Id>, origins: seq<int>, pending: seq<Id>)
    requires Lineage(backends, segments)
  {
    && CacheRight(backends, cache) && Learnt(backends, segments, known, cache)
    && Newest(backends, segments, |segments|) == done + pending
    && FoundThere(backends, segments, done, origins) && Remembers(cache, segments, done, origins)
    && if more then PendingAt(backends, segments, cursor, pending) else pending == []
  }

  lemma {:induction false} WalkStart(backends: Backends, segments: seq<Segment>, cache: TurnSegments)
    requires Lineage(backends, segments) && CacheRight(backends, cache)
    ensures Walked(backends, segments, cache, cache, None, true, [], [], Newest(backends, segments, |segments|))
  {}

  lemma {:induction false} WalkedFacts(backends: Backends, segments: seq<Segment>, known: TurnSegments, cache: TurnSegments, cursor: Option<ClientCursor>,
                    more: bool, done: seq<Id>, origins: seq<int>, pending: seq<Id>)
    requires Lineage(backends, segments) && Walked(backends, segments, known, cache, cursor, more, done, origins, pending)
    ensures Learnt(backends, segments, known, cache)
    ensures more ==> CursorOk(backends, segments, cursor)
  {}

  lemma {:induction false} WalkPage(backends: Backends, segments: seq<Segment>, known: TurnSegments, cache: TurnSegments, cache': TurnSegments, cursor: Option<ClientCursor>,
                 done: seq<Id>, origins: seq<int>, pending: seq<Id>, page: PageOfTurns)
    requires Lineage(backends, segments) && Walked(backends, segments, known, cache, cursor, true, done, origins, pending)
    requires CacheRight(backends, cache') && Learnt(backends, segments, cache, cache')
    requires IsStitchedPage(backends, segments, cursor, Some(100), page) && Remembers(cache', segments, page.data, page.segments)
    ensures page.data <= pending
    ensures if page.next.None? then page.data == pending else page.data != []
    ensures Walked(backends, segments, known, cache', if page.next.Some? then Some(PageCursor(page.next.value)) else None,
                   page.next.Some?, done + page.data, origins + page.segments, pending[|page.data|..])
  {
    hide DistinctTurns, CutsPresent, Newest, CursorFits, Rest, CacheRight, Learnt, PositionFits, IsStitchedPage, FoundThere, Remembers;
    PendingPage(backends, segments, cursor, pending, Some(100), page);
    LearntTwice(backends, segments, known, cache, cache');
    RememberedStays(backends, segments, cache, cache', done, origins);
    JoinFound(backends, segments, cache', done, origins, page.data, page.segments);
    assert done + pending == (done + page.data) + pending[|page.data|..];
  }

  /** A turn no page of the whole walk located is no stitched turn. */
  lemma {:induction false} NotLocated(backends: Backends, segments: seq<Segment>, known: TurnSegments, cache: TurnSegments, cursor: Option<ClientCursor>,
                   done: seq<Id>, origins: seq<int>, turnId: Id)
    requires Lineage(backends, segments) && Walked(backends, segments, known, cache, cursor, false, done, origins, [])
    requires Locate(cache, segments, turnId) < 0
    ensures turnId !in StitchedTurns(backends, segments) && Learnt(backends, segments, known, cache)
  {
    NewestIsStitched(backends, segments);
    ReverseMember(StitchedTurns(backends, segments), turnId);
    forall i | 0 <= i < |done| ensures done[i] != turnId {}
  }

  class Lineages {
    const backends: Backends
    /** Where a stitched page found each turn. */
    var turnSegments: TurnSegments

    ghost predicate Valid()
      reads this
    {
      CacheRight(backends, turnSegments)
    }

    constructor (backends: Backends)
      ensures Valid() && this.backends == backends && turnSegments == map[]
    {
      this.backends := backends;
      turnSegments := map[];
    }

    /** One backend's page. */
    method SegmentPage(segment: Segment, limit: nat, cursor: Option<BackendCursor>) returns (page: BackendPage)
      requires 1 <= limit <= 100
      requires segment.threadId in backends && Distinct(backends[segment.threadId])
      requires CursorFits(backends[segment.threadId], segment.provider, cursor)
      ensures IsBackendPage(backends[segment.threadId], segment.provider, cursor, limit, page)
    {
      match segment.provider
      case Claude => page := ClaudeTurnsPage(backends[segment.threadId], limit, cursor);
      case Codex => page := StockTurnsPage(backends[segment.threadId], limit, cursor);
    }

    /** The turns of a backend's page that are the segment's, all of them noted as found in its backend. */
    method Take(turns: seq<Id>, threadId: Id, skipTo: Option<Anchor>) returns (taken: seq<Id>, skipLeft: Option<Anchor>)
      modifies this
      ensures taken == Skipped(turns, skipTo) && skipLeft == StillSkipping(turns, skipTo)
      ensures turnSegments == Noted(old(turnSegments), turns, threadId)
    {
      hide Skipped, StillSkipping;
      taken, skipLeft := [], skipTo;
      SkipNone(skipTo);
      assert turns[0..] == turns;
      for i := 0 to |turns|
        invariant skipLeft == StillSkipping(turns[..i], skipTo) && (skipLeft.None? || skipLeft == skipTo)
        invariant Skipped(turns, skipTo) == taken + Skipped(turns[i..], skipLeft)
        invariant turnSegments == Noted(old(turnSegments), turns[..i], threadId)
      {
        assert turns[..i + 1][..i] == turns[..i];
        SkipStep(turns, i, skipTo);
        turnSegments := turnSegments[turns[i] := threadId];
        if skipLeft.Some? {
          if turns[i] != skipLeft.value.turnId { continue; }
          skipLeft := None;
          if !skipTo.value.inclusive { continue; }
        }
        taken := taken + [turns[i]];
      }
      SkipNone(skipLeft);
      assert turns[..|turns|] == turns && turns[|turns|..] == [];
    }

    /** A page of the stitched turns, newest first. */
    method StitchedPage(segments: seq<Segment>, cursor: Option<ClientCursor>, limit: Option<int>) returns (r: Result<PageOfTurns, StitchError>)
      requires Valid() && Lineage(backends, segments) && CursorOk(backends, segments, cursor)
      modifies this
      decreases Rank(cursor), 2
      ensures Valid() && Learnt(backends, segments, old(turnSegments), turnSegments)
      ensures r.Err? ==> cursor.Some? && cursor.value.TurnCursor? && cursor.value.segment.None?
                         && cursor.value.anchor.turnId !in StitchedTurns(backends, segments)
      ensures r.Ok? ==> Remembers(turnSegments, segments, r.value.data, r.value.segments)
      ensures r.Ok? ==> IsStitchedPage(backends, segments, cursor, limit, r.value)
    {
      hide Rest, PositionFits, CursorFits, Learnt, Remembers, FoundThere, Noted, Skipped, StandsFor, SegmentStart, IsPageFrom, IsBackendPage, DistinctTurns, CutsPresent, CursorOk, CacheRight, LeftAt, Gathered, StillSkipping;
      var n := PageLimit(limit);
      ghost var entering := turnSegments;
      var at := SegmentStart(segments, |segments| - 1);
      if cursor.Some? {
        var position := this.PagePosition(segments, cursor.value);
        if position.Err? { return Err(position.error); }
        at := position.value;
      } else {
        NewestStart(backends, segments);
      }
      ghost var start := at;
      ghost var known := turnSegments;
      GatherStart(backends, segments, known, start);
      var data: seq<Id>, origins: seq<int> := [], [];
      while at.segment >= 0 && |data| < n
        invariant Gathered(backends, segments, known, turnSegments, start, at, data, origins) && |data| <= n
        decreases at.segment + 1, LeftAt(backends, segments, at)
      {
        var segment := segments[at.segment];
        if at.marker {
          GatherMarker(backends, segments, known, turnSegments, start, at, data, origins);
          data, origins := data + [SwitchOf(segment.threadId)], origins + [at.segment];
          at := SegmentStart(segments, at.segment - 1);
        } else {
          SegmentReady(backends, segments, known, turnSegments, start, at, data, origins);
          var page := SegmentPage(segment, n - |data|, at.cursor);
          GatherPage(backends, segments, known, turnSegments, start, at, data, origins, n - |data|, page);
          SkippedShorter(page.turns, at.skipTo);
          var taken, skipLeft := Take(page.turns, segment.threadId, at.skipTo);
          data, origins := data + taken, origins + seq(|taken|, _ => at.segment);
          at := Advance(segments, at, page, skipLeft);
        }
      }
      GatheredPage(backends, segments, known, turnSegments, start, at, data, origins, n);
      LearntTwice(backends, segments, entering, known, turnSegments);
      var backwards := if data == [] then None else Some(TurnCursor(Anchor(data[0], true), Some(origins[0])));
      r := Ok(PageOfTurns(data, if at.segment >= 0 && data != [] then Some(at) else None, backwards, origins));
    }

    /** Where a client's cursor stands. */
    method PagePosition(segments: seq<Segment>, cursor: ClientCursor) returns (r: Result<Position, StitchError>)
      requires Valid() && Lineage(backends, segments) && CursorOk(backends, segments, Some(cursor))
      modifies this
      decreases Rank(Some(cursor)), 1
      ensures Valid() && Learnt(backends, segments, old(turnSegments), turnSegments)
      ensures r.Err? ==> cursor.TurnCursor? && cursor.segment.None? && cursor.anchor.turnId !in StitchedTurns(backends, segments)
      ensures r.Ok? ==> PositionFits(backends, segments, r.value) && StandsFor(backends, segments, Some(cursor), r.value)
    {
      match cursor
      case PageCursor(at) => r := Ok(at);
      case OwnStockCursor(threadId, own) => r := Ok(At(FirstSegment(segments, threadId), Some(own), None, false));
      case TurnCursor(anchor, Some(segment)) =>
        AnchorFits(backends, segments, segment, anchor);
        r := Ok(AnchorPosition(segments, segment, anchor));
      case TurnCursor(anchor, None) =>
        var index := this.SegmentOf(segments, anchor.turnId);
        if index.Err? { return Err(index.error); }
        AnchorFits(backends, segments, index.value, anchor);
        r := Ok(AnchorPosition(segments, index.value, anchor));
    }

    /** The segment holding a turn: where a page found it, else paging back until one does. */
    method SegmentOf(segments: seq<Segment>, turnId: Id) returns (r: Result<nat, StitchError>)
      requires Valid() && Lineage(backends, segments)
      modifies this
      decreases 1, 0
      ensures Valid() && Learnt(backends, segments, old(turnSegments), turnSegments)
      ensures match r
              case Ok(index) => HoldsTurn(backends, segments, index, turnId)
              case Err(_) => turnId !in StitchedTurns(backends, segments)
    {
      hide DistinctTurns, CutsPresent, Learnt, Remembers, FoundThere, IsStitchedPage, Walked, Newest, CursorOk, StitchedTurns;
      var cursor: Option<ClientCursor> := None;
      var more := true;
      ghost var known := turnSegments;
      ghost var done: seq<Id>, origins: seq<int>, pending := [], [], Newest(backends, segments, |segments|);
      WalkStart(backends, segments, known);
      while Locate(turnSegments, segments, turnId) < 0
        invariant Valid() && (more || pending == []) && Rank(cursor) == 0
        invariant Walked(backends, segments, known, turnSegments, cursor, more, done, origins, pending)
        decreases more, |pending|
      {
        if !more {
          NotLocated(backends, segments, known, turnSegments, cursor, done, origins, turnId);
          return Err(TurnNotFound);
        }
        ghost var before := turnSegments;
        WalkedFacts(backends, segments, known, before, cursor, more, done, origins, pending);
        var page := StitchedPage(segments, cursor, Some(100));
        WalkPage(backends, segments, known, before, turnSegments, cursor, done, origins, pending, page.value);
        done, origins, pending := done + page.value.data, origins + page.value.segments, pending[|page.value.data|..];
        cursor := if page.value.next.Some? then Some(PageCursor(page.value.next.value)) else None;
        more := cursor.Some?;
      }
      WalkedFacts(backends, segments, known, turnSegments, cursor, more, done, origins, pending);
      r := Ok(Locate(turnSegments, segments, turnId));
    }
  }
}
