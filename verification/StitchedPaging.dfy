/**
 * What stitched paging is for: a lineage pages as one list would. A page of any cursor is `paginateTurns` over the
 * stitched turns, and following positions to the end shows them all once.
 */
module StitchedPaging {
  import opened Basics
  import opened Pagination
  import opened Segments
  import opened Stitching

  // ---- the stitched turns have no repeats ----

  lemma {:induction false} NewestFrom(backends: Backends, segments: seq<Segment>, n: nat, t: Id) returns (j: nat)
    requires n <= |segments| && Present(backends, segments) && t in Newest(backends, segments, n)
    ensures j < n && t in OwnTurns(backends, segments, j)
  {
    if t in Reverse(OwnTurns(backends, segments, n - 1)) {
      ReverseMember(OwnTurns(backends, segments, n - 1), t);
      j := n - 1;
    } else {
      j := NewestFrom(backends, segments, n - 1, t);
    }
  }

  lemma {:induction false} OwnHeld(backends: Backends, segments: seq<Segment>, index: nat, t: Id)
    requires Lineage(backends, segments) && index < |segments| && t in OwnTurns(backends, segments, index)
    ensures HoldsTurn(backends, segments, index, t)
  {}

  lemma {:induction false} HeldOnce(backends: Backends, segments: seq<Segment>, i: nat, j: nat, t: Id)
    requires Lineage(backends, segments) && HoldsTurn(backends, segments, i, t) && HoldsTurn(backends, segments, j, t)
    ensures i == j
  {
    var a, b := segments[i].threadId, segments[j].threadId;
    assert i != j ==> a != b;
  }

  lemma {:induction false} OwnDistinct(backends: Backends, segments: seq<Segment>, index: nat)
    requires Lineage(backends, segments) && index < |segments|
    ensures Distinct(OwnTurns(backends, segments, index))
  {
    var turns := backends[segments[index].threadId];
    var own := CutTurns(turns, segments[index].lastTurnId);
    assert Distinct(turns) && own <= turns;
    forall i | 0 <= i < |own| ensures !own[i].SwitchOf? { assert own[i] in turns; }
  }

  lemma {:induction false} ReverseDistinct<T>(s: seq<T>)
    ensures Distinct(Reverse(s)) <==> Distinct(s)
  {
    if Distinct(Reverse(s)) {
      forall i, j | 0 <= i < j < |s| ensures s[i] != s[j] {
        assert Reverse(s)[|s| - 1 - j] == s[j] && Reverse(s)[|s| - 1 - i] == s[i];
      }
    }
  }

  lemma {:induction false} NewestDistinct(backends: Backends, segments: seq<Segment>, n: nat)
    requires Lineage(backends, segments) && n <= |segments|
    ensures Distinct(Newest(backends, segments, n))
  {
    if n > 0 {
      hide OwnTurns, DistinctTurns, CutsPresent, Distinct;
      var own, older := Reverse(OwnTurns(backends, segments, n - 1)), Newest(backends, segments, n - 1);
      NewestDistinct(backends, segments, n - 1);
      OwnApart(backends, segments, n - 1);
      assert Newest(backends, segments, n) == own + older;
      hide *;
      DistinctBoth(own, older);
    } else {
      assert Newest(backends, segments, n) == [];
    }
  }

  /** A segment's own turns are distinct, and none is an older segment's. */
  lemma {:induction false} OwnApart(backends: Backends, segments: seq<Segment>, index: nat)
    requires Lineage(backends, segments) && index < |segments|
    ensures var own := Reverse(OwnTurns(backends, segments, index));
            Distinct(own) && forall i :: 0 <= i < |own| ==> own[i] !in Newest(backends, segments, index)
  {
    hide OwnTurns, DistinctTurns, CutsPresent, Distinct, Newest, Reverse;
    OwnDistinct(backends, segments, index);
    ReverseDistinct(OwnTurns(backends, segments, index));
    var own := Reverse(OwnTurns(backends, segments, index));
    forall i | 0 <= i < |own| ensures own[i] !in Newest(backends, segments, index) {
      ReverseMember(OwnTurns(backends, segments, index), own[i]);
      NotInOlder(backends, segments, index, own[i]);
    }
  }

  /** A turn of a segment is none of the older segments'. */
  lemma {:induction false} NotInOlder(backends: Backends, segments: seq<Segment>, index: nat, t: Id)
    requires Lineage(backends, segments) && index < |segments| && t in OwnTurns(backends, segments, index)
    ensures t !in Newest(backends, segments, index)
  {
    hide OwnTurns, DistinctTurns, CutsPresent;
    if t in Newest(backends, segments, index) {
      OwnHeld(backends, segments, index, t);
      var k := NewestFrom(backends, segments, index, t);
      OwnHeld(backends, segments, k, t);
      HeldOnce(backends, segments, index, k, t);
    }
  }

  lemma {:induction false} DistinctBoth(a: seq<Id>, b: seq<Id>)
    requires Distinct(a) && Distinct(b) && forall i :: 0 <= i < |a| ==> a[i] !in b
    ensures Distinct(a + b)
  {
    forall i, j | 0 <= i < j < |a + b| ensures (a + b)[i] != (a + b)[j] {
      if i < |a| <= j { assert (a + b)[j] == b[j - |a|]; }
    }
  }

  /** No turn and no switch marker is stitched twice. */
  lemma {:induction false} StitchedOnce(backends: Backends, segments: seq<Segment>)
    requires Lineage(backends, segments)
    ensures Distinct(StitchedTurns(backends, segments))
  {
    NewestDistinct(backends, segments, |segments|);
    NewestIsStitched(backends, segments);
    ReverseDistinct(StitchedTurns(backends, segments));
  }

  // ---- an anchor's position ----

  /** The newest turns are those of later segments, then those up to this one. */
  lemma {:induction false} NewestSplit(backends: Backends, segments: seq<Segment>, n: nat, index: nat) returns (later: seq<Id>)
    requires index < n <= |segments| && Present(backends, segments)
    ensures Newest(backends, segments, n) == later + Newest(backends, segments, index + 1)
    ensures forall t :: t in later ==> exists j :: index < j < n && t in OwnTurns(backends, segments, j)
  {
    if n == index + 1 {
      later := [];
    } else {
      hide OwnTurns, Present;
      var rest := NewestSplit(backends, segments, n - 1, index);
      var own := Reverse(OwnTurns(backends, segments, n - 1));
      later := own + rest;
      assert Newest(backends, segments, n) == own + Newest(backends, segments, n - 1);
      hide Newest, Reverse;
      assert own + (rest + Newest(backends, segments, index + 1)) == later + Newest(backends, segments, index + 1);
      forall t | t in later ensures exists j :: index < j < n && t in OwnTurns(backends, segments, j) {
        ReverseMember(OwnTurns(backends, segments, n - 1), t);
      }
    }
  }

  lemma {:induction false} SkippedPrefix(a: seq<Id>, b: seq<Id>, skipTo: Anchor)
    requires skipTo.turnId in a
    ensures Skipped(a + b, Some(skipTo)) == Skipped(a, Some(skipTo)) + b
  {
    SkippedConcat(a, b, Some(skipTo));
  }

  /** A segment's own turns from an anchor on are what its position has left there. */
  lemma {:induction false} OwnAnchor(backends: Backends, segments: seq<Segment>, index: nat, anchor: Anchor)
    requires Lineage(backends, segments) && index < |segments| && anchor.turnId in OwnTurns(backends, segments, index)
    requires !anchor.turnId.SwitchOf?
    ensures OwnRest(backends, segments, AnchorPosition(segments, index, anchor))
         == Skipped(Reverse(OwnTurns(backends, segments, index)), Some(anchor))
  {
    var segment := segments[index];
    var turns := backends[segment.threadId];
    var own := CutTurns(turns, segment.lastTurnId);
    var at := IndexOf(turns, anchor.turnId);
    var mark := if Marked(segments, index) then [SwitchOf(segment.threadId)] else [];
    var cut := if anchor.inclusive then at + 1 else at;
    assert anchor.turnId in own;
    CutIndex(turns, segment.lastTurnId, anchor.turnId);
    assert own[..cut] == turns[..cut];
    assert Distinct(own);
    SkippedReverse(own, at, anchor.inclusive);
    ReverseConcat(mark, own);
    assert Reverse(mark) == mark;
    ReverseMember(own, anchor.turnId);
    SkippedPrefix(Reverse(own), mark, anchor);
    hide Skipped;
    if segment.provider.Claude? { ClaudeLeft(turns, at, anchor.inclusive); SkipNothing(Reverse(turns[..cut])); }
    else { SkippedReverse(turns, at, anchor.inclusive); }
  }

  lemma {:induction false} SkipNothing(turns: seq<Id>)
    ensures Skipped(turns, None) == turns
  {}

  /** A turn of the cut list stands where it stands in its backend. */
  lemma {:induction false} CutIndex(turns: seq<Id>, lastTurnId: Option<Id>, turnId: Id)
    requires Distinct(turns) && turnId in CutTurns(turns, lastTurnId)
    ensures var own := CutTurns(turns, lastTurnId);
            var at := IndexOf(turns, turnId);
            0 <= at < |own| && own[at] == turnId && own == turns[..|own|] && turns[at] == turnId
  {
    var own := CutTurns(turns, lastTurnId);
    var i :| 0 <= i < |own| && own[i] == turnId;
    assert turns[i] == turnId;
  }

  /** What is left from an anchor's position are the stitched turns from it on, newest first. */
  lemma {:induction false} AnchorRest(backends: Backends, segments: seq<Segment>, index: nat, anchor: Anchor)
    requires Lineage(backends, segments) && index < |segments|
    requires HoldsTurn(backends, segments, index, anchor.turnId) && anchor.turnId in StitchedTurns(backends, segments)
    ensures Rest(backends, segments, AnchorPosition(segments, index, anchor))
         == Skipped(Newest(backends, segments, |segments|), Some(anchor))
  {
    hide Skipped, OwnRest, StitchedTurns, CutTurns, Left, Newest, OwnTurns, HoldsTurn;
    IsOwnTurn(backends, segments, index, anchor.turnId);
    var older := Newest(backends, segments, index);
    var own := Reverse(OwnTurns(backends, segments, index));
    ReverseMember(OwnTurns(backends, segments, index), anchor.turnId);
    var later := NewestSplit(backends, segments, |segments|, index);
    LaterWithout(backends, segments, index, later, anchor);
    NewestOnce(backends, segments, index);
    SkipsLater(later, own, older, anchor);
    if anchor.turnId.SwitchOf? { SwitchAnchor(backends, segments, index, anchor); }
    else { OwnAnchor(backends, segments, index, anchor); }
  }

  lemma {:induction false} NewestOnce(backends: Backends, segments: seq<Segment>, index: nat)
    requires Present(backends, segments) && index < |segments|
    ensures Newest(backends, segments, index + 1) == Reverse(OwnTurns(backends, segments, index)) + Newest(backends, segments, index)
  {}

  /** A stitched turn that a segment holds is one it shows. */
  lemma {:induction false} IsOwnTurn(backends: Backends, segments: seq<Segment>, index: nat, t: Id)
    requires Lineage(backends, segments) && index < |segments|
    requires HoldsTurn(backends, segments, index, t) && t in StitchedTurns(backends, segments)
    ensures t in OwnTurns(backends, segments, index)
  {
    hide StitchedTurns, CutTurns, OwnTurns, Newest;
    NewestIsStitched(backends, segments);
    ReverseMember(StitchedTurns(backends, segments), t);
    var from := NewestFrom(backends, segments, |segments|, t);
    OwnHeld(backends, segments, from, t);
    HeldOnce(backends, segments, from, index, t);
  }

  lemma {:induction false} SkipsLater(later: seq<Id>, own: seq<Id>, older: seq<Id>, anchor: Anchor)
    requires anchor.turnId !in later && anchor.turnId in own
    ensures Skipped(later + (own + older), Some(anchor)) == Skipped(own, Some(anchor)) + older
  {
    SkippedConcat(later, own + older, Some(anchor));
    SkippedAbsent(later, anchor);
    hide Skipped;
    assert StillSkipping(later, Some(anchor)) == Some(anchor);
    SkippedPrefix(own, older, anchor);
    assert [] + (Skipped(own, Some(anchor)) + older) == Skipped(own, Some(anchor)) + older;
  }

  lemma {:induction false} LaterWithout(backends: Backends, segments: seq<Segment>, index: nat, later: seq<Id>, anchor: Anchor)
    requires Lineage(backends, segments) && index < |segments| && HoldsTurn(backends, segments, index, anchor.turnId)
    requires forall t :: t in later ==> exists j :: index < j < |segments| && t in OwnTurns(backends, segments, j)
    ensures anchor.turnId !in later
  {
    if anchor.turnId in later {
      var j :| index < j < |segments| && anchor.turnId in OwnTurns(backends, segments, j);
      OwnHeld(backends, segments, j, anchor.turnId);
      HeldOnce(backends, segments, index, j, anchor.turnId);
    }
  }

  /** The same of an anchor at a switch marker, the last of its segment newest first. */
  lemma {:induction false} SwitchAnchor(backends: Backends, segments: seq<Segment>, index: nat, anchor: Anchor)
    requires Lineage(backends, segments) && index < |segments| && anchor.turnId in OwnTurns(backends, segments, index)
    requires anchor.turnId.SwitchOf?
    ensures Rest(backends, segments, AnchorPosition(segments, index, anchor))
         == Skipped(Reverse(OwnTurns(backends, segments, index)), Some(anchor)) + Newest(backends, segments, index)
  {
    SwitchOwn(backends, segments, index, anchor.turnId);
    SwitchRest(backends, segments, index, anchor);
    hide *;
    SkippedMark(CutTurns(backends[segments[index].threadId], segments[index].lastTurnId), anchor);
  }

  lemma {:induction false} SwitchRest(backends: Backends, segments: seq<Segment>, index: nat, anchor: Anchor)
    requires Lineage(backends, segments) && index < |segments| && anchor.turnId == SwitchOf(segments[index].threadId)
    ensures Rest(backends, segments, AnchorPosition(segments, index, anchor))
         == (if anchor.inclusive then [anchor.turnId] else []) + Newest(backends, segments, index)
  {
    hide CutTurns, OwnTurns, DistinctTurns, CutsPresent, Marked, Newest, Rest, SegmentStart, Reverse, Skipped, CursorFits;
    StartRest(backends, segments, index - 1);
    if anchor.inclusive {
      MarkerRest(backends, segments, AnchorPosition(segments, index, anchor));
    } else {
      assert [] + Newest(backends, segments, index) == Newest(backends, segments, index);
    }
  }

  lemma {:induction false} SwitchOwn(backends: Backends, segments: seq<Segment>, index: nat, id: Id)
    requires Lineage(backends, segments) && index < |segments| && id in OwnTurns(backends, segments, index) && id.SwitchOf?
    ensures var own := CutTurns(backends[segments[index].threadId], segments[index].lastTurnId);
            Marked(segments, index) && id == SwitchOf(segments[index].threadId) && id !in own && OwnTurns(backends, segments, index) == [id] + own
  {
    var turns := backends[segments[index].threadId];
    var own := CutTurns(turns, segments[index].lastTurnId);
    forall i | 0 <= i < |own| ensures !own[i].SwitchOf? { assert own[i] in turns; }
  }

  lemma {:induction false} SkippedMark(own: seq<Id>, anchor: Anchor)
    requires anchor.turnId !in own
    ensures Skipped(Reverse([anchor.turnId] + own), Some(anchor)) == if anchor.inclusive then [anchor.turnId] else []
  {
    assert Skipped([anchor.turnId], Some(anchor)) == if anchor.inclusive then [anchor.turnId] else [];
    hide Skipped;
    var mark := [anchor.turnId];
    assert Reverse(mark + own) == Reverse(own) + mark;
    ReverseMember(own, anchor.turnId);
    SkippedConcat(Reverse(own), mark, Some(anchor));
    SkippedAbsent(Reverse(own), anchor);
  }

  // ---- the theorems ----

  /** `paginateTurns`, by turn id. */
  function PaginateTurns(turns: seq<Id>, params: PageParams): Result<Page<Id>, PageError> {
    Paginate(turns, TurnKey, Itself(), params, Desc, Every())
  }

  /** A client's cursor as `paginateTurns` reads it. */
  function AnchorText(cursor: Option<ClientCursor>): Option<CursorText>
    requires cursor.None? || cursor.value.TurnCursor?
  {
    if cursor.None? then None else Some(Encoded(TurnKey, cursor.value.anchor.turnId, cursor.value.anchor.inclusive))
  }

  lemma {:induction false} StitchedRemaining(turns: seq<Id>, anchor: Option<Anchor>)
    requires Distinct(turns) && (anchor.Some? ==> anchor.value.turnId in turns)
    ensures var text := if anchor.None? then None else Some(Encoded(TurnKey, anchor.value.turnId, anchor.value.inclusive));
            Remaining(turns, TurnKey, Itself(), text, Desc, Every()) == Ok(Skipped(Reverse(turns), anchor))
  {
    if anchor.None? {
      assert turns[..|turns|] == turns;
      EveryKept(Reverse(turns));
    } else {
      var at := IndexOf(turns, anchor.value.turnId);
      FindDistinct(turns, Itself(), at);
      SkippedReverse(turns, at, anchor.value.inclusive);
      EveryKept(Side(turns, Desc, SliceAt(Desc, anchor.value.inclusive, at)));
    }
  }

  /** What is left from where a cursor stands. */
  lemma {:induction false} CursorRest(backends: Backends, segments: seq<Segment>, cursor: Option<ClientCursor>, at: Position)
    requires Lineage(backends, segments) && StandsFor(backends, segments, cursor, at) && PositionFits(backends, segments, at)
    requires cursor.None? || (cursor.value.TurnCursor? && cursor.value.anchor.turnId in StitchedTurns(backends, segments))
    ensures Rest(backends, segments, at)
         == Skipped(Reverse(StitchedTurns(backends, segments)), if cursor.None? then None else Some(cursor.value.anchor))
  {
    hide Skipped, Rest;
    NewestIsStitched(backends, segments);
    if cursor.None? {
      StartRest(backends, segments, |segments| - 1);
      SkipNothing(Newest(backends, segments, |segments|));
    } else {
      var anchor := cursor.value.anchor;
      var i :| HoldsTurn(backends, segments, i, anchor.turnId) && at == AnchorPosition(segments, i, anchor);
      AnchorRest(backends, segments, i, anchor);
    }
  }

  /**
   * A stitched page of any turn anchor (or none) shows what `paginateTurns` shows of all the stitched turns, has a next
   * page whenever that one has, standing for exactly the turns after these, and the same backwards anchor.
   */
  lemma {:induction false} StitchedPageIsPaginated(backends: Backends, segments: seq<Segment>, cursor: Option<ClientCursor>, limit: Option<int>, page: PageOfTurns)
    requires Lineage(backends, segments) && IsStitchedPage(backends, segments, cursor, limit, page)
    requires cursor.None? || (cursor.value.TurnCursor? && cursor.value.anchor.turnId in StitchedTurns(backends, segments))
    ensures var turns := StitchedTurns(backends, segments);
            var whole := PaginateTurns(turns, PageParams(AnchorText(cursor), limit, Some(Desc)));
            && whole.Ok?
            && page.data == whole.value.data
            && (whole.value.nextCursor.Some? ==> page.next.Some?)
            && (page.next.Some? ==>
                  Ok(Rest(backends, segments, page.next.value))
                  == Remaining(turns, TurnKey, Itself(), Some(Encoded(TurnKey, page.data[|page.data| - 1], false)), Desc, Every()))
            && (if page.backwards.None? then whole.value.backwardsCursor.None?
                else page.backwards.value.TurnCursor? && whole.value.backwardsCursor == AnchorText(page.backwards))
  {
    hide Paginate, Remaining, Rest, Skipped, StitchedTurns, StandsFor, CursorFits;
    var turns := StitchedTurns(backends, segments);
    var at :| PositionFits(backends, segments, at) && StandsFor(backends, segments, cursor, at) && IsPageFrom(backends, segments, at, PageLimit(limit), page);
    StitchedOnce(backends, segments);
    CursorRest(backends, segments, cursor, at);
    StitchedRemaining(turns, if cursor.None? then None else Some(cursor.value.anchor));
    PageIs(turns, TurnKey, Itself(), PageParams(AnchorText(cursor), limit, Some(Desc)), Desc, Every());
    if page.next.Some? { NextRemaining(turns, TurnKey, Itself(), AnchorText(cursor), Desc, Every(), PageLimit(limit)); }
  }

  /** Pages a client gets from `cursor` by following positions, whatever its limits. */
  ghost predicate IsWalk(backends: Backends, segments: seq<Segment>, cursor: Option<ClientCursor>, limits: seq<Option<int>>, pages: seq<PageOfTurns>)
    requires Lineage(backends, segments)
    decreases |pages|
  {
    && |limits| == |pages| > 0
    && IsStitchedPage(backends, segments, cursor, limits[0], pages[0])
    && (|pages| > 1 ==> pages[0].next.Some? && IsWalk(backends, segments, Some(PageCursor(pages[0].next.value)), limits[1..], pages[1..]))
  }

  function Shown(pages: seq<PageOfTurns>): seq<Id> {
    if pages == [] then [] else pages[0].data + Shown(pages[1..])
  }

  lemma {:induction false} WalkShowsPending(backends: Backends, segments: seq<Segment>, cursor: Option<ClientCursor>, limits: seq<Option<int>>,
                                            pages: seq<PageOfTurns>, pending: seq<Id>)
    requires Lineage(backends, segments) && PendingAt(backends, segments, cursor, pending) && IsWalk(backends, segments, cursor, limits, pages)
    ensures Shown(pages) <= pending
    ensures pages[|pages| - 1].next.None? ==> Shown(pages) == pending
    ensures |pages| <= |pending| + 1
    decreases |pages|
  {
    hide IsStitchedPage, PendingAt, Lineage;
    PendingPage(backends, segments, cursor, pending, limits[0], pages[0]);
    var data := pages[0].data;
    if |pages| > 1 {
      WalkShowsPending(backends, segments, Some(PageCursor(pages[0].next.value)), limits[1..], pages[1..], pending[|data|..]);
      assert pending == data + pending[|data|..];
    } else {
      assert Shown(pages[1..]) == [];
    }
  }

  /**
   * Over any number of segments and any limits, following positions shows the stitched turns newest first, each turn and
   * each switch marker once: a prefix of them while a position follows, all of them once none does, and that within as
   * many pages as there are turns and one more.
   */
  lemma {:induction false} WalkShowsStitched(backends: Backends, segments: seq<Segment>, limits: seq<Option<int>>, pages: seq<PageOfTurns>)
    requires Lineage(backends, segments) && IsWalk(backends, segments, None, limits, pages)
    ensures var turns := StitchedTurns(backends, segments);
            && Distinct(turns)
            && Shown(pages) <= Reverse(turns)
            && (pages[|pages| - 1].next.None? ==> Shown(pages) == Reverse(turns))
            && |pages| <= |turns| + 1
  {
    StitchedOnce(backends, segments);
    NewestIsStitched(backends, segments);
    WalkShowsPending(backends, segments, None, limits, pages, Newest(backends, segments, |segments|));
  }

  /** A walk to its end shows the marker of each Claude segment after the first, and no other marker. */
  lemma {:induction false} WalkShowsMarkers(backends: Backends, segments: seq<Segment>, limits: seq<Option<int>>, pages: seq<PageOfTurns>, thread: Id)
    requires Lineage(backends, segments) && IsWalk(backends, segments, None, limits, pages) && pages[|pages| - 1].next.None?
    ensures SwitchOf(thread) in Shown(pages) <==> exists i :: 0 < i < |segments| && segments[i].provider == Claude && segments[i].threadId == thread
  {
    WalkShowsStitched(backends, segments, limits, pages);
    BackendsUnmarked(backends, segments);
    MarkersStitched(backends, segments, thread);
    ReverseMember(StitchedTurns(backends, segments), SwitchOf(thread));
    hide *;
  }

  lemma {:induction false} BackendsUnmarked(backends: Backends, segments: seq<Segment>)
    requires Lineage(backends, segments)
    ensures forall i, t :: 0 <= i < |segments| && t in backends[segments[i].threadId] ==> !t.SwitchOf?
  {}

  /** The first page of a Claude thread switched to Codex: the two turns, newest first, and no marker. */
  lemma {:induction false} CodexSecondPage(claude: Token, codex: Token, t: Token, u: Token, page: PageOfTurns)
    requires claude != codex && t != u
    requires var backends := map[Given(claude) := [Given(t)], Given(codex) := [Given(u)]];
             var segments := [Segment(Claude, Given(claude), Some(Given(t))), Segment(Codex, Given(codex), None)];
             Lineage(backends, segments) && IsStitchedPage(backends, segments, None, None, page)
    ensures page.data == [Given(u), Given(t)]
  {
    var backends := map[Given(claude) := [Given(t)], Given(codex) := [Given(u)]];
    var segments := [Segment(Claude, Given(claude), Some(Given(t))), Segment(Codex, Given(codex), None)];
    CodexSecond(claude, codex, t, u);
    hide *;
    var turns := [Given(t), Given(u)];
    StitchedPageIsPaginated(backends, segments, None, None, page);
    FirstOfTwo(turns);
  }

  lemma {:induction false} FirstOfTwo(turns: seq<Id>)
    requires |turns| == 2
    ensures AnchorText(None).None?
    ensures PaginateTurns(turns, PageParams(None, None, Some(Desc))).Ok? ==> PaginateTurns(turns, PageParams(None, None, Some(Desc))).value.data == [turns[1], turns[0]]
  {
    var params := PageParams(None, None, Some(Desc));
    PageIs(turns, TurnKey, Itself(), params, Desc, Every());
    hide Paginate;
    assert Remaining(turns, TurnKey, Itself(), None, Desc, Every()) == Ok([turns[1], turns[0]]) by { AllOfTwo(turns); }
  }

  lemma {:induction false} AllOfTwo(turns: seq<Id>)
    requires |turns| == 2
    ensures Remaining(turns, TurnKey, Itself(), None, Desc, Every()) == Ok([turns[1], turns[0]])
  {
    var newest := [turns[1], turns[0]];
    assert turns[..2] == turns && Reverse(turns) == newest;
    FilterAll(Every(), newest);
    hide Filter;
  }
}
