/**
 * One turn's items of a lineage, paged through the segment that holds the turn (`stitchedItems`, src/gateway/lineage.ts
 * 422-443), against all of the lineage's items paged and filtered to that turn (src/gateway/lineage.ts 316).
 */
module StitchedItems {
  import opened Basics
  import opened Pagination
  import opened Items
  import opened Segments

  /** A segment with its backend's turns and their items. */
  datatype Part = Part(segment: Segment, turns: seq<Turn>)

  /** A client's cursor: what it says, and the segment of its anchor if it names one. */
  datatype ItemCursor = ItemCursor(text: CursorText, segment: Option<nat>)

  function Marker(thread: Id): Turn { Turn(SwitchOf(thread), [CompactionOf(SwitchOf(thread))]) }

  /** How many of its backend's turns are the segment's. */
  function Kept(part: Part): (n: nat)
    ensures n <= |part.turns|
    ensures match part.segment.lastTurnId
            case None => n == |part.turns|
            case Some(last) => (forall i :: 0 <= i < n - 1 ==> part.turns[i].id != last) && if n == 0 || part.turns[n - 1].id != last then n == |part.turns| else true
  {
    var end := if part.segment.lastTurnId.Some? then FindTurn(part.turns, HasId(part.segment.lastTurnId.value)) else -1;
    if end >= 0 then end + 1 else |part.turns|
  }

  function Mark(parts: seq<Part>, index: nat): (n: nat)
    requires index < |parts|
    ensures n <= 1
  {
    if index > 0 && parts[index].segment.provider.Claude? then 1 else 0
  }

  /** A segment's own turns, after the marker that a Claude segment begins with. */
  function Own(parts: seq<Part>, index: nat): seq<Turn>
    requires index < |parts|
  {
    (if Mark(parts, index) == 1 then [Marker(parts[index].segment.threadId)] else []) + parts[index].turns[..Kept(parts[index])]
  }

  /** The stitched turns of the first `n` segments. */
  function UpTo(parts: seq<Part>, n: nat): seq<Turn>
    requires n <= |parts|
  {
    if n == 0 then [] else UpTo(parts, n - 1) + Own(parts, n - 1)
  }

  function Whole(parts: seq<Part>): seq<Turn> { UpTo(parts, |parts|) }

  /** A backend's page of a turn's items; Claude's has read its turns from `m` on. */
  function BackendItems(part: Part, m: nat, turn: Turn, page: PageParams): Result<Page<Entry>, PageError>
    requires m <= |part.turns|
  {
    if part.segment.provider.Claude? then ItemsPage(turn, part.turns[m..], page)
    else PaginateItems(part.turns, ItemsParams(Some(turn.id), page))
  }

  function TextOf(cursor: Option<ItemCursor>): Option<CursorText> {
    if cursor.None? then None else Some(cursor.value.text)
  }

  /** The segment a cursor's anchor is in, the turn's own if it names none. */
  function NamedSegment(cursor: Option<ItemCursor>, index: nat): nat {
    if cursor.Some? then cursor.value.segment.GetOr(index) else index
  }

  /** `stitchedItems` of a turn of segment `index`. */
  function StitchedItems(parts: seq<Part>, index: nat, turn: Turn, m: nat, cursor: Option<ItemCursor>, limit: Option<int>, direction: Option<Direction>)
    : Result<Page<Entry>, PageError>
    requires index < |parts| && m <= |parts[index].turns|
    requires turn.id.SwitchOf? ==> turn.items != []
  {
    var text, named := TextOf(cursor), NamedSegment(cursor, index);
    var fromCursor, fromEnd := PageParams(text, limit, direction), PageParams(None, limit, direction);
    var descending := direction.GetOr(Asc).Desc?;
    if turn.id.SwitchOf? then
      if text.None? || (ItemAnchor(text.value) && text.value.anchor == turn.items[0]) then PaginateItems([turn], ItemsParams(Some(turn.id), fromCursor))
      else if (named >= index) == descending then PaginateItems([turn], ItemsParams(Some(turn.id), fromEnd))
      else Ok(Page([], None, None))
    else if named != index then
      if (named > index) != descending then Ok(Page([], None, None)) else BackendItems(parts[index], m, turn, fromEnd)
    else BackendItems(parts[index], m, turn, fromCursor)
  }

  // ---- where turns stand in the whole ----

  lemma {:induction false} UpToPrefix(parts: seq<Part>, s: nat, n: nat)
    requires s <= n <= |parts|
    ensures UpTo(parts, s) <= UpTo(parts, n)
    decreases n
  {
    hide Own;
    if s < n { UpToPrefix(parts, s, n - 1); }
  }

  /** A segment's turn in the whole: after the earlier segments' turns, before the later ones'. */
  lemma {:induction false} Stands(parts: seq<Part>, s: nat, i: nat)
    requires s < |parts| && i < |Own(parts, s)|
    ensures |UpTo(parts, s)| + i < |Whole(parts)| && Whole(parts)[|UpTo(parts, s)| + i] == Own(parts, s)[i]
    ensures forall t :: s < t <= |parts| ==> |UpTo(parts, s)| + i < |UpTo(parts, t)|
  {
    hide Own;
    assert UpTo(parts, s + 1)[|UpTo(parts, s)| + i] == Own(parts, s)[i];
    UpToPrefix(parts, s + 1, |parts|);
    forall t | s < t <= |parts| ensures |UpTo(parts, s)| + i < |UpTo(parts, t)| { UpToPrefix(parts, s + 1, t); }
  }

  lemma {:induction false} Around(turns: seq<Turn>, k: nat)
    requires Items.DistinctTurns(turns) && k < |turns|
    ensures Before(turns, k) + [turns[k]] + After(turns, k) == turns
    ensures NoTurn(Before(turns, k), turns[k].id) && NoTurn(After(turns, k), turns[k].id)
  {}

  lemma {:induction false} Alone(turn: Turn)
    ensures [] + [turn] + [] == [turn] && NoTurn([], turn.id)
  {}

  // ---- an anchor on one side of the turn ----

  /** A cursor that cuts a turn's items at one end shows all of them or none. */
  lemma {:induction false} OneSide(left: seq<Turn>, turn: Turn, right: seq<Turn>, page: PageParams, newer: bool)
    requires NoTurn(left, turn.id) && NoTurn(right, turn.id)
    requires OwnCut(left, turn, right, page.cursor, page.direction.GetOr(Asc)) == Ok(if newer then |turn.items| else 0)
    ensures PaginateItems(left + [turn] + right, ItemsParams(Some(turn.id), page)) ==
            if newer == page.direction.GetOr(Asc).Desc? then PaginateItems([turn], ItemsParams(Some(turn.id), page.(cursor := None)))
            else Ok(Page([], None, None))
  {
    hide Remaining, Paginate, CutOf, NoTurn;
    var direction, selected := page.direction.GetOr(Asc), OfTurn(Some(turn.id));
    var all := left + [turn] + right;
    AroundIsOwn(left, turn, right, page);
    PageIs(Entries(all), ItemKey, ItemIdOf(), page, Asc, selected);
    Alone(turn);
    AroundIsOwn([], turn, [], page.(cursor := None));
    NoCursor(turn, direction);
    PageIs(Entries([turn]), ItemKey, ItemIdOf(), page.(cursor := None), Asc, selected);
    hide Entries, OwnCut, TurnEntries;
    assert |TurnEntries(turn)| == |turn.items| by { EntryCount(turn); }
  }

  lemma {:induction false} EntryCount(turn: Turn)
    ensures |TurnEntries(turn)| == |turn.items|
  {}

  lemma {:induction false} NoCursor(turn: Turn, direction: Direction)
    ensures OwnCut([], turn, [], None, direction) == Ok(if direction.Asc? then 0 else |turn.items|)
  {
    assert [] + TurnEntries(turn) + [] == TurnEntries(turn);
  }

  /** Paging the whole from an anchor of another turn shows the turn's items all or not at all. */
  lemma {:induction false} FromElsewhere(turns: seq<Turn>, k: nat, j: nat, page: PageParams)
    requires WellFormed(turns) && k < |turns| && j < |turns| && j != k
    requires page.cursor.Some? && ItemAnchor(page.cursor.value) && page.cursor.value.anchor in turns[j].items
    ensures PaginateItems(turns, ItemsParams(Some(turns[k].id), page)) ==
            if (j > k) == page.direction.GetOr(Asc).Desc? then PaginateItems([turns[k]], ItemsParams(Some(turns[k].id), page.(cursor := None)))
            else Ok(Page([], None, None))
  {
    hide OwnCut, PaginateItems, DistinctIds;
    Around(turns, k);
    ThreadCutElsewhere(turns, k, j, page.cursor.value, page.direction.GetOr(Asc));
    OneSide(Before(turns, k), turns[k], After(turns, k), page, j > k);
  }

  /** Without a cursor, any turns around a turn leave its page the same. */
  lemma {:induction false} FromEnd(turns: seq<Turn>, k: nat, page: PageParams)
    requires Items.DistinctTurns(turns) && k < |turns| && page.cursor.None?
    ensures PaginateItems(turns, ItemsParams(Some(turns[k].id), page)) == PaginateItems([turns[k]], ItemsParams(Some(turns[k].id), page))
  {
    hide OwnCut, PaginateItems;
    Around(turns, k);
    SameElsewhere(Before(turns, k), turns[k], After(turns, k), page);
  }

  /** From an anchor of the turn itself as well. */
  lemma {:induction false} FromInside(turns: seq<Turn>, k: nat, page: PageParams)
    requires WellFormed(turns) && k < |turns|
    requires page.cursor.Some? && ItemAnchor(page.cursor.value) && page.cursor.value.anchor in turns[k].items
    ensures PaginateItems(turns, ItemsParams(Some(turns[k].id), page)) == PaginateItems([turns[k]], ItemsParams(Some(turns[k].id), page))
  {
    hide OwnCut, PaginateItems, DistinctIds;
    Around(turns, k);
    Alone(turns[k]);
    ThreadCutInside(turns, k, page.cursor.value, page.direction.GetOr(Asc));
    SameAround(Before(turns, k), turns[k], After(turns, k), [], [], page);
  }

  // ---- the theorem ----

  /** Stitched, no turn and no item comes twice; a backend knows nothing of the markers. */
  ghost predicate Lineage(parts: seq<Part>) {
    && WellFormed(Whole(parts))
    && (forall s :: 0 <= s < |parts| ==> WellFormed(parts[s].turns) && Unmarked(parts[s].turns))
  }

  ghost predicate Unmarked(turns: seq<Turn>) {
    forall i :: 0 <= i < |turns| ==> !turns[i].id.SwitchOf? && forall x :: 0 <= x < |turns[i].items| ==> !MarkerItem(turns[i].items[x])
  }

  predicate MarkerItem(item: Id) { item.CompactionOf? && item.turn.SwitchOf? }

  /** Where a list has a cursor's anchor, seen from a turn of it: no item anchor at all, none of the list's, or an item's. */
  datatype Place = Bad | Gone | Older | Inside | Newer

  function PlaceOf(turns: seq<Turn>, k: nat, text: CursorText): Place
    requires k < |turns|
  {
    if !ItemAnchor(text) then Bad
    else var at := FindTurn(turns, HasItem(text.anchor));
         if at < 0 then Gone else if at < k then Older else if at == k then Inside else Newer
  }

  /** All of the turn's items, or none: as the anchor is taken to be newer than the turn or not. */
  function SidePage(turn: Turn, page: PageParams, newer: bool): Result<Page<Entry>, PageError> {
    if newer == page.direction.GetOr(Asc).Desc? then PaginateItems([turn], ItemsParams(Some(turn.id), page.(cursor := None))) else Ok(Page([], None, None))
  }

  /** An anchor of the turn itself that leaves all of its items or none, on the side it is taken to be on. */
  ghost predicate LeavesSide(turn: Turn, text: CursorText, direction: Direction, newer: bool)
    requires text.Encoded?
  {
    exists x :: 0 <= x < |turn.items| && turn.items[x] == text.anchor && SliceAt(direction, text.includeAnchor, x) == if newer then |turn.items| else 0
  }

  /** When taking the anchor to be on a side is right: it is there, or it does not matter; a bad or gone one only of a list without items. */
  ghost predicate SideRight(turns: seq<Turn>, k: nat, text: CursorText, direction: Direction, newer: bool)
    requires k < |turns|
  {
    match PlaceOf(turns, k, text)
    case Older => !newer || turns[k].items == []
    case Newer => newer || turns[k].items == []
    case Inside => LeavesSide(turns[k], text, direction, newer)
    case _ => Entries(turns) == []
  }

  /** The side Claude's backend takes an anchor to be on that is no item of the turn: its newest turns tell, `turns[m..]`. */
  function ClaudeNewer(turns: seq<Turn>, m: nat, turn: Turn, anchor: Id): bool
    requires m <= |turns|
  {
    var anchorAt, turnAt := FindTurn(turns[m..], HasItem(anchor)), FindTurn(turns[m..], HasId(turn.id));
    if anchorAt >= 0 then anchorAt > turnAt else turnAt < 0
  }

  /** When the turn's own backend pages it right from a cursor that names its segment or none. */
  ghost predicate BackendRight(parts: seq<Part>, index: nat, k: nat, m: nat, text: CursorText, direction: Direction)
    requires index < |parts| && k < |Own(parts, index)| && Mark(parts, index) <= k && m <= |parts[index].turns|
    requires |UpTo(parts, index)| + k < |Whole(parts)| && k - Mark(parts, index) < |parts[index].turns|
  {
    var turns, turn, at := parts[index].turns, Own(parts, index)[k], |UpTo(parts, index)| + k;
    var whole, own := PlaceOf(Whole(parts), at, text), PlaceOf(turns, k - Mark(parts, index), text);
    if parts[index].segment.provider.Claude? then
      if whole.Bad? then turn.items != [] || Entries(Whole(parts)) == []
      else whole.Inside? || SideRight(Whole(parts), at, text, direction, ClaudeNewer(turns, m, turn, text.anchor))
    else
      match own
      case Inside => true
      case Older => SideRight(Whole(parts), at, text, direction, false)
      case Newer => SideRight(Whole(parts), at, text, direction, true)
      case _ => if Entries(turns) == [] then whole.Older? || whole.Newer? || Entries(Whole(parts)) == []
                else (whole.Bad? || whole.Gone?) && Entries(Whole(parts)) != []
  }

  /** When one turn's page through its segment is right, for every cursor. */
  ghost predicate Right(parts: seq<Part>, index: nat, k: nat, m: nat, cursor: Option<ItemCursor>, direction: Direction)
    requires index < |parts| && k < |Own(parts, index)| && m <= |parts[index].turns|
    requires |UpTo(parts, index)| + k < |Whole(parts)| && (Mark(parts, index) <= k ==> k - Mark(parts, index) < |parts[index].turns|)
  {
    var at, named := |UpTo(parts, index)| + k, NamedSegment(cursor, index);
    match cursor
    case None => true
    case Some(ItemCursor(text, _)) =>
      if k < Mark(parts, index) then PlaceOf(Whole(parts), at, text).Inside? || SideRight(Whole(parts), at, text, direction, named >= index)
      else if named != index then SideRight(Whole(parts), at, text, direction, named > index)
      else BackendRight(parts, index, k, m, text, direction)
  }

  /** What the segment's turn is in its backend. */
  lemma {:induction false} InBackend(parts: seq<Part>, index: nat, k: nat)
    requires index < |parts| && k < |Own(parts, index)| && Unmarked(parts[index].turns)
    ensures k < Mark(parts, index) ==> k == 0 && Own(parts, index)[k] == Marker(parts[index].segment.threadId)
    ensures k >= Mark(parts, index) ==>
              && k - Mark(parts, index) < |parts[index].turns| && Own(parts, index)[k] == parts[index].turns[k - Mark(parts, index)]
              && !Own(parts, index)[k].id.SwitchOf?
  {}

  // ---- one side against the whole ----

  /** Without a cursor a turn's page is empty exactly when the turn is. */
  lemma {:induction false} ShowsSome(turn: Turn, page: PageParams)
    requires page.cursor.None?
    ensures PaginateItems([turn], ItemsParams(Some(turn.id), page)).Ok?
    ensures PaginateItems([turn], ItemsParams(Some(turn.id), page)) == Ok(Page([], None, None)) <==> turn.items == []
  {
    hide Remaining, Paginate, CutOf;
    var direction := page.direction.GetOr(Asc);
    Alone(turn);
    NoCursor(turn, direction);
    AroundIsOwn([], turn, [], page);
    PageIs(Entries([turn]), ItemKey, ItemIdOf(), page, Asc, OfTurn(Some(turn.id)));
    hide Entries, OwnCut, TurnEntries;
    EntryCount(turn);
  }

  lemma {:induction false} SidesAgree(turn: Turn, page: PageParams, newer: bool)
    ensures SidePage(turn, page, newer).Ok?
    ensures SidePage(turn, page, newer) == SidePage(turn, page, !newer) <==> turn.items == []
  {
    hide PaginateItems;
    ShowsSome(turn, page.(cursor := None));
  }

  lemma {:induction false} PlaceIs(turns: seq<Turn>, k: nat, j: nat, text: CursorText)
    requires WellFormed(turns) && k < |turns| && j < |turns| && ItemAnchor(text) && text.anchor in turns[j].items
    ensures PlaceOf(turns, k, text) == if j < k then Older else if j == k then Inside else Newer
  {
    hide Entries, WellFormed;
    var at := FindTurn(turns, HasItem(text.anchor));
    if at >= 0 { ItemInOneTurn(turns, at, j, text.anchor); }
  }

  lemma {:induction false} PlaceFound(turns: seq<Turn>, k: nat, text: CursorText) returns (j: nat)
    requires k < |turns| && PlaceOf(turns, k, text) !in {Bad, Gone}
    ensures j < |turns| && ItemAnchor(text) && text.anchor in turns[j].items
    ensures PlaceOf(turns, k, text) == if j < k then Older else if j == k then Inside else Newer
  {
    j := FindTurn(turns, HasItem(text.anchor));
  }

  lemma {:induction false} PlaceGone(turns: seq<Turn>, k: nat, text: CursorText)
    requires k < |turns| && PlaceOf(turns, k, text).Gone?
    ensures ItemAnchor(text) && !InThread(turns, text.anchor)
  {
    forall j | 0 <= j < |turns| ensures text.anchor !in turns[j].items { assert !HasItem(text.anchor)(turns[j]); }
  }

  /** From a bad or gone anchor the whole has an error, or nothing at all. */
  lemma {:induction false} FromNowhere(turns: seq<Turn>, k: nat, page: PageParams)
    requires Items.DistinctTurns(turns) && k < |turns| && page.cursor.Some? && PlaceOf(turns, k, page.cursor.value) in {Bad, Gone}
    ensures PaginateItems(turns, ItemsParams(Some(turns[k].id), page)) ==
            if Entries(turns) == [] then Ok(Page([], None, None)) else Err(if PlaceOf(turns, k, page.cursor.value).Bad? then InvalidCursor else AnchorGone)
    ensures Entries(turns) == [] ==> turns[k].items == []
  {
    hide Paginate, FindIndex;
    var text, direction := page.cursor.value, page.direction.GetOr(Asc);
    PageIs(Entries(turns), ItemKey, ItemIdOf(), page, Asc, OfTurn(Some(turns[k].id)));
    EntriesAround(turns, k);
    EntryCount(turns[k]);
    if PlaceOf(turns, k, text).Gone? {
      PlaceGone(turns, k, text);
      hide Remaining;
      NotInThread(turns, k, text, direction);
      Around(turns, k);
      AroundIsOwn(Before(turns, k), turns[k], After(turns, k), page);
    }
  }

  /** Where an anchor of the turn itself cuts its items. */
  lemma {:induction false} CutOfOwn(turn: Turn, text: CursorText, direction: Direction, x: nat)
    requires WellFormed([turn]) && ItemAnchor(text) && x < |turn.items| && turn.items[x] == text.anchor
    ensures OwnCut([], turn, [], Some(text), direction) == Ok(SliceAt(direction, text.includeAnchor, x))
    ensures forall y :: 0 <= y < |turn.items| && turn.items[y] == text.anchor ==> y == x
  {
    var own := TurnEntries(turn);
    OwnEntries(turn);
    SliceInside(direction, text.includeAnchor, x, |own|);
    hide *;
    FindDistinct(own, ItemIdOf(), x);
    forall y | 0 <= y < |turn.items| && turn.items[y] == text.anchor ensures y == x { FindDistinct(own, ItemIdOf(), y); }
    CutAtAnchor(own, text, direction, x);
    OwnCutAlone(turn, text, direction, SliceAt(direction, text.includeAnchor, x));
  }

  lemma {:induction false} SliceInside(direction: Direction, includeAnchor: bool, x: nat, n: nat)
    requires x < n
    ensures 0 <= SliceAt(direction, includeAnchor, x) <= n
  {}

  lemma {:induction false} OwnEntries(turn: Turn)
    requires WellFormed([turn])
    ensures var own := TurnEntries(turn); DistinctIds(own, ItemIdOf()) && |own| == |turn.items| && forall x :: 0 <= x < |own| ==> ItemIdOf()(own[x]) == turn.items[x]
  {
    JustEntries(turn);
    hide Entries;
  }

  lemma {:induction false} OwnCutAlone(turn: Turn, text: CursorText, direction: Direction, cut: nat)
    requires turn.items != [] && cut <= |turn.items| && CutOf(TurnEntries(turn), ItemKey, ItemIdOf(), Some(text), direction) == Ok(cut)
    ensures OwnCut([], turn, [], Some(text), direction) == Ok(cut)
  {
    hide CutOf, Entries;
    NoEntries();
    assert [] + TurnEntries(turn) + [] == TurnEntries(turn) && |TurnEntries(turn)| == |turn.items|;
  }

  lemma {:induction false} JustEntries(turn: Turn)
    ensures Entries([turn]) == TurnEntries(turn) && |TurnEntries(turn)| == |turn.items|
  {
    assert Entries([turn]) == TurnEntries(turn) + Entries([]);
  }

  lemma {:induction false} TurnWellFormed(turns: seq<Turn>, k: nat)
    requires WellFormed(turns) && k < |turns|
    ensures WellFormed([turns[k]])
  {
    EntriesAround(turns, k);
    JustEntries(turns[k]);
    DistinctInside(Entries(turns[..k]), TurnEntries(turns[k]), Entries(turns[k + 1..]));
    hide Entries, TurnEntries, DistinctIds;
  }

  lemma {:induction false} DistinctInside(a: seq<Entry>, b: seq<Entry>, c: seq<Entry>)
    requires DistinctIds(a + b + c, ItemIdOf())
    ensures DistinctIds(b, ItemIdOf())
  {
    assert forall i :: 0 <= i < |b| ==> b[i] == (a + b + c)[|a| + i];
  }

  /** Two cuts of a turn's items leave the same page exactly when they are equal, when one of them is at an end. */
  lemma {:induction false} CutsDiffer(turn: Turn, page: PageParams, direction: Direction, cut: nat, newer: bool, mine: Page<Entry>, side: Page<Entry>)
    requires WellFormed([turn]) && cut <= |turn.items| && cut != (if newer then |turn.items| else 0)
    requires IsPageOf(mine, Side(TurnEntries(turn), direction, cut), ItemKey, ItemIdOf(), page.limit)
    requires IsPageOf(side, Side(TurnEntries(turn), direction, if newer then |turn.items| else 0), ItemKey, ItemIdOf(), page.limit)
    requires |TurnEntries(turn)| == |turn.items|
    ensures mine != side
  {
    var own := TurnEntries(turn);
    assert Entries([turn]) == own + Entries([]) && own + [] == own;
    var a, b := Side(own, direction, cut), Side(own, direction, if newer then |turn.items| else 0);
    assert PageLimit(page.limit) >= 1;
    if a != [] && b != [] {
      assert a[0] == own[if direction.Asc? then cut else cut - 1];
      assert b[0] == own[if direction.Asc? then 0 else |own| - 1];
      assert ItemIdOf()(a[0]) != ItemIdOf()(b[0]);
      assert mine.data[0] == a[0] && side.data[0] == b[0];
    } else {
      assert (mine.data == []) != (side.data == []);
    }
  }

  /** A turn's page alone, from where the cursor cuts its items. */
  lemma {:induction false} OwnPage(turn: Turn, page: PageParams, cut: nat)
    requires OwnCut([], turn, [], page.cursor, page.direction.GetOr(Asc)) == Ok(cut)
    ensures cut <= |turn.items| == |TurnEntries(turn)|
    ensures var mine := PaginateItems([turn], ItemsParams(Some(turn.id), page));
            mine.Ok? && IsPageOf(mine.value, Side(TurnEntries(turn), page.direction.GetOr(Asc), cut), ItemKey, ItemIdOf(), page.limit)
  {
    hide Remaining, Paginate, OwnCut, Side, IsPageOf;
    Alone(turn);
    JustEntries(turn);
    AroundIsOwn([], turn, [], page);
    PageIs(Entries([turn]), ItemKey, ItemIdOf(), page, Asc, OfTurn(Some(turn.id)));
  }

  lemma {:induction false} SameRest(rest: seq<Entry>, limit: Option<int>, mine: Page<Entry>, other: Page<Entry>)
    requires IsPageOf(mine, rest, ItemKey, ItemIdOf(), limit) && IsPageOf(other, rest, ItemKey, ItemIdOf(), limit)
    ensures mine == other
  {}

  lemma {:induction false} NothingLeft(turn: Turn, direction: Direction, newer: bool, limit: Option<int>)
    requires newer != direction.Desc? && |turn.items| == |TurnEntries(turn)|
    ensures IsPageOf(Page([], None, None), Side(TurnEntries(turn), direction, if newer then |turn.items| else 0), ItemKey, ItemIdOf(), limit)
  {
    hide TurnEntries;
  }

  /** A side is the page of the turn cut at that end. */
  lemma {:induction false} SideIs(turn: Turn, page: PageParams, newer: bool)
    ensures |turn.items| == |TurnEntries(turn)| && SidePage(turn, page, newer).Ok?
    ensures IsPageOf(SidePage(turn, page, newer).value, Side(TurnEntries(turn), page.direction.GetOr(Asc), if newer then |turn.items| else 0), ItemKey, ItemIdOf(), page.limit)
  {
    var direction := page.direction.GetOr(Asc);
    JustEntries(turn);
    NoCursor(turn, direction);
    hide PaginateItems, OwnCut, IsPageOf, Side, TurnEntries, Entries;
    OwnPage(turn, page.(cursor := None), if direction.Asc? then 0 else |turn.items|);
    if newer != direction.Desc? { NothingLeft(turn, direction, newer, page.limit); }
  }

  lemma {:induction false} InsideAgainstSide(turn: Turn, page: PageParams, newer: bool)
    requires WellFormed([turn]) && page.cursor.Some? && ItemAnchor(page.cursor.value) && page.cursor.value.anchor in turn.items
    ensures PaginateItems([turn], ItemsParams(Some(turn.id), page)) == SidePage(turn, page, newer) <==> LeavesSide(turn, page.cursor.value, page.direction.GetOr(Asc), newer)
  {
    var text, direction := page.cursor.value, page.direction.GetOr(Asc);
    var x :| 0 <= x < |turn.items| && turn.items[x] == text.anchor;
    CutOfOwn(turn, text, direction, x);
    var cut, end := SliceAt(direction, text.includeAnchor, x), if newer then |turn.items| else 0;
    assert LeavesSide(turn, text, direction, newer) <==> cut == end;
    hide *;
    OwnPage(turn, page, cut);
    SideIs(turn, page, newer);
    var mine, side := PaginateItems([turn], ItemsParams(Some(turn.id), page)), SidePage(turn, page, newer);
    if cut == end {
      SameRest(Side(TurnEntries(turn), direction, cut), page.limit, mine.value, side.value);
    } else {
      CutsDiffer(turn, page, direction, cut, newer, mine.value, side.value);
    }
  }

  /** A side against the whole's page, for every cursor. */
  lemma {:induction false} SideAgainstWhole(turns: seq<Turn>, k: nat, page: PageParams, newer: bool)
    requires WellFormed(turns) && k < |turns| && page.cursor.Some?
    ensures SidePage(turns[k], page, newer) == PaginateItems(turns, ItemsParams(Some(turns[k].id), page))
            <==> SideRight(turns, k, page.cursor.value, page.direction.GetOr(Asc), newer)
  {
    var text := page.cursor.value;
    if PlaceOf(turns, k, text) in {Bad, Gone} {
      hide *;
      SideNowhere(turns, k, page, newer);
    } else {
      var j := PlaceFound(turns, k, text);
      hide *;
      if j == k { SideInside(turns, k, page, newer); } else { SideElsewhere(turns, k, j, page, newer); }
    }
  }

  lemma {:induction false} SideNowhere(turns: seq<Turn>, k: nat, page: PageParams, newer: bool)
    requires WellFormed(turns) && k < |turns| && page.cursor.Some? && PlaceOf(turns, k, page.cursor.value) in {Bad, Gone}
    ensures SidePage(turns[k], page, newer) == PaginateItems(turns, ItemsParams(Some(turns[k].id), page))
            <==> SideRight(turns, k, page.cursor.value, page.direction.GetOr(Asc), newer)
  {
    WholeDistinct(turns);
    SidesAgree(turns[k], page, newer);
    hide PaginateItems, WellFormed, Entries, PlaceOf;
    FromNowhere(turns, k, page);
    ShowsSome(turns[k], page.(cursor := None));
  }

  lemma {:induction false} SideInside(turns: seq<Turn>, k: nat, page: PageParams, newer: bool)
    requires WellFormed(turns) && k < |turns| && page.cursor.Some? && PlaceOf(turns, k, page.cursor.value).Inside?
    requires ItemAnchor(page.cursor.value) && page.cursor.value.anchor in turns[k].items
    ensures SidePage(turns[k], page, newer) == PaginateItems(turns, ItemsParams(Some(turns[k].id), page))
            <==> SideRight(turns, k, page.cursor.value, page.direction.GetOr(Asc), newer)
  {
    hide PaginateItems, WellFormed, Entries, PlaceOf, LeavesSide, SidePage;
    FromInside(turns, k, page);
    TurnWellFormed(turns, k);
    InsideAgainstSide(turns[k], page, newer);
  }

  lemma {:induction false} SideElsewhere(turns: seq<Turn>, k: nat, j: nat, page: PageParams, newer: bool)
    requires WellFormed(turns) && k < |turns| && j < |turns| && j != k && page.cursor.Some?
    requires ItemAnchor(page.cursor.value) && page.cursor.value.anchor in turns[j].items && PlaceOf(turns, k, page.cursor.value) == if j < k then Older else Newer
    ensures SidePage(turns[k], page, newer) == PaginateItems(turns, ItemsParams(Some(turns[k].id), page))
            <==> SideRight(turns, k, page.cursor.value, page.direction.GetOr(Asc), newer)
  {
    SidesAgree(turns[k], page, newer);
    hide PaginateItems, WellFormed, Entries, PlaceOf, LeavesSide;
    FromElsewhere(turns, k, j, page);
  }

  lemma {:induction false} WholeDistinct(turns: seq<Turn>)
    requires WellFormed(turns)
    ensures Items.DistinctTurns(turns)
  {}

  // ---- the turn's own backend ----

  lemma {:induction false} BackendFromEnd(part: Part, m: nat, turn: Turn, k: nat, page: PageParams)
    requires WellFormed(part.turns) && k < |part.turns| && part.turns[k] == turn && m <= |part.turns| && page.cursor.None?
    ensures BackendItems(part, m, turn, page) == PaginateItems([turn], ItemsParams(Some(turn.id), page))
  {
    hide PaginateItems;
    FromEnd(part.turns, k, page);
  }

  /** Claude's takes an anchor that is no item of the turn to be on the side its newest turns tell. */
  lemma {:induction false} ClaudeSide(turns: seq<Turn>, turn: Turn, m: nat, page: PageParams)
    requires m <= |turns| && !turn.id.AnchorOf? && page.cursor.Some? && ItemAnchor(page.cursor.value) && page.cursor.value.anchor !in turn.items
    ensures ItemsPage(turn, turns[m..], page) == SidePage(turn, page, ClaudeNewer(turns, m, turn, page.cursor.value.anchor))
  {
    hide PaginateItems, OwnCut, ItemsPage;
    var text := page.cursor.value;
    var newer := ClaudeNewer(turns, m, turn, text.anchor);
    MarkerPage(turn, turns[m..], page, newer);
    MarkerCut(turn, text, page.direction.GetOr(Asc), newer);
    var marker := Turn(AnchorOf(turn.id), [text.anchor]);
    assert AnchorOf(turn.id) != turn.id;
    OneSide(if newer then [] else [marker], turn, if newer then [marker] else [], page, newer);
  }

  /** What stock's items list needs no more of: where the whole and its own turns have the anchor. */
  lemma {:induction false} StockAgainstWhole(whole: seq<Turn>, at: nat, turns: seq<Turn>, k: nat, page: PageParams)
    requires WellFormed(whole) && at < |whole| && WellFormed(turns) && k < |turns| && whole[at] == turns[k] && page.cursor.Some?
    ensures PaginateItems(turns, ItemsParams(Some(turns[k].id), page)) == PaginateItems(whole, ItemsParams(Some(turns[k].id), page)) <==>
            match PlaceOf(turns, k, page.cursor.value)
            case Inside => true
            case Older => SideRight(whole, at, page.cursor.value, page.direction.GetOr(Asc), false)
            case Newer => SideRight(whole, at, page.cursor.value, page.direction.GetOr(Asc), true)
            case _ => if Entries(turns) == [] then PlaceOf(whole, at, page.cursor.value) in {Older, Newer} || Entries(whole) == []
                      else PlaceOf(whole, at, page.cursor.value) in {Bad, Gone} && Entries(whole) != []
  {
    var text := page.cursor.value;
    hide PaginateItems, WellFormed, Entries, SideRight;
    if PlaceOf(turns, k, text) in {Bad, Gone} {
      StockFromNowhere(whole, at, turns, k, page);
    } else {
      var j := PlaceFound(turns, k, text);
      if j == k {
        FromInside(turns, k, page);
        FromInside(whole, at, page);
      } else {
        FromElsewhere(turns, k, j, page);
        SideAgainstWhole(whole, at, page, j > k);
      }
    }
  }

  lemma {:induction false} StockFromNowhere(whole: seq<Turn>, at: nat, turns: seq<Turn>, k: nat, page: PageParams)
    requires WellFormed(whole) && at < |whole| && WellFormed(turns) && k < |turns| && whole[at] == turns[k] && page.cursor.Some?
    requires PlaceOf(turns, k, page.cursor.value) in {Bad, Gone}
    ensures PaginateItems(turns, ItemsParams(Some(turns[k].id), page)) == PaginateItems(whole, ItemsParams(Some(turns[k].id), page)) <==>
            if Entries(turns) == [] then PlaceOf(whole, at, page.cursor.value) in {Older, Newer} || Entries(whole) == []
            else PlaceOf(whole, at, page.cursor.value) in {Bad, Gone} && Entries(whole) != []
  {
    var text, turn := page.cursor.value, turns[k];
    WholeDistinct(turns);
    WholeDistinct(whole);
    hide PaginateItems, WellFormed, Entries, Items.DistinctTurns;
    FromNowhere(turns, k, page);
    if PlaceOf(whole, at, text) in {Bad, Gone} {
      FromNowhere(whole, at, page);
    } else {
      var j := PlaceFound(whole, at, text);
      if j == at { PlaceIs(turns, k, k, text); } else {
        FromElsewhere(whole, at, j, page);
        ShowsSome(turn, page.(cursor := None));
      }
    }
  }

  lemma {:induction false} ByBackend(parts: seq<Part>, index: nat, k: nat, m: nat, page: PageParams)
    requires Lineage(parts) && index < |parts| && Mark(parts, index) <= k < |Own(parts, index)| && m <= |parts[index].turns| && page.cursor.Some?
    ensures |UpTo(parts, index)| + k < |Whole(parts)| && k - Mark(parts, index) < |parts[index].turns|
    ensures var turn := Own(parts, index)[k];
            BackendItems(parts[index], m, turn, page) == PaginateItems(Whole(parts), ItemsParams(Some(turn.id), page))
            <==> BackendRight(parts, index, k, m, page.cursor.value, page.direction.GetOr(Asc))
  {
    hide UpTo, Own, WellFormed, PaginateItems, ItemsPage, Unmarked, Entries, SideRight, PlaceOf;
    InBackend(parts, index, k);
    Stands(parts, index, k);
    var turns, own, at := parts[index].turns, k - Mark(parts, index), |UpTo(parts, index)| + k;
    if parts[index].segment.provider.Claude? {
      ClaudeAgainstWhole(Whole(parts), at, turns, own, m, page);
    } else {
      StockAgainstWhole(Whole(parts), at, turns, own, page);
      hide Whole;
    }
  }

  lemma {:induction false} ClaudeAgainstWhole(whole: seq<Turn>, at: nat, turns: seq<Turn>, k: nat, m: nat, page: PageParams)
    requires WellFormed(whole) && at < |whole| && WellFormed(turns) && k < |turns| && whole[at] == turns[k] && m <= |turns| && page.cursor.Some?
    ensures ItemsPage(turns[k], turns[m..], page) == PaginateItems(whole, ItemsParams(Some(turns[k].id), page)) <==>
            if PlaceOf(whole, at, page.cursor.value).Bad? then turns[k].items != [] || Entries(whole) == []
            else PlaceOf(whole, at, page.cursor.value).Inside?
                 || SideRight(whole, at, page.cursor.value, page.direction.GetOr(Asc), ClaudeNewer(turns, m, turns[k], page.cursor.value.anchor))
  {
    var text, turn := page.cursor.value, turns[k];
    assert !turn.id.AnchorOf?;
    WholeDistinct(whole);
    hide PaginateItems, WellFormed, Entries, SideRight, ClaudeNewer, Items.DistinctTurns;
    if PlaceOf(whole, at, text).Bad? {
      FromNowhere(whole, at, page);
      JustOne(turn);
      FromNowhere([turn], 0, page);
    } else if PlaceOf(whole, at, text).Inside? {
      var j := PlaceFound(whole, at, text);
      FromInside(whole, at, page);
    } else {
      if text.anchor in turn.items { PlaceIs(whole, at, at, text); }
      ClaudeSide(turns, turn, m, page);
      SideAgainstWhole(whole, at, page, ClaudeNewer(turns, m, turn, text.anchor));
    }
  }

  lemma {:induction false} JustOne(turn: Turn)
    ensures Items.DistinctTurns([turn]) && (Entries([turn]) == [] <==> turn.items == [])
  {
    assert Entries([turn]) == TurnEntries(turn) + Entries([]);
  }

  /**
   * One turn's items through its segment against all of the lineage's items filtered to that turn, for every cursor, both
   * directions and any limit, errors and cursors included: the same exactly when `Right`.
   */
  lemma {:induction false} StitchedItemsIsWhole(parts: seq<Part>, index: nat, k: nat, m: nat, cursor: Option<ItemCursor>, limit: Option<int>, direction: Option<Direction>)
    requires Lineage(parts) && index < |parts| && k < |Own(parts, index)| && m <= |parts[index].turns|
    ensures |UpTo(parts, index)| + k < |Whole(parts)| && (Mark(parts, index) <= k ==> k - Mark(parts, index) < |parts[index].turns|)
    ensures var turn := Own(parts, index)[k];
            && (turn.id.SwitchOf? ==> turn.items != [])
            && (StitchedItems(parts, index, turn, m, cursor, limit, direction)
                == PaginateItems(Whole(parts), ItemsParams(Some(turn.id), PageParams(TextOf(cursor), limit, direction)))
                <==> Right(parts, index, k, m, cursor, direction.GetOr(Asc)))
  {
    hide UpTo, Own, WellFormed, PaginateItems, ItemsPage, Unmarked, Entries, SideRight, PlaceOf, BackendRight;
    InBackend(parts, index, k);
    Stands(parts, index, k);
    var turn, mark, at := Own(parts, index)[k], Mark(parts, index), |UpTo(parts, index)| + k;
    var page := PageParams(TextOf(cursor), limit, direction);
    if cursor.None? {
      WholeDistinct(Whole(parts));
      FromEnd(Whole(parts), at, page);
      if k >= mark { BackendFromEnd(parts[index], m, turn, k - mark, page); }
    } else if k < mark {
      OfMarker(Whole(parts), at, page, NamedSegment(cursor, index) >= index);
    } else if NamedSegment(cursor, index) != index {
      SideAgainstWhole(Whole(parts), at, page, NamedSegment(cursor, index) > index);
      BackendFromEnd(parts[index], m, turn, k - mark, page.(cursor := None));
    } else {
      ByBackend(parts, index, k, m, page);
    }
    hide Whole;
  }

  /** A marker turn: its own anchor pages it alone, any other tells its side. */
  lemma {:induction false} OfMarker(turns: seq<Turn>, k: nat, page: PageParams, newer: bool)
    requires WellFormed(turns) && k < |turns| && |turns[k].items| == 1 && page.cursor.Some?
    ensures var text, whole := page.cursor.value, PaginateItems(turns, ItemsParams(Some(turns[k].id), page));
            && (PlaceOf(turns, k, text).Inside? <==> ItemAnchor(text) && text.anchor == turns[k].items[0])
            && (PlaceOf(turns, k, text).Inside? ==> PaginateItems([turns[k]], ItemsParams(Some(turns[k].id), page)) == whole)
            && (!PlaceOf(turns, k, text).Inside? ==> (SidePage(turns[k], page, newer) == whole <==> SideRight(turns, k, text, page.direction.GetOr(Asc), newer)))
  {
    var text := page.cursor.value;
    hide PaginateItems, WellFormed, Entries, SideRight;
    if ItemAnchor(text) && text.anchor == turns[k].items[0] {
      PlaceIs(turns, k, k, text);
      FromInside(turns, k, page);
    }
    SideAgainstWhole(turns, k, page, newer);
  }

  /** From a cursor that names its anchor's segment, another one than the turn's, the turn's page is always the whole's. */
  lemma {:induction false} NamedIsRight(parts: seq<Part>, index: nat, k: nat, m: nat, j: nat, i: nat, text: CursorText, limit: Option<int>, direction: Option<Direction>)
    requires Lineage(parts) && index < |parts| && k < |Own(parts, index)| && m <= |parts[index].turns|
    requires j < |parts| && j != index && i < |Own(parts, j)| && ItemAnchor(text) && text.anchor in Own(parts, j)[i].items
    ensures var turn := Own(parts, index)[k];
            && (turn.id.SwitchOf? ==> turn.items != [])
            && StitchedItems(parts, index, turn, m, Some(ItemCursor(text, Some(j))), limit, direction)
               == PaginateItems(Whole(parts), ItemsParams(Some(turn.id), PageParams(Some(text), limit, direction)))
  {
    hide UpTo, Own, WellFormed, PaginateItems, ItemsPage, Unmarked, Entries, PlaceOf, BackendRight, Whole;
    StitchedItemsIsWhole(parts, index, k, m, Some(ItemCursor(text, Some(j))), limit, direction);
    hide StitchedItems;
    Stands(parts, index, k);
    Stands(parts, j, i);
    PlaceIs(Whole(parts), |UpTo(parts, index)| + k, |UpTo(parts, j)| + i, text);
  }

  /** An anchor that is gone from another segment is not noticed: the whole's page is an error, the turn's is not. */
  lemma {:induction false} GoneAnchor(parts: seq<Part>, index: nat, k: nat, m: nat, cursor: ItemCursor, limit: Option<int>, direction: Option<Direction>)
    requires Lineage(parts) && index < |parts| && Mark(parts, index) <= k < |Own(parts, index)| && m <= |parts[index].turns|
    requires ItemAnchor(cursor.text) && !InThread(Whole(parts), cursor.text.anchor) && NamedSegment(Some(cursor), index) != index
    requires Entries(Whole(parts)) != []
    ensures var turn := Own(parts, index)[k];
            && !turn.id.SwitchOf?
            && StitchedItems(parts, index, turn, m, Some(cursor), limit, direction).Ok?
            && PaginateItems(Whole(parts), ItemsParams(Some(turn.id), PageParams(Some(cursor.text), limit, direction))) == Err(AnchorGone)
  {
    hide UpTo, Own, WellFormed, PaginateItems, ItemsPage, Unmarked, Entries;
    InBackend(parts, index, k);
    Stands(parts, index, k);
    var turn, at, page := Own(parts, index)[k], |UpTo(parts, index)| + k, PageParams(Some(cursor.text), limit, direction);
    BackendFromEnd(parts[index], m, turn, k - Mark(parts, index), page.(cursor := None));
    ShowsSome(turn, page.(cursor := None));
    WholeDistinct(Whole(parts));
    if PlaceOf(Whole(parts), at, cursor.text) !in {Bad, Gone} { var j := PlaceFound(Whole(parts), at, cursor.text); }
    FromNowhere(Whole(parts), at, page);
  }

  /** A Claude segment's turn with items, an older item of the whole as the anchor, and neither among the newest turns read. */
  ghost predicate Unread(parts: seq<Part>, index: nat, k: nat, m: nat, text: CursorText) {
    && Lineage(parts) && index < |parts| && Mark(parts, index) <= k < |Own(parts, index)| && m <= |parts[index].turns| && parts[index].segment.provider.Claude?
    && ItemAnchor(text) && Own(parts, index)[k].items != []
    && |UpTo(parts, index)| + k < |Whole(parts)| && PlaceOf(Whole(parts), |UpTo(parts, index)| + k, text).Older?
    && FindTurn(parts[index].turns[m..], HasItem(text.anchor)) < 0 && FindTurn(parts[index].turns[m..], HasId(Own(parts, index)[k].id)) < 0
  }

  /** Then, from a cursor that names the segment or none, the turn's page is not the whole's. */
  lemma {:induction false} UnreadOlder(parts: seq<Part>, index: nat, k: nat, m: nat, cursor: ItemCursor, limit: Option<int>, direction: Option<Direction>)
    requires Unread(parts, index, k, m, cursor.text) && (cursor.segment.None? || cursor.segment.value == index)
    ensures var turn := Own(parts, index)[k];
            && (turn.id.SwitchOf? ==> turn.items != [])
            && StitchedItems(parts, index, turn, m, Some(cursor), limit, direction)
               != PaginateItems(Whole(parts), ItemsParams(Some(turn.id), PageParams(Some(cursor.text), limit, direction)))
  {
    hide WellFormed, Entries, Lineage, StitchedItems, PaginateItems, Own, UpTo, Whole, PlaceOf, Mark;
    StitchedItemsIsWhole(parts, index, k, m, Some(cursor), limit, direction);
    Stands(parts, index, k);
  }

  // ---- a lineage whose pages differ ----

  /** A stock segment of one turn, and after the switch two turns of Claude's. */
  function Switched(t: Id, u: Id, v: Id, a: Id, b: Id, c: Id, stock: Id, claude: Id): seq<Part> {
    [Part(Segment(Codex, stock, Some(t)), [Turn(t, [a])]), Part(Segment(Claude, claude, None), [Turn(u, [b]), Turn(v, [c])])]
  }

  lemma {:induction false} SwitchedIs(t: Id, u: Id, v: Id, a: Id, b: Id, c: Id, stock: Id, claude: Id)
    requires t.Given? && u.Given? && v.Given? && a.Given? && b.Given? && c.Given? && t != u && u != v && t != v && a != b && b != c && a != c
    ensures var parts, marker := Switched(t, u, v, a, b, c, stock, claude), Marker(claude);
            && Lineage(parts) && Whole(parts) == [Turn(t, [a]), marker, Turn(u, [b]), Turn(v, [c])] && |UpTo(parts, 1)| == 1
            && Own(parts, 1) == [marker, Turn(u, [b]), Turn(v, [c])] && Mark(parts, 1) == 1
  {
    var parts, marker := Switched(t, u, v, a, b, c, stock, claude), Marker(claude);
    SwitchedOwn(t, u, v, a, b, c, stock, claude);
    FourEntries(t, u, v, a, b, c, claude);
    SwitchedUnmarked(t, u, v, a, b, c, stock, claude);
    hide WellFormed, Unmarked, Own, Mark, UpTo;
  }

  lemma {:induction false} SwitchedOwn(t: Id, u: Id, v: Id, a: Id, b: Id, c: Id, stock: Id, claude: Id)
    ensures var parts, marker := Switched(t, u, v, a, b, c, stock, claude), Marker(claude);
            && |parts| == 2 && parts[0].turns == [Turn(t, [a])] && parts[1].turns == [Turn(u, [b]), Turn(v, [c])]
            && Own(parts, 1) == [marker, Turn(u, [b]), Turn(v, [c])] && Mark(parts, 1) == 1 && |UpTo(parts, 1)| == 1
            && Whole(parts) == [Turn(t, [a]), marker, Turn(u, [b]), Turn(v, [c])]
  {
    var parts, marker := Switched(t, u, v, a, b, c, stock, claude), Marker(claude);
    var first, last := parts[0].turns, parts[1].turns;
    TwoOwn(t, u, v, a, b, c, stock, claude);
    hide Own, Mark, Marker, Switched;
    UpToTwo(parts);
    assert first + ([marker] + last) == [Turn(t, [a]), marker, Turn(u, [b]), Turn(v, [c])];
  }

  lemma {:induction false} TwoOwn(t: Id, u: Id, v: Id, a: Id, b: Id, c: Id, stock: Id, claude: Id)
    ensures var parts, marker := Switched(t, u, v, a, b, c, stock, claude), Marker(claude);
            && |parts| == 2 && parts[0].turns == [Turn(t, [a])] && parts[1].turns == [Turn(u, [b]), Turn(v, [c])]
            && Own(parts, 0) == parts[0].turns && Own(parts, 1) == [marker] + parts[1].turns && Mark(parts, 1) == 1
  {
    var parts := Switched(t, u, v, a, b, c, stock, claude);
    var first, last := parts[0].turns, parts[1].turns;
    assert last[..2] == last && first[..1] == first;
    assert Own(parts, 0) == [] + first && [] + first == first;
  }

  lemma {:induction false} UpToTwo(parts: seq<Part>)
    requires |parts| == 2
    ensures UpTo(parts, 1) == Own(parts, 0) && Whole(parts) == Own(parts, 0) + Own(parts, 1)
  {
    hide Own;
    assert UpTo(parts, 0) == [] && [] + Own(parts, 0) == Own(parts, 0);
    assert UpTo(parts, 1) == UpTo(parts, 0) + Own(parts, 0);
  }

  lemma {:induction false} SwitchedUnmarked(t: Id, u: Id, v: Id, a: Id, b: Id, c: Id, stock: Id, claude: Id)
    requires t.Given? && u.Given? && v.Given? && a.Given? && b.Given? && c.Given?
    ensures var parts := Switched(t, u, v, a, b, c, stock, claude); |parts| == 2 && Unmarked(parts[0].turns) && Unmarked(parts[1].turns)
  {}

  lemma {:induction false} FourEntries(t: Id, u: Id, v: Id, a: Id, b: Id, c: Id, claude: Id)
    requires t.Given? && u.Given? && v.Given? && a.Given? && b.Given? && c.Given? && t != u && u != v && t != v && a != b && b != c && a != c
    ensures WellFormed([Turn(t, [a]), Marker(claude), Turn(u, [b]), Turn(v, [c])])
    ensures WellFormed([Turn(t, [a])]) && WellFormed([Turn(u, [b]), Turn(v, [c])])
  {
    var marker := Marker(claude);
    var first, last := [Turn(t, [a])], [Turn(u, [b]), Turn(v, [c])];
    JustEntries(Turn(t, [a]));
    JustEntries(Turn(u, [b]));
    JustEntries(Turn(v, [c]));
    JustEntries(marker);
    EntriesConcat([Turn(u, [b])], [Turn(v, [c])]);
    EntriesConcat([marker], last);
    EntriesConcat(first, [marker] + last);
    assert [Turn(u, [b])] + [Turn(v, [c])] == last && first + ([marker] + last) == [Turn(t, [a]), marker, Turn(u, [b]), Turn(v, [c])];
    hide Entries;
    assert Entries(last) == [Entry(u, b), Entry(v, c)];
    assert Entries([Turn(t, [a]), marker, Turn(u, [b]), Turn(v, [c])]) == [Entry(t, a), Entry(marker.id, marker.items[0]), Entry(u, b), Entry(v, c)];
  }

  /**
   * The cursor that a page of the whole hands out names no segment: from its first item, of stock's segment, Claude's first
   * turn is not paged as the whole pages it, when only its second was read.
   */
  lemma {:induction false} WholeCursorMisplaced(t: Id, u: Id, v: Id, a: Id, b: Id, c: Id, stock: Id, claude: Id, limit: Option<int>, direction: Option<Direction>)
    requires t.Given? && u.Given? && v.Given? && a.Given? && b.Given? && c.Given? && t != u && u != v && t != v && a != b && b != c && a != c
    ensures var parts, text := Switched(t, u, v, a, b, c, stock, claude), Encoded(ItemKey, a, false);
            StitchedItems(parts, 1, Turn(u, [b]), 1, Some(ItemCursor(text, None)), limit, direction)
            != PaginateItems(Whole(parts), ItemsParams(Some(u), PageParams(Some(text), limit, direction)))
  {
    var parts, text := Switched(t, u, v, a, b, c, stock, claude), Encoded(ItemKey, a, false);
    assert ItemAnchor(text);
    hide *;
    SwitchedOlder(t, u, v, a, b, c, stock, claude, text);
    UnreadOlder(parts, 1, 1, 1, ItemCursor(text, None), limit, direction);
  }

  /** And an anchor of Claude's own segment, its marker's: the same. */
  lemma {:induction false} MarkerAnchorMisplaced(t: Id, u: Id, v: Id, a: Id, b: Id, c: Id, stock: Id, claude: Id, limit: Option<int>, direction: Option<Direction>)
    requires t.Given? && u.Given? && v.Given? && a.Given? && b.Given? && c.Given? && t != u && u != v && t != v && a != b && b != c && a != c
    ensures var parts, text := Switched(t, u, v, a, b, c, stock, claude), Encoded(ItemKey, Marker(claude).items[0], true);
            StitchedItems(parts, 1, Turn(u, [b]), 1, Some(ItemCursor(text, Some(1))), limit, direction)
            != PaginateItems(Whole(parts), ItemsParams(Some(u), PageParams(Some(text), limit, direction)))
  {
    var parts, text := Switched(t, u, v, a, b, c, stock, claude), Encoded(ItemKey, Marker(claude).items[0], true);
    assert ItemAnchor(text) && Marker(claude).items[0] == CompactionOf(SwitchOf(claude));
    hide *;
    SwitchedOlder(t, u, v, a, b, c, stock, claude, text);
    UnreadOlder(parts, 1, 1, 1, ItemCursor(text, Some(1)), limit, direction);
  }

  lemma {:induction false} SwitchedOlder(t: Id, u: Id, v: Id, a: Id, b: Id, c: Id, stock: Id, claude: Id, text: CursorText)
    requires t.Given? && u.Given? && v.Given? && a.Given? && b.Given? && c.Given? && t != u && u != v && t != v && a != b && b != c && a != c
    requires ItemAnchor(text) && text.anchor in {a, CompactionOf(SwitchOf(claude))}
    ensures Unread(Switched(t, u, v, a, b, c, stock, claude), 1, 1, 1, text) && Own(Switched(t, u, v, a, b, c, stock, claude), 1)[1] == Turn(u, [b])
  {
    var parts := Switched(t, u, v, a, b, c, stock, claude);
    hide WellFormed, Entries, Lineage, Own, UpTo, Whole;
    SwitchedIs(t, u, v, a, b, c, stock, claude);
    SwitchedOwn(t, u, v, a, b, c, stock, claude);
    var whole := Whole(parts);
    LineageWhole(parts);
    assert whole[0].items == [a] && whole[1].items == [CompactionOf(SwitchOf(claude))];
    if text.anchor == a { PlaceIs(whole, 2, 0, text); } else { PlaceIs(whole, 2, 1, text); }
    assert parts[1].turns[1..] == [Turn(v, [c])];
  }

  lemma {:induction false} LineageWhole(parts: seq<Part>)
    requires Lineage(parts)
    ensures WellFormed(Whole(parts))
  {
    hide WellFormed, Whole;
  }

  // ---- which markers the whole has ----

  ghost predicate HasTurn(turns: seq<Turn>, id: Id) {
    exists i :: 0 <= i < |turns| && turns[i].id == id
  }

  lemma {:induction false} HasTurnConcat(a: seq<Turn>, b: seq<Turn>, id: Id)
    ensures HasTurn(a + b, id) <==> HasTurn(a, id) || HasTurn(b, id)
  {
    if HasTurn(a, id) { var i :| 0 <= i < |a| && a[i].id == id; assert (a + b)[i].id == id; }
    if HasTurn(b, id) { var i :| 0 <= i < |b| && b[i].id == id; assert (a + b)[|a| + i].id == id; }
  }

  /** The whole has the marker turn of each Claude segment after the first, with its one item, and no other. */
  lemma {:induction false} MarkersWhole(parts: seq<Part>, n: nat, thread: Id)
    requires n <= |parts| && forall s :: 0 <= s < |parts| ==> Unmarked(parts[s].turns)
    ensures HasTurn(UpTo(parts, n), SwitchOf(thread)) <==> exists s :: 0 < s < n && parts[s].segment.provider == Claude && parts[s].segment.threadId == thread
    decreases n
  {
    if n > 0 {
      hide Own, HasTurn, Unmarked;
      MarkersWhole(parts, n - 1, thread);
      assert UpTo(parts, n) == UpTo(parts, n - 1) + Own(parts, n - 1);
      HasTurnConcat(UpTo(parts, n - 1), Own(parts, n - 1), SwitchOf(thread));
      MarkerOwn(parts, n - 1, thread);
      hide UpTo;
    } else {
      assert !HasTurn(UpTo(parts, 0), SwitchOf(thread));
    }
  }

  lemma {:induction false} MarkerOwn(parts: seq<Part>, index: nat, thread: Id)
    requires index < |parts| && Unmarked(parts[index].turns)
    ensures HasTurn(Own(parts, index), SwitchOf(thread)) <==> index > 0 && parts[index].segment.provider == Claude && parts[index].segment.threadId == thread
    ensures index > 0 && parts[index].segment.provider == Claude ==>
              Own(parts, index) != [] && Own(parts, index)[0] == Turn(SwitchOf(parts[index].segment.threadId), [CompactionOf(SwitchOf(parts[index].segment.threadId))])
  {
    hide Kept;
    var own := parts[index].turns[..Kept(parts[index])];
    assert !HasTurn(own, SwitchOf(thread));
    var marks := if Mark(parts, index) == 1 then [Marker(parts[index].segment.threadId)] else [];
    HasTurnConcat(marks, own, SwitchOf(thread));
    if Mark(parts, index) == 1 { assert HasTurn(marks, SwitchOf(thread)) <==> marks[0].id == SwitchOf(thread); }
  }
}
