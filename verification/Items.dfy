/**
 * One turn's items paged without the rest of the thread: `paginateItems` of src/protocol/turnPagination.ts and
 * `itemsPage` of src/claude/threads.ts.
 */
module Items {
  import opened Basics
  import opened Pagination

  datatype Turn = Turn(id: Id, items: seq<Id>)

  datatype Entry = Entry(turnId: Id, itemId: Id)

  datatype ItemsParams = ItemsParams(turnId: Option<Id>, page: PageParams)

  function TurnEntries(turn: Turn): seq<Entry> {
    seq(|turn.items|, i requires 0 <= i < |turn.items| => Entry(turn.id, turn.items[i]))
  }

  function Entries(turns: seq<Turn>): seq<Entry> {
    if turns == [] then [] else TurnEntries(turns[0]) + Entries(turns[1..])
  }

  function ItemIdOf(): Entry -> Id { (e: Entry) => e.itemId }

  function OfTurn(turnId: Option<Id>): Entry -> bool { (e: Entry) => turnId.None? || e.turnId == turnId.value }

  function PaginateItems(turns: seq<Turn>, params: ItemsParams): Result<Page<Entry>, PageError> {
    Paginate(Entries(turns), ItemKey, ItemIdOf(), params.page, Asc, OfTurn(params.turnId))
  }

  function FindTurn(turns: seq<Turn>, p: Turn -> bool): (i: int)
    ensures -1 <= i < |turns|
    ensures 0 <= i ==> p(turns[i]) && forall j :: 0 <= j < i ==> !p(turns[j])
    ensures i < 0 ==> forall j :: 0 <= j < |turns| ==> !p(turns[j])
  {
    if turns == [] then -1
    else if p(turns[0]) then 0
    else var rest := FindTurn(turns[1..], p);
         if rest < 0 then -1 else rest + 1
  }

  function HasId(id: Id): Turn -> bool { (t: Turn) => t.id == id }

  function HasItem(id: Id): Turn -> bool { (t: Turn) => id in t.items }

  /** `itemsPage`: the named turn alone, an anchor of another turn standing beside it in a marker turn. */
  function ItemsPage(turn: Turn, newest: seq<Turn>, page: PageParams): Result<Page<Entry>, PageError> {
    var params := ItemsParams(Some(turn.id), page);
    if page.cursor.None? || page.cursor.value.Unreadable? || page.cursor.value.key != ItemKey || page.cursor.value.anchor in turn.items then
      PaginateItems([turn], params)
    else
      var anchor := page.cursor.value.anchor;
      var turnAt := FindTurn(newest, HasId(turn.id));
      var anchorAt := FindTurn(newest, HasItem(anchor));
      var marker := Turn(AnchorOf(turn.id), [anchor]);
      if (if anchorAt >= 0 then anchorAt > turnAt else turnAt < 0)
      then PaginateItems([turn, marker], params)
      else PaginateItems([marker, turn], params)
  }

  // ---- a turn's items inside any list around it ----

  function Clamp(cut: int, size: nat): (c: nat)
    ensures c <= size
  {
    Max(0, Min(cut, size))
  }

  /** Filtering a list with the selected entries in one block shows that block's part on the cut's side. */
  lemma {:induction false} SideClamp<T>(a: seq<T>, b: seq<T>, c: seq<T>, selected: T -> bool, direction: Direction, cut: nat)
    requires cut <= |a + b + c|
    requires forall i :: 0 <= i < |a| ==> !selected(a[i])
    requires forall i :: 0 <= i < |b| ==> selected(b[i])
    requires forall i :: 0 <= i < |c| ==> !selected(c[i])
    ensures Filter(selected, Side(a + b + c, direction, cut)) == Side(b, direction, Clamp(cut - |a|, |b|))
  {
    var x, y, z := Clamp(cut, |a|), Clamp(cut - |a|, |b|), Clamp(cut - |a| - |b|, |c|);
    if direction.Asc? {
      assert (a + b + c)[cut..] == a[x..] + b[y..] + c[z..];
      FilterBlocks(selected, a[x..], b[y..], c[z..]);
    } else {
      assert (a + b + c)[..cut] == a[..x] + b[..y] + c[..z];
      FilterBlocks(selected, a[..x], b[..y], c[..z]);
      FilterReverse(selected, a[..x] + b[..y] + c[..z]);
    }
  }

  lemma {:induction false} FilterBlocks<T>(selected: T -> bool, a: seq<T>, b: seq<T>, c: seq<T>)
    requires forall i :: 0 <= i < |a| ==> !selected(a[i])
    requires forall i :: 0 <= i < |b| ==> selected(b[i])
    requires forall i :: 0 <= i < |c| ==> !selected(c[i])
    ensures Filter(selected, a + b + c) == b
  {
    FilterConcat(selected, a + b, c);
    FilterConcat(selected, a, b);
    FilterNone(selected, a);
    FilterAll(selected, b);
    FilterNone(selected, c);
  }

  /** Pages of the same entries still to show are the same page. */
  lemma {:induction false} SamePage<T>(left: seq<T>, right: seq<T>, key: CursorKey, idOf: T -> Id, params: PageParams, direction: Direction, selected: T -> bool)
    requires Remaining(left, key, idOf, params.cursor, params.direction.GetOr(direction), selected)
          == Remaining(right, key, idOf, params.cursor, params.direction.GetOr(direction), selected)
    ensures Paginate(left, key, idOf, params, direction, selected) == Paginate(right, key, idOf, params, direction, selected)
  {
    hide Paginate, Remaining;
    PageIs(left, key, idOf, params, direction, selected);
    PageIs(right, key, idOf, params, direction, selected);
  }

  /** What remains of a list whose selected entries are the block `b`. */
  lemma {:induction false} RemainingBlock(a: seq<Entry>, b: seq<Entry>, c: seq<Entry>, cursor: Option<CursorText>, direction: Direction, selected: Entry -> bool)
    requires forall i :: 0 <= i < |a| ==> !selected(a[i])
    requires forall i :: 0 <= i < |b| ==> selected(b[i])
    requires forall i :: 0 <= i < |c| ==> !selected(c[i])
    requires a + b + c != []
    ensures Remaining(a + b + c, ItemKey, ItemIdOf(), cursor, direction, selected) ==
            match CutOf(a + b + c, ItemKey, ItemIdOf(), cursor, direction)
            case Err(e) => Err(e)
            case Ok(cut) => Ok(Side(b, direction, Clamp(cut - |a|, |b|)))
  {
    hide FindIndex, Filter;
    var cut := CutOf(a + b + c, ItemKey, ItemIdOf(), cursor, direction);
    if cut.Ok? { SideClamp(a, b, c, selected, direction, cut.value); }
  }

  // ---- where an item stands among a thread's entries ----

  ghost predicate DistinctTurns(turns: seq<Turn>) {
    forall i, j :: 0 <= i < j < |turns| ==> turns[i].id != turns[j].id
  }

  /** No turn id and no item id twice, and no turn named like a marker turn. */
  ghost predicate WellFormed(turns: seq<Turn>) {
    && DistinctTurns(turns)
    && DistinctIds(Entries(turns), ItemIdOf())
    && forall i :: 0 <= i < |turns| ==> !turns[i].id.AnchorOf?
  }

  lemma {:induction false} EntriesConcat(a: seq<Turn>, b: seq<Turn>)
    ensures Entries(a + b) == Entries(a) + Entries(b)
  {
    if a == [] {
      assert a + b == b;
    } else {
      assert (a + b)[1..] == a[1..] + b;
      EntriesConcat(a[1..], b);
    }
  }

  /** A thread's entries are those before a turn, the turn's, and those after it. */
  lemma {:induction false} EntriesAround(turns: seq<Turn>, k: nat)
    requires k < |turns|
    ensures Entries(turns) == Entries(turns[..k]) + TurnEntries(turns[k]) + Entries(turns[k + 1..])
  {
    var before, turn, after := turns[..k], turns[k], turns[k + 1..];
    assert turns == before + ([turn] + after);
    assert ([turn] + after)[1..] == after;
    assert Entries([turn] + after) == TurnEntries(turn) + Entries(after);
    hide Entries, TurnEntries;
    EntriesConcat(before, [turn] + after);
    var a, b, c := Entries(before), TurnEntries(turn), Entries(after);
    assert a + (b + c) == a + b + c;
  }

  lemma {:induction false} EntriesOf(turns: seq<Turn>, i: nat) returns (j: nat)
    requires i < |Entries(turns)|
    ensures j < |turns| && Entries(turns)[i].turnId == turns[j].id && Entries(turns)[i].itemId in turns[j].items
  {
    var first := |TurnEntries(turns[0])|;
    if i < first {
      j := 0;
    } else {
      var rest := EntriesOf(turns[1..], i - first);
      j := rest + 1;
    }
  }

  /** The entry of an item of turn `j`. */
  lemma {:induction false} EntryAt(turns: seq<Turn>, j: nat, item: Id) returns (i: nat)
    requires j < |turns| && item in turns[j].items
    ensures |Entries(turns[..j])| <= i < |Entries(turns[..j])| + |turns[j].items| <= |Entries(turns)|
    ensures Entries(turns)[i] == Entry(turns[j].id, item)
  {
    EntriesAround(turns, j);
    var x :| 0 <= x < |turns[j].items| && turns[j].items[x] == item;
    i := |Entries(turns[..j])| + x;
  }

  ghost predicate NoTurn(turns: seq<Turn>, id: Id) {
    forall i :: 0 <= i < |turns| ==> turns[i].id != id
  }

  /** No entry of other turns is selected with a turn. */
  lemma {:induction false} OthersNotSelected(turns: seq<Turn>, id: Id)
    requires NoTurn(turns, id)
    ensures forall i :: 0 <= i < |Entries(turns)| ==> !OfTurn(Some(id))(Entries(turns)[i])
  {
    forall i | 0 <= i < |Entries(turns)| ensures !OfTurn(Some(id))(Entries(turns)[i]) {
      var j := EntriesOf(turns, i);
    }
  }

  /** An item stands where its turn's entries stand. */
  lemma {:induction false} FindItem(turns: seq<Turn>, j: nat, item: Id) returns (at: nat)
    requires WellFormed(turns) && j < |turns| && item in turns[j].items
    ensures FindIndex(Entries(turns), ItemIdOf(), item) == at
    ensures |Entries(turns[..j])| <= at < |Entries(turns[..j])| + |turns[j].items|
  {
    at := EntryAt(turns, j, item);
    FindDistinct(Entries(turns), ItemIdOf(), at);
  }

  lemma {:induction false} ItemInOneTurn(turns: seq<Turn>, j: nat, k: nat, item: Id)
    requires WellFormed(turns) && j < |turns| && k < |turns| && item in turns[j].items && item in turns[k].items
    ensures j == k
  {
    var x := EntryAt(turns, j, item);
    var y := EntryAt(turns, k, item);
    assert ItemIdOf()(Entries(turns)[x]) == ItemIdOf()(Entries(turns)[y]);
  }

  lemma {:induction false} EntriesPrefix(turns: seq<Turn>, j: nat, k: nat)
    requires j < k <= |turns|
    ensures |Entries(turns[..j])| + |turns[j].items| <= |Entries(turns[..k])|
  {
    EntriesAround(turns[..k], j);
    assert turns[..k][..j] == turns[..j];
  }

  // ---- the theorem ----

  predicate ItemAnchor(text: CursorText) { text.Encoded? && text.key == ItemKey }

  ghost predicate InThread(turns: seq<Turn>, item: Id) {
    exists j :: 0 <= j < |turns| && item in turns[j].items
  }

  /**
   * When the turn alone pages as the thread does, the newest turns read being `turns[m..]`: not when the anchor is of
   * an older turn and neither turn is among those read, nor when only the thread notices a bad cursor.
   */
  ghost predicate Faithful(turns: seq<Turn>, k: nat, m: nat, cursor: Option<CursorText>)
    requires k < |turns| && m <= |turns|
  {
    match cursor
    case None => true
    case Some(text) =>
      if !ItemAnchor(text) then turns[k].items != [] || Entries(turns) == []
      else if !InThread(turns, text.anchor) then Entries(turns) == []
      else turns[k].items == [] || forall j :: 0 <= j < |turns| && text.anchor in turns[j].items ==> !(j < k < m)
  }

  lemma {:induction false} EntriesSplit(left: seq<Turn>, turn: Turn, right: seq<Turn>)
    ensures Entries(left + [turn] + right) == Entries(left) + TurnEntries(turn) + Entries(right)
  {
    var all := left + [turn] + right;
    assert all[..|left|] == left && all[|left| + 1..] == right && all[|left|] == turn;
    EntriesAround(all, |left|);
  }

  /** The entries of a turn that a page of any turns around it has left to show. */
  lemma {:induction false} AroundRemaining(left: seq<Turn>, turn: Turn, right: seq<Turn>, page: PageParams)
    requires NoTurn(left, turn.id) && NoTurn(right, turn.id)
    ensures var direction := page.direction.GetOr(Asc);
            var entries := Entries(left) + TurnEntries(turn) + Entries(right);
            && entries == Entries(left + [turn] + right)
            && Remaining(entries, ItemKey, ItemIdOf(), page.cursor, direction, OfTurn(Some(turn.id))) ==
               if entries == [] then Ok([]) else
               match CutOf(entries, ItemKey, ItemIdOf(), page.cursor, direction)
               case Err(e) => Err(e)
               case Ok(cut) => Ok(Side(TurnEntries(turn), direction, Clamp(cut - |Entries(left)|, |turn.items|)))
  {
    hide CutOf, Side, Filter, Entries;
    EntriesSplit(left, turn, right);
    OthersNotSelected(left, turn.id);
    OthersNotSelected(right, turn.id);
    if Entries(left) + TurnEntries(turn) + Entries(right) != [] {
      RemainingBlock(Entries(left), TurnEntries(turn), Entries(right), page.cursor, page.direction.GetOr(Asc), OfTurn(Some(turn.id)));
    }
  }

  /** Where a cursor cuts a turn's own entries (`None`: it is no cursor of these turns). */
  function OwnCut(left: seq<Turn>, turn: Turn, right: seq<Turn>, cursor: Option<CursorText>, direction: Direction): Result<nat, PageError> {
    var entries := Entries(left) + TurnEntries(turn) + Entries(right);
    if entries == [] then Ok(0) else
    match CutOf(entries, ItemKey, ItemIdOf(), cursor, direction)
    case Err(e) => Err(e)
    case Ok(cut) => Ok(Clamp(cut - |Entries(left)|, |turn.items|))
  }

  /** What a page of any turns around a turn has left to show, told by the cut of its own entries. */
  function OwnLeft(turn: Turn, cut: Result<nat, PageError>, direction: Direction): Result<seq<Entry>, PageError>
    requires cut.Ok? ==> cut.value <= |turn.items|
  {
    match cut case Err(e) => Err(e) case Ok(c) => Ok(Side(TurnEntries(turn), direction, c))
  }

  lemma {:induction false} AroundIsOwn(left: seq<Turn>, turn: Turn, right: seq<Turn>, page: PageParams)
    requires NoTurn(left, turn.id) && NoTurn(right, turn.id)
    ensures var direction := page.direction.GetOr(Asc);
            var cut := OwnCut(left, turn, right, page.cursor, direction);
            && (cut.Ok? ==> cut.value <= |turn.items|)
            && Remaining(Entries(left + [turn] + right), ItemKey, ItemIdOf(), page.cursor, direction, OfTurn(Some(turn.id))) == OwnLeft(turn, cut, direction)
  {
    hide CutOf, Remaining, Entries, NoTurn;
    AroundRemaining(left, turn, right, page);
    if Entries(left) + TurnEntries(turn) + Entries(right) == [] { assert TurnEntries(turn) == []; }
  }

  /** A turn's pages inside two lists are equal when the cursor cuts its entries alike in both. */
  lemma {:induction false} SameAround(left: seq<Turn>, turn: Turn, right: seq<Turn>, left': seq<Turn>, right': seq<Turn>, page: PageParams)
    requires NoTurn(left, turn.id) && NoTurn(right, turn.id) && NoTurn(left', turn.id) && NoTurn(right', turn.id)
    requires var direction := page.direction.GetOr(Asc);
             OwnCut(left, turn, right, page.cursor, direction) == OwnCut(left', turn, right', page.cursor, direction)
    ensures var params := ItemsParams(Some(turn.id), page);
            PaginateItems(left + [turn] + right, params) == PaginateItems(left' + [turn] + right', params)
  {
    hide CutOf, Remaining, Paginate, Entries, OwnCut, NoTurn, OwnLeft;
    AroundIsOwn(left, turn, right, page);
    AroundIsOwn(left', turn, right', page);
    SamePage(Entries(left + [turn] + right), Entries(left' + [turn] + right'), ItemKey, ItemIdOf(), page, Asc, OfTurn(Some(turn.id)));
  }

  lemma {:induction false} DifferentPages(left: seq<Entry>, right: seq<Entry>, page: PageParams, selected: Entry -> bool)
    requires var direction := page.direction.GetOr(Asc);
             var one := Remaining(left, ItemKey, ItemIdOf(), page.cursor, direction, selected);
             var other := Remaining(right, ItemKey, ItemIdOf(), page.cursor, direction, selected);
             one.Ok? != other.Ok? || (one.Ok? && other.Ok? && (one.value == []) != (other.value == []))
    ensures Paginate(left, ItemKey, ItemIdOf(), page, Asc, selected) != Paginate(right, ItemKey, ItemIdOf(), page, Asc, selected)
  {
    hide Remaining, Paginate;
    PageIs(left, ItemKey, ItemIdOf(), page, Asc, selected);
    PageIs(right, ItemKey, ItemIdOf(), page, Asc, selected);
  }

  /** Lists that cut a turn's entries on its two sides, or of which only one knows the cursor, page it differently. */
  lemma {:induction false} DifferentAround(left: seq<Turn>, turn: Turn, right: seq<Turn>, left': seq<Turn>, right': seq<Turn>, page: PageParams)
    requires NoTurn(left, turn.id) && NoTurn(right, turn.id) && NoTurn(left', turn.id) && NoTurn(right', turn.id)
    requires var direction := page.direction.GetOr(Asc);
             var one := OwnCut(left, turn, right, page.cursor, direction);
             var other := OwnCut(left', turn, right', page.cursor, direction);
             || one.Ok? != other.Ok?
             || (turn.items != [] && one.Ok? && other.Ok? && {one.value, other.value} == {0, |turn.items|})
    ensures var params := ItemsParams(Some(turn.id), page);
            PaginateItems(left + [turn] + right, params) != PaginateItems(left' + [turn] + right', params)
  {
    hide CutOf, Remaining, Paginate, Entries, NoTurn;
    AroundRemaining(left, turn, right, page);
    AroundRemaining(left', turn, right', page);
    DifferentPages(Entries(left + [turn] + right), Entries(left' + [turn] + right'), page, OfTurn(Some(turn.id)));
  }

  function Before(turns: seq<Turn>, k: nat): seq<Turn> requires k < |turns| { turns[..k] }

  function After(turns: seq<Turn>, k: nat): seq<Turn> requires k < |turns| { turns[k + 1..] }

  /** An anchor of another turn cuts a turn's entries on its own side of them. */
  lemma {:induction false} ThreadCutElsewhere(turns: seq<Turn>, k: nat, j: nat, text: CursorText, direction: Direction)
    requires WellFormed(turns) && k < |turns| && j < |turns| && j != k
    requires ItemAnchor(text) && text.anchor in turns[j].items
    ensures OwnCut(Before(turns, k), turns[k], After(turns, k), Some(text), direction) == Ok(if j < k then 0 else |turns[k].items|)
  {
    EntriesAround(turns, k);
    var at := FindItem(turns, j, text.anchor);
    if j < k { EntriesPrefix(turns, j, k); }
    else { EntriesPrefix(turns, k, j); }
  }

  lemma {:induction false} FindInside(a: seq<Entry>, b: seq<Entry>, c: seq<Entry>, x: nat)
    requires DistinctIds(a + b + c, ItemIdOf()) && x < |b|
    ensures FindIndex(a + b + c, ItemIdOf(), b[x].itemId) == |a| + x
    ensures FindIndex(b, ItemIdOf(), b[x].itemId) == x
  {
    assert forall i :: 0 <= i < |b| ==> b[i] == (a + b + c)[|a| + i];
    FindDistinct(a + b + c, ItemIdOf(), |a| + x);
    FindDistinct(b, ItemIdOf(), x);
  }

  /** An anchor of the turn itself cuts its entries where it cuts the turn alone. */
  lemma {:induction false} ThreadCutInside(turns: seq<Turn>, k: nat, text: CursorText, direction: Direction)
    requires WellFormed(turns) && k < |turns|
    requires ItemAnchor(text) && text.anchor in turns[k].items
    ensures OwnCut(Before(turns, k), turns[k], After(turns, k), Some(text), direction) == OwnCut([], turns[k], [], Some(text), direction)
  {
    hide FindIndex, Entries, CutOf;
    var own := TurnEntries(turns[k]);
    var x :| 0 <= x < |turns[k].items| && turns[k].items[x] == text.anchor;
    assert own[x].itemId == text.anchor && |own| == |turns[k].items|;
    EntriesAround(turns, k);
    assert DistinctIds(Entries(turns), ItemIdOf());
    hide WellFormed, TurnEntries, DistinctIds, ItemAnchor;
    var before, after := Entries(Before(turns, k)), Entries(After(turns, k));
    CutInside(before, own, after, x, text, direction);
    NoEntries();
    assert [] + own + [] == own && own != [] && before + own + after != [];
    InsideCut(|before|, |own|, SliceAt(direction, text.includeAnchor, |before| + x), SliceAt(direction, text.includeAnchor, x));
    hide SliceAt, Clamp;
  }

  lemma {:induction false} CutInside(before: seq<Entry>, own: seq<Entry>, after: seq<Entry>, x: nat, text: CursorText, direction: Direction)
    requires DistinctIds(before + own + after, ItemIdOf()) && x < |own|
    requires ItemAnchor(text) && own[x].itemId == text.anchor
    ensures CutOf(before + own + after, ItemKey, ItemIdOf(), Some(text), direction) == Ok(SliceAt(direction, text.includeAnchor, |before| + x))
    ensures CutOf(own, ItemKey, ItemIdOf(), Some(text), direction) == Ok(SliceAt(direction, text.includeAnchor, x))
  {
    hide *;
    FindInside(before, own, after, x);
    CutAtAnchor(before + own + after, text, direction, |before| + x);
    CutAtAnchor(own, text, direction, x);
  }

  lemma {:induction false} CutAtAnchor(entries: seq<Entry>, text: CursorText, direction: Direction, at: nat)
    requires ItemAnchor(text) && at < |entries| && FindIndex(entries, ItemIdOf(), text.anchor) == at
    ensures CutOf(entries, ItemKey, ItemIdOf(), Some(text), direction) == Ok(SliceAt(direction, text.includeAnchor, at))
  {
    hide FindIndex;
  }

  lemma {:induction false} NoEntries()
    ensures Entries([]) == []
  {}

  lemma {:induction false} InsideCut(before: nat, own: nat, cut: nat, alone: nat)
    requires cut == before + alone && alone <= own
    ensures Clamp(cut - before, own) == Clamp(alone, own)
  {}

  /** Beside a marker turn, an anchor cuts the turn's entries on the marker's side. */
  lemma {:induction false} MarkerCut(turn: Turn, text: CursorText, direction: Direction, newer: bool)
    requires ItemAnchor(text) && text.anchor !in turn.items
    ensures var marker := Turn(AnchorOf(turn.id), [text.anchor]);
            OwnCut(if newer then [] else [marker], turn, if newer then [marker] else [], Some(text), direction)
            == Ok(if newer then |turn.items| else 0)
  {
    var marker := Turn(AnchorOf(turn.id), [text.anchor]);
    var own, aside := TurnEntries(turn), TurnEntries(marker);
    assert Entries([marker]) == aside;
    assert own + aside == [] + own + aside && aside + own == aside + own + [];
    if newer {
      assert (own + aside)[|own|] == aside[0];
      var at := FindIndex(own + aside, ItemIdOf(), text.anchor);
      assert at == |own|;
    }
  }

  /** No anchor at all, or one no list knows, cuts a turn's entries alike in every list with entries. */
  lemma {:induction false} SameElsewhere(left: seq<Turn>, turn: Turn, right: seq<Turn>, page: PageParams)
    requires NoTurn(left, turn.id) && NoTurn(right, turn.id)
    requires page.cursor.Some? ==> !ItemAnchor(page.cursor.value)
    ensures var params := ItemsParams(Some(turn.id), page);
            PaginateItems([turn], params) == PaginateItems(left + [turn] + right, params) <==>
            page.cursor.None? || turn.items != [] || Entries(left + [turn] + right) == []
  {
    EntriesSplit(left, turn, right);
    EntriesSplit([], turn, []);
    assert [] + [turn] + [] == [turn];
    var direction := page.direction.GetOr(Asc);
    if page.cursor.None? || turn.items != [] || Entries(left + [turn] + right) == [] {
      assert OwnCut([], turn, [], page.cursor, direction) == OwnCut(left, turn, right, page.cursor, direction);
      SameAround([], turn, [], left, right, page);
    } else {
      DifferentAround([], turn, [], left, right, page);
    }
  }

  /** The branch of `ItemsPage` that sets a marker turn, by which side it sets it on. */
  lemma {:induction false} MarkerPage(turn: Turn, newest: seq<Turn>, page: PageParams, newer: bool)
    requires page.cursor.Some? && ItemAnchor(page.cursor.value) && page.cursor.value.anchor !in turn.items
    requires var anchorAt := FindTurn(newest, HasItem(page.cursor.value.anchor));
             var turnAt := FindTurn(newest, HasId(turn.id));
             newer == if anchorAt >= 0 then anchorAt > turnAt else turnAt < 0
    ensures var marker := Turn(AnchorOf(turn.id), [page.cursor.value.anchor]);
            ItemsPage(turn, newest, page) ==
            PaginateItems((if newer then [] else [marker]) + [turn] + (if newer then [marker] else []), ItemsParams(Some(turn.id), page))
  {
    var marker := Turn(AnchorOf(turn.id), [page.cursor.value.anchor]);
    assert [] + [turn] + [marker] == [turn, marker] && [marker] + [turn] + [] == [marker, turn];
  }

  /** The side the marker is set on, given where the anchor's turn is. */
  lemma {:induction false} MarkerSide(turns: seq<Turn>, k: nat, j: nat, m: nat, anchor: Id)
    requires WellFormed(turns) && k < |turns| && j < |turns| && j != k && m <= |turns|
    requires anchor in turns[j].items
    ensures var newest := turns[m..];
            var anchorAt := FindTurn(newest, HasItem(anchor));
            var turnAt := FindTurn(newest, HasId(turns[k].id));
            (if anchorAt >= 0 then anchorAt > turnAt else turnAt < 0) == (j > k || (j < k < m))
  {
    hide Entries;
    var newest := turns[m..];
    var anchorAt := FindTurn(newest, HasItem(anchor));
    var turnAt := FindTurn(newest, HasId(turns[k].id));
    if anchorAt >= 0 { ItemInOneTurn(turns, j, m + anchorAt, anchor); }
    if j >= m { assert newest[j - m] == turns[j]; }
    if k >= m { assert newest[k - m] == turns[k]; }
  }

  lemma {:induction false} NotInThread(turns: seq<Turn>, k: nat, text: CursorText, direction: Direction)
    requires k < |turns| && ItemAnchor(text) && !InThread(turns, text.anchor)
    ensures OwnCut(Before(turns, k), turns[k], After(turns, k), Some(text), direction) == if Entries(turns) == [] then Ok(0) else Err(AnchorGone)
    ensures Entries(turns) == [] ==> turns[k].items == []
  {
    EntriesAround(turns, k);
    var at := FindIndex(Entries(turns), ItemIdOf(), text.anchor);
    if at >= 0 { var j := EntriesOf(turns, at); }
    assert |TurnEntries(turns[k])| == |turns[k].items|;
  }

  /** The marker turn's page against the thread's, given where the anchor cuts the turn's entries in the thread. */
  lemma {:induction false} MarkerAgainst(turns: seq<Turn>, k: nat, m: nat, page: PageParams, newer: bool)
    requires WellFormed(turns) && k < |turns| && m <= |turns|
    requires page.cursor.Some? && ItemAnchor(page.cursor.value) && page.cursor.value.anchor !in turns[k].items
    requires var anchorAt := FindTurn(turns[m..], HasItem(page.cursor.value.anchor));
             var turnAt := FindTurn(turns[m..], HasId(turns[k].id));
             newer == if anchorAt >= 0 then anchorAt > turnAt else turnAt < 0
    ensures var own := OwnCut(Before(turns, k), turns[k], After(turns, k), page.cursor, page.direction.GetOr(Asc));
            var here := PaginateItems(turns, ItemsParams(Some(turns[k].id), page));
            && (own == Ok(if newer then |turns[k].items| else 0) ==> ItemsPage(turns[k], turns[m..], page) == here)
            && (own.Err? || (turns[k].items != [] && own == Ok(if newer then 0 else |turns[k].items|)) ==> ItemsPage(turns[k], turns[m..], page) != here)
  {
    hide PaginateItems, OwnCut, FindTurn, Entries, ItemsPage, DistinctIds;
    var turn, direction := turns[k], page.direction.GetOr(Asc);
    var left, right := Before(turns, k), After(turns, k);
    assert turns == left + [turn] + right;
    var marker := Turn(AnchorOf(turn.id), [page.cursor.value.anchor]);
    var left', right' := if newer then [] else [marker], if newer then [marker] else [];
    MarkerPage(turn, turns[m..], page, newer);
    MarkerCut(turn, page.cursor.value, direction, newer);
    var own := OwnCut(left, turn, right, page.cursor, direction);
    if own == Ok(if newer then |turn.items| else 0) {
      SameAround(left', turn, right', left, right, page);
    } else if own.Err? || (turn.items != [] && own == Ok(if newer then 0 else |turn.items|)) {
      DifferentAround(left', turn, right', left, right, page);
    }
  }

  lemma {:induction false} AnchorElsewhere(turns: seq<Turn>, k: nat, m: nat, page: PageParams)
    requires WellFormed(turns) && k < |turns| && m <= |turns|
    requires page.cursor.Some? && ItemAnchor(page.cursor.value) && page.cursor.value.anchor !in turns[k].items
    ensures ItemsPage(turns[k], turns[m..], page) == PaginateItems(turns, ItemsParams(Some(turns[k].id), page))
            <==> Faithful(turns, k, m, page.cursor)
  {
    hide PaginateItems, OwnCut, FindTurn, Entries, ItemsPage, WellFormed;
    var text := page.cursor.value;
    var direction := page.direction.GetOr(Asc);
    var anchorAt, turnAt := FindTurn(turns[m..], HasItem(text.anchor)), FindTurn(turns[m..], HasId(turns[k].id));
    MarkerAgainst(turns, k, m, page, if anchorAt >= 0 then anchorAt > turnAt else turnAt < 0);
    if InThread(turns, text.anchor) {
      var j :| 0 <= j < |turns| && text.anchor in turns[j].items;
      forall i | 0 <= i < |turns| && text.anchor in turns[i].items ensures i == j { ItemInOneTurn(turns, i, j, text.anchor); }
      MarkerSide(turns, k, j, m, text.anchor);
      ThreadCutElsewhere(turns, k, j, text, direction);
    } else {
      NotInThread(turns, k, text, direction);
    }
  }

  /**
   * Paging one turn's items alone, or beside a marker turn for an anchor elsewhere, is paging all of the thread's items
   * filtered to that turn, in both directions and with the same cursors and errors, exactly when `Faithful`.
   */
  lemma {:induction false} ItemsPageIsThreadPage(turns: seq<Turn>, k: nat, m: nat, page: PageParams)
    requires WellFormed(turns) && k < |turns| && m <= |turns|
    ensures ItemsPage(turns[k], turns[m..], page) == PaginateItems(turns, ItemsParams(Some(turns[k].id), page))
            <==> Faithful(turns, k, m, page.cursor)
  {
    hide PaginateItems, OwnCut, FindTurn;
    var turn, left, right := turns[k], Before(turns, k), After(turns, k);
    assert turns == left + [turn] + right;
    assert [] + [turn] + [] == [turn];
    var direction := page.direction.GetOr(Asc);
    if page.cursor.None? || !ItemAnchor(page.cursor.value) {
      SameElsewhere(left, turn, right, page);
    } else {
      var text := page.cursor.value;
      if text.anchor in turn.items {
        ThreadCutInside(turns, k, text, direction);
        SameAround([], turn, [], left, right, page);
        forall j | 0 <= j < |turns| && text.anchor in turns[j].items ensures j == k { ItemInOneTurn(turns, j, k, text.anchor); }
      } else {
        AnchorElsewhere(turns, k, m, page);
      }
    }
  }

  lemma {:induction false} ThreeTurns(t: Id, u: Id, v: Id, a: Id, b: Id, c: Id)
    requires t.Given? && u.Given? && v.Given? && t != u && u != v && t != v && a != b && b != c && a != c
    ensures WellFormed([Turn(t, [a]), Turn(u, [b]), Turn(v, [c])])
  {
    var turns := [Turn(t, [a]), Turn(u, [b]), Turn(v, [c])];
    assert turns[1..] == [Turn(u, [b]), Turn(v, [c])] && turns[1..][1..] == [Turn(v, [c])] && [Turn(v, [c])][1..] == [];
    assert Entries([Turn(v, [c])]) == [Entry(v, c)];
    assert Entries([Turn(u, [b]), Turn(v, [c])]) == [Entry(u, b), Entry(v, c)];
    assert Entries(turns) == [Entry(t, a), Entry(u, b), Entry(v, c)];
  }

  /** Three turns of which the last was read: the second one's page from the first one's item is not the thread's. */
  lemma {:induction false} OlderAnchorMisplaced(t: Id, u: Id, v: Id, a: Id, b: Id, c: Id, limit: Option<int>, direction: Option<Direction>)
    requires t.Given? && u.Given? && v.Given? && t != u && u != v && t != v && a != b && b != c && a != c
    ensures var turns, page := [Turn(t, [a]), Turn(u, [b]), Turn(v, [c])], PageParams(Some(Encoded(ItemKey, a, true)), limit, direction);
            ItemsPage(turns[1], turns[2..], page) != PaginateItems(turns, ItemsParams(Some(u), page))
  {
    var turns, page := [Turn(t, [a]), Turn(u, [b]), Turn(v, [c])], PageParams(Some(Encoded(ItemKey, a, true)), limit, direction);
    ThreeTurns(t, u, v, a, b, c);
    ItemsPageIsThreadPage(turns, 1, 2, page);
    assert a in turns[0].items && turns[1].items != [];
    hide ItemsPage, PaginateItems, Entries;
  }
}
