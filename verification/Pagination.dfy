/** src/protocol/turnPagination.ts: anchor pagination over a chronological list. */
module Pagination {
  import opened Basics

  datatype CursorKey = TurnKey | ItemKey

  /** A cursor text: an encoded anchor under one key, or anything else. */
  datatype CursorText = Encoded(key: CursorKey, anchor: Id, includeAnchor: bool) | Unreadable

  datatype Direction = Asc | Desc

  datatype PageParams = PageParams(cursor: Option<CursorText>, limit: Option<int>, direction: Option<Direction>)

  datatype PageError = InvalidCursor | AnchorGone

  datatype Page<+T> = Page(data: seq<T>, nextCursor: Option<CursorText>, backwardsCursor: Option<CursorText>)

  /** An entry with its position in the whole list. */
  datatype Keyed<+T> = Keyed(entry: T, index: nat)

  function Number<T>(entries: seq<T>): seq<Keyed<T>> {
    seq(|entries|, i requires 0 <= i < |entries| => Keyed(entries[i], i))
  }

  function FindIndex<T>(entries: seq<T>, idOf: T -> Id, id: Id): (i: int)
    ensures -1 <= i < |entries|
    ensures 0 <= i ==> idOf(entries[i]) == id && forall j :: 0 <= j < i ==> idOf(entries[j]) != id
    ensures i < 0 ==> forall j :: 0 <= j < |entries| ==> idOf(entries[j]) != id
  {
    if entries == [] then -1
    else if idOf(entries[0]) == id then 0
    else var rest := FindIndex(entries[1..], idOf, id);
         if rest < 0 then -1 else rest + 1
  }

  /** Whether a position lies on the anchor's side of the page. */
  predicate OnSide(direction: Direction, includeAnchor: bool, anchorIndex: int, index: int) {
    match direction
    case Asc => if includeAnchor then index >= anchorIndex else index > anchorIndex
    case Desc => if includeAnchor then index <= anchorIndex else index < anchorIndex
  }

  function EntryOf<T>(): Keyed<T> -> T { (k: Keyed<T>) => k.entry }

  function SelectedKeyed<T>(selected: T -> bool): Keyed<T> -> bool { (k: Keyed<T>) => selected(k.entry) }

  function OnSideOf<T>(direction: Direction, includeAnchor: bool, anchorIndex: int): Keyed<T> -> bool {
    (k: Keyed<T>) => OnSide(direction, includeAnchor, anchorIndex, k.index)
  }

  function PageLimit(limit: Option<int>): (n: nat)
    ensures 1 <= n <= 100
    ensures match limit case None => n == 25 case Some(asked) => if asked < 1 then n == 1 else if asked > 100 then n == 100 else n == asked
  {
    Max(1, Min(limit.GetOr(25), 100))
  }

  function Paginate<T>(entries: seq<T>, key: CursorKey, idOf: T -> Id, params: PageParams, defaultDirection: Direction, selected: T -> bool)
    : Result<Page<T>, PageError>
  {
    if entries == [] then Ok(Page([], None, None)) else
    match PastCursor(entries, key, idOf, params.cursor, params.direction.GetOr(defaultDirection))
    case Err(e) => Err(e)
    case Ok(keyed) => Ok(Cut(keyed, key, idOf, params.limit, selected))
  }

  /** Like stock, anchors are positions in the whole list; what is selected applies on top. */
  function PastCursor<T>(entries: seq<T>, key: CursorKey, idOf: T -> Id, cursor: Option<CursorText>, direction: Direction)
    : Result<seq<Keyed<T>>, PageError>
  {
    var keyed := if direction.Desc? then Reverse(Number(entries)) else Number(entries);
    match cursor
    case None => Ok(keyed)
    case Some(text) =>
      if text.Unreadable? || text.key != key then Err(InvalidCursor) else
      var anchorIndex := FindIndex(entries, idOf, text.anchor);
      if anchorIndex < 0 then Err(AnchorGone)
      else Ok(Filter(OnSideOf(direction, text.includeAnchor, anchorIndex), keyed))
  }

  /** The first page of the entries kept, and the cursors around it. */
  function Cut<T>(keyed: seq<Keyed<T>>, key: CursorKey, idOf: T -> Id, limit: Option<int>, selected: T -> bool): Page<T> {
    var kept := Filter(SelectedKeyed(selected), keyed);
    var n := PageLimit(limit);
    var page := Map(EntryOf(), kept[..Min(n, |kept|)]);
    Page(page,
         if |kept| > n then Some(Encoded(key, idOf(page[|page| - 1]), false)) else None,
         if page != [] then Some(Encoded(key, idOf(page[0]), true)) else None)
  }

  // ---- what a page shows, in terms of the list alone ----

  ghost predicate DistinctIds<T>(entries: seq<T>, idOf: T -> Id) {
    forall i, j :: 0 <= i < j < |entries| ==> idOf(entries[i]) != idOf(entries[j])
  }

  function SliceAt(direction: Direction, includeAnchor: bool, anchorIndex: nat): (cut: nat)
    ensures anchorIndex <= cut <= anchorIndex + 1
  {
    if includeAnchor == direction.Asc? then anchorIndex else anchorIndex + 1
  }

  /** The entries on one side of a cut, in page order: oldest first after it, or newest first before it. */
  function Side<T>(entries: seq<T>, direction: Direction, cut: nat): seq<T>
    requires cut <= |entries|
  {
    if direction.Asc? then entries[cut..] else Reverse(entries[..cut])
  }

  /** The cut a cursor stands for. */
  function CutOf<T>(entries: seq<T>, key: CursorKey, idOf: T -> Id, cursor: Option<CursorText>, direction: Direction): (r: Result<nat, PageError>)
    ensures r.Ok? ==> r.value <= |entries|
  {
    match cursor
    case None => Ok(if direction.Asc? then 0 else |entries|)
    case Some(text) =>
      if text.Unreadable? || text.key != key then Err(InvalidCursor) else
      var at := FindIndex(entries, idOf, text.anchor);
      if at < 0 then Err(AnchorGone) else Ok(SliceAt(direction, text.includeAnchor, at))
  }

  /** All that a walk from `cursor` still has to show, in page order. */
  function Remaining<T>(entries: seq<T>, key: CursorKey, idOf: T -> Id, cursor: Option<CursorText>, direction: Direction, selected: T -> bool)
    : Result<seq<T>, PageError>
  {
    if entries == [] then Ok([]) else
    match CutOf(entries, key, idOf, cursor, direction)
    case Err(e) => Err(e)
    case Ok(cut) => Ok(Filter(selected, Side(entries, direction, cut)))
  }

  lemma {:induction false} FilterAll<T>(p: T -> bool, s: seq<T>)
    requires forall i :: 0 <= i < |s| ==> p(s[i])
    ensures Filter(p, s) == s
  {
    if s != [] { FilterAll(p, s[1..]); }
  }

  lemma {:induction false} FilterNone<T>(p: T -> bool, s: seq<T>)
    requires forall i :: 0 <= i < |s| ==> !p(s[i])
    ensures Filter(p, s) == []
  {
    if s != [] { FilterNone(p, s[1..]); }
  }

  /** A filter that passes from a cut on keeps the rest of the list. */
  lemma {:induction false} KeepAfter<T>(p: T -> bool, s: seq<T>, cut: nat)
    requires cut <= |s|
    requires forall i :: 0 <= i < cut ==> !p(s[i])
    requires forall i :: cut <= i < |s| ==> p(s[i])
    ensures Filter(p, s) == s[cut..]
  {
    assert s == s[..cut] + s[cut..];
    assert Filter(p, s) == Filter(p, s[..cut]) + Filter(p, s[cut..]) by { FilterConcat(p, s[..cut], s[cut..]); }
    assert Filter(p, s[..cut]) == [] by { FilterNone(p, s[..cut]); }
    assert Filter(p, s[cut..]) == s[cut..] by { FilterAll(p, s[cut..]); }
  }

  lemma {:induction false} KeepBefore<T>(p: T -> bool, s: seq<T>, cut: nat)
    requires cut <= |s|
    requires forall i :: 0 <= i < cut ==> p(s[i])
    requires forall i :: cut <= i < |s| ==> !p(s[i])
    ensures Filter(p, s) == s[..cut]
  {
    assert s == s[..cut] + s[cut..];
    assert Filter(p, s) == Filter(p, s[..cut]) + Filter(p, s[cut..]) by { FilterConcat(p, s[..cut], s[cut..]); }
    assert Filter(p, s[..cut]) == s[..cut] by { FilterAll(p, s[..cut]); }
    assert Filter(p, s[cut..]) == [] by { FilterNone(p, s[cut..]); }
  }

  /** Filtering numbered entries by position is slicing, whichever way they are listed. */
  lemma {:induction false} PastIs<T>(entries: seq<T>, numbered: seq<Keyed<T>>, direction: Direction, includeAnchor: bool, at: nat)
    requires at < |entries| == |numbered|
    requires forall i :: 0 <= i < |entries| ==> numbered[i] == Keyed(entries[i], i)
    ensures var all := if direction.Desc? then Reverse(numbered) else numbered;
            Map(EntryOf(), Filter(OnSideOf(direction, includeAnchor, at), all)) == Side(entries, direction, SliceAt(direction, includeAnchor, at))
  {
    var p := OnSideOf<T>(direction, includeAnchor, at);
    var cut := SliceAt(direction, includeAnchor, at);
    hide Filter;
    if direction.Asc? {
      KeepAfter(p, numbered, cut);
      assert Map(EntryOf(), numbered[cut..]) == entries[cut..];
    } else {
      KeepBefore(p, numbered, cut);
      FilterReverse(p, numbered);
      assert Map(EntryOf(), Reverse(numbered[..cut])) == Reverse(entries[..cut]);
    }
  }

  lemma {:induction false} FilterMapEntry<T>(selected: T -> bool, keyed: seq<Keyed<T>>)
    ensures Map(EntryOf(), Filter(SelectedKeyed(selected), keyed))
         == Filter(selected, Map(EntryOf(), keyed))
  {
    var f := EntryOf<T>();
    if keyed != [] {
      FilterMapEntry(selected, keyed[1..]);
      assert Map(f, keyed)[1..] == Map(f, keyed[1..]);
    }
  }

  /**
   * What a page is of the entries `rest` still to show: the first `limit` of them; `nextCursor` names the last of
   * these exactly when more follow, `backwardsCursor` the first.
   */
  ghost predicate IsPageOf<T>(page: Page<T>, rest: seq<T>, key: CursorKey, idOf: T -> Id, limit: Option<int>) {
    var n := PageLimit(limit);
    && page.data == rest[..Min(n, |rest|)]
    && page.nextCursor == (if |rest| > n then Some(Encoded(key, idOf(rest[n - 1]), false)) else None)
    && page.backwardsCursor == (if rest != [] then Some(Encoded(key, idOf(rest[0]), true)) else None)
  }

  lemma {:induction false} CutIs<T>(keyed: seq<Keyed<T>>, rest: seq<T>, key: CursorKey, idOf: T -> Id, limit: Option<int>, selected: T -> bool)
    requires Map(EntryOf(), keyed) == rest
    ensures IsPageOf(Cut(keyed, key, idOf, limit, selected), Filter(selected, rest), key, idOf, limit)
  {
    FilterMapEntry(selected, keyed);
  }

  lemma {:induction false} PastCursorIs<T>(entries: seq<T>, key: CursorKey, idOf: T -> Id, cursor: Option<CursorText>, direction: Direction, selected: T -> bool)
    requires entries != []
    ensures var rest := Remaining(entries, key, idOf, cursor, direction, selected);
            match PastCursor(entries, key, idOf, cursor, direction)
            case Err(e) => rest == Err(e)
            case Ok(keyed) => rest == Ok(Filter(selected, Map(EntryOf(), keyed)))
  {
    if cursor.Some? && cursor.value.Encoded? && cursor.value.key == key {
      var at := FindIndex(entries, idOf, cursor.value.anchor);
      if 0 <= at { PastIs(entries, Number(entries), direction, cursor.value.includeAnchor, at); }
    } else if cursor.None? {
      assert Map(EntryOf(), Number(entries)) == Side(entries, Asc, 0);
      assert Map(EntryOf(), Reverse(Number(entries))) == Side(entries, Desc, |entries|);
    }
  }

  /** `Paginate` fails exactly when its cursor does, and otherwise shows the first entries past the cursor. */
  lemma {:induction false} PageIs<T>(entries: seq<T>, key: CursorKey, idOf: T -> Id, params: PageParams, defaultDirection: Direction, selected: T -> bool)
    ensures var rest := Remaining(entries, key, idOf, params.cursor, params.direction.GetOr(defaultDirection), selected);
            match Paginate(entries, key, idOf, params, defaultDirection, selected)
            case Err(e) => rest == Err(e)
            case Ok(page) => rest.Ok? && IsPageOf(page, rest.value, key, idOf, params.limit)
  {
    var direction := params.direction.GetOr(defaultDirection);
    if entries != [] {
      PastCursorIs(entries, key, idOf, params.cursor, direction, selected);
      var keyed := PastCursor(entries, key, idOf, params.cursor, direction);
      if keyed.Ok? { CutIs(keyed.value, Map(EntryOf(), keyed.value), key, idOf, params.limit, selected); }
    }
  }

  /** A page holds as many entries as were asked for, 25 if none were told and 1 to 100 else, or all that remain if these are fewer. */
  lemma {:induction false} PageHolds<T>(entries: seq<T>, key: CursorKey, idOf: T -> Id, params: PageParams, defaultDirection: Direction, selected: T -> bool)
    requires Paginate(entries, key, idOf, params, defaultDirection, selected).Ok?
    ensures var page := Paginate(entries, key, idOf, params, defaultDirection, selected).value;
            var rest := Remaining(entries, key, idOf, params.cursor, params.direction.GetOr(defaultDirection), selected);
            && rest.Ok?
            && |page.data| == Min(|rest.value|, match params.limit
                                                case None => 25
                                                case Some(asked) => if asked < 1 then 1 else if asked > 100 then 100 else asked)
  {
    hide Paginate, Remaining;
    PageIs(entries, key, idOf, params, defaultDirection, selected);
  }

  // ---- walks: following `nextCursor` ----

  /** One request of a walk: the list as it is then, and the limit asked for. */
  datatype Request<+T> = Request(entries: seq<T>, limit: Option<int>)

  /** What a walk showed so far, and whether its last page had no `nextCursor`. */
  datatype Walk<+T> = Walk(shown: seq<T>, ended: bool)

  function Follow<T>(requests: seq<Request<T>>, cursor: Option<CursorText>, key: CursorKey, idOf: T -> Id, direction: Direction, selected: T -> bool)
    : Result<Walk<T>, PageError>
    decreases |requests|
  {
    if requests == [] then Ok(Walk([], false)) else
    var params := PageParams(cursor, requests[0].limit, Some(direction));
    match Paginate(requests[0].entries, key, idOf, params, direction, selected)
    case Err(e) => Err(e)
    case Ok(page) =>
      if page.nextCursor.None? then Ok(Walk(page.data, true)) else
      match Follow(requests[1..], page.nextCursor, key, idOf, direction, selected)
      case Err(e) => Err(e)
      case Ok(rest) => Ok(Walk(page.data + rest.shown, rest.ended))
  }

  /** Where the `n`-th selected entry stands: past it, the selected entries are the later ones. */
  lemma {:induction false} NthSelected<T>(selected: T -> bool, s: seq<T>, n: nat) returns (at: nat)
    requires 0 < n <= |Filter(selected, s)|
    ensures at < |s| && s[at] == Filter(selected, s)[n - 1]
    ensures Filter(selected, s[at + 1..]) == Filter(selected, s)[n..]
  {
    if selected(s[0]) && n == 1 {
      at := 0;
    } else {
      var rest := NthSelected(selected, s[1..], if selected(s[0]) then n - 1 else n);
      at := rest + 1;
      assert s[at + 1..] == s[1..][rest + 1..];
    }
  }

  lemma {:induction false} FindDistinct<T>(entries: seq<T>, idOf: T -> Id, at: nat)
    requires at < |entries| && DistinctIds(entries, idOf)
    ensures FindIndex(entries, idOf, idOf(entries[at])) == at
  {}

  /** The cut past the entry at `at` of a side leaves the rest of that side. */
  lemma {:induction false} SideTail<T>(entries: seq<T>, direction: Direction, cut: nat, at: nat) returns (position: nat)
    requires cut <= |entries| && at < |Side(entries, direction, cut)|
    ensures position < |entries| && Side(entries, direction, cut)[at] == entries[position]
    ensures Side(entries, direction, SliceAt(direction, false, position)) == Side(entries, direction, cut)[at + 1..]
  {
    position := if direction.Asc? then cut + at else cut - 1 - at;
  }

  /** Past the `n`-th entry shown, what remains is what remained without the first `n`. */
  lemma {:induction false} NextRemaining<T>(entries: seq<T>, key: CursorKey, idOf: T -> Id, cursor: Option<CursorText>, direction: Direction, selected: T -> bool, n: nat)
    requires DistinctIds(entries, idOf)
    requires var rest := Remaining(entries, key, idOf, cursor, direction, selected); rest.Ok? && 0 < n <= |rest.value|
    ensures var rest := Remaining(entries, key, idOf, cursor, direction, selected).value;
            Remaining(entries, key, idOf, Some(Encoded(key, idOf(rest[n - 1]), false)), direction, selected) == Ok(rest[n..])
  {
    hide Filter, Side, FindIndex;
    var cut := CutOf(entries, key, idOf, cursor, direction).value;
    var side := Side(entries, direction, cut);
    var at := NthSelected(selected, side, n);
    var position := SideTail(entries, direction, cut, at);
    FindDistinct(entries, idOf, position);
    var after := SliceAt(direction, false, position);
    assert CutOf(entries, key, idOf, Some(Encoded(key, idOf(entries[position]), false)), direction) == Ok(after);
    hide CutOf;
    assert Filter(selected, side)[n - 1] == entries[position];
  }

  /** Newest first, entries appended later are not on the walk's side of its anchor. */
  lemma {:induction false} RemainingKept<T>(entries: seq<T>, grown: seq<T>, key: CursorKey, idOf: T -> Id, text: CursorText, selected: T -> bool)
    requires entries <= grown && DistinctIds(grown, idOf)
    requires entries != [] && Remaining(entries, key, idOf, Some(text), Desc, selected).Ok?
    ensures Remaining(grown, key, idOf, Some(text), Desc, selected) == Remaining(entries, key, idOf, Some(text), Desc, selected)
  {
    var at := FindIndex(entries, idOf, text.anchor);
    assert grown[at] == entries[at];
    FindDistinct(grown, idOf, at);
    var cut := SliceAt(Desc, text.includeAnchor, at);
    assert entries[..cut] == grown[..cut];
  }

  /** A list a walk of `entries` may meet: the same one, or (newest first) one with entries appended. */
  ghost predicate Serves<T>(request: Request<T>, entries: seq<T>, idOf: T -> Id, direction: Direction) {
    && DistinctIds(request.entries, idOf)
    && if direction.Asc? then request.entries == entries else entries <= request.entries
  }

  /** One request of a walk shows the next entries, and its `nextCursor` stands for the rest. */
  lemma {:induction false} RequestRemaining<T>(request: Request<T>, entries: seq<T>, cursor: Option<CursorText>, key: CursorKey,
                            idOf: T -> Id, direction: Direction, selected: T -> bool)
    requires DistinctIds(entries, idOf) && Serves(request, entries, idOf, direction)
    requires if cursor.None? then request.entries == entries else entries != []
    requires Remaining(entries, key, idOf, cursor, direction, selected).Ok?
    ensures var rest := Remaining(entries, key, idOf, cursor, direction, selected).value;
            var page := Paginate(request.entries, key, idOf, PageParams(cursor, request.limit, Some(direction)), direction, selected);
            && page.Ok?
            && if page.value.nextCursor.None? then page.value.data == rest
               else && entries != [] && 0 < |page.value.data| <= |rest|
                    && page.value.data == rest[..|page.value.data|]
                    && Remaining(entries, key, idOf, page.value.nextCursor, direction, selected) == Ok(rest[|page.value.data|..])
  {
    hide Paginate, Follow, FindIndex, Filter;
    var rest := Remaining(entries, key, idOf, cursor, direction, selected).value;
    if cursor.Some? && direction.Desc? { RemainingKept(entries, request.entries, key, idOf, cursor.value, selected); }
    assert Remaining(request.entries, key, idOf, cursor, direction, selected) == Ok(rest);
    PageIs(request.entries, key, idOf, PageParams(cursor, request.limit, Some(direction)), direction, selected);
    if |rest| > PageLimit(request.limit) { NextRemaining(entries, key, idOf, cursor, direction, selected, PageLimit(request.limit)); }
  }

  lemma {:induction false} FollowRemaining<T>(requests: seq<Request<T>>, entries: seq<T>, cursor: Option<CursorText>, key: CursorKey,
                                              idOf: T -> Id, direction: Direction, selected: T -> bool)
    requires DistinctIds(entries, idOf)
    requires forall i :: 0 <= i < |requests| ==> Serves(requests[i], entries, idOf, direction)
    requires if cursor.None? then requests != [] ==> requests[0].entries == entries else entries != []
    requires Remaining(entries, key, idOf, cursor, direction, selected).Ok?
    ensures var rest := Remaining(entries, key, idOf, cursor, direction, selected).value;
            var walk := Follow(requests, cursor, key, idOf, direction, selected);
            && walk.Ok?
            && walk.value.shown <= rest
            && (walk.value.ended ==> walk.value.shown == rest)
            && (|requests| > |rest| ==> walk.value.ended)
    decreases |requests|
  {
    hide Paginate, Remaining, Serves, DistinctIds;
    if requests != [] {
      RequestRemaining(requests[0], entries, cursor, key, idOf, direction, selected);
      var page := Paginate(requests[0].entries, key, idOf, PageParams(cursor, requests[0].limit, Some(direction)), direction, selected).value;
      if page.nextCursor.Some? {
        FollowRemaining(requests[1..], entries, page.nextCursor, key, idOf, direction, selected);
        var rest := Remaining(entries, key, idOf, cursor, direction, selected).value;
        assert rest == page.data + rest[|page.data|..];
      }
    }
  }

  /**
   * Following `nextCursor` from none, with any limits, shows a prefix of the selected entries in order; once a page has
   * no `nextCursor` it showed each exactly once, and one request more than there are entries always gets there. Newest
   * first this is so even while entries are appended between pages: the walk shows those present at its first page.
   */
  lemma {:induction false} WalkShowsAll<T>(requests: seq<Request<T>>, key: CursorKey, idOf: T -> Id, direction: Direction, selected: T -> bool)
    requires requests != []
    requires forall i :: 0 <= i < |requests| ==> Serves(requests[i], requests[0].entries, idOf, direction)
    ensures var entries := requests[0].entries;
            var all := Filter(selected, if direction.Asc? then entries else Reverse(entries));
            var walk := Follow(requests, None, key, idOf, direction, selected);
            && walk.Ok?
            && walk.value.shown <= all
            && (walk.value.ended ==> walk.value.shown == all)
            && (|requests| > |all| ==> walk.value.ended)
  {
    var entries := requests[0].entries;
    assert entries[0..] == entries[..|entries|] == entries;
    FollowRemaining(requests, entries, None, key, idOf, direction, selected);
  }
}
