/**
 * Listing threads (src/gateway/catalog.ts 90-182): stock's rows and Claude's merged in one order though only a prefix of
 * stock was read. Stock is sorted and no stock row ties with a Claude one; a row's id and place do not change as it is
 * shown.
 */
module Catalog {
  import opened Basics

  /** A row with its place in the requested order: lower comes first. */
  datatype Row = Row(id: Token, stock: bool, order: int)

  ghost predicate Sorted(rows: seq<Row>) {
    forall i, j :: 0 <= i < j < |rows| ==> rows[i].order <= rows[j].order
  }

  /** The merge of two sorted lists: at a tie stock's row first. */
  function Merge(stock: seq<Row>, claude: seq<Row>): (r: seq<Row>)
    decreases |stock| + |claude|
  {
    if stock == [] then claude
    else if claude == [] || stock[0].order <= claude[0].order then [stock[0]] + Merge(stock[1..], claude)
    else [claude[0]] + Merge(stock, claude[1..])
  }

  /** The two indices of the loop. */
  method MergeRows(stock: seq<Row>, claude: seq<Row>) returns (merged: seq<Row>)
    ensures merged == Merge(stock, claude)
  {
    hide Merge;
    merged := [];
    var s, c := 0, 0;
    while s < |stock| || c < |claude|
      invariant 0 <= s <= |stock| && 0 <= c <= |claude|
      invariant Merge(stock, claude) == merged + Merge(stock[s..], claude[c..])
      decreases |stock| + |claude| - s - c
    {
      assert s < |stock| ==> stock[s..][0] == stock[s] && stock[s..][1..] == stock[s + 1..];
      assert c < |claude| ==> claude[c..][0] == claude[c] && claude[c..][1..] == claude[c + 1..];
      MergeOnce(stock[s..], claude[c..]);
      var takeStock := c >= |claude| || (s < |stock| && stock[s].order <= claude[c].order);
      if takeStock {
        merged := merged + [stock[s]];
        s := s + 1;
      } else {
        merged := merged + [claude[c]];
        c := c + 1;
      }
    }
    assert stock[s..] == [] && claude[c..] == [] && merged + [] == merged;
    NoStock([]);
  }

  /** One row more. */
  lemma {:induction false} MergeOnce(stock: seq<Row>, claude: seq<Row>)
    requires stock != [] || claude != []
    ensures Merge(stock, claude) ==
            if stock != [] && (claude == [] || stock[0].order <= claude[0].order) then [stock[0]] + Merge(stock[1..], claude)
            else [claude[0]] + Merge(stock, claude[1..])
  {
    if stock == [] { NoStock(claude); }
  }

  lemma {:induction false} NoStock(claude: seq<Row>)
    ensures Merge([], claude) == claude && (claude != [] ==> claude == [claude[0]] + Merge([], claude[1..]))
  {}

  // ---- what the merge is ----

  /** Both lists in it in their order, nothing else, and in order. */
  lemma {:induction false} MergeKeeps(stock: seq<Row>, claude: seq<Row>)
    requires forall i :: 0 <= i < |stock| ==> stock[i].stock
    requires forall i :: 0 <= i < |claude| ==> !claude[i].stock
    ensures Filter((row: Row) => row.stock, Merge(stock, claude)) == stock
    ensures Filter((row: Row) => !row.stock, Merge(stock, claude)) == claude
    decreases |stock| + |claude|
  {
    var isStock, isClaude := (row: Row) => row.stock, (row: Row) => !row.stock;
    if stock == [] {
      AllPass(isClaude, claude);
      NonePass(isStock, claude);
    } else if claude == [] || stock[0].order <= claude[0].order {
      MergeKeeps(stock[1..], claude);
      assert ([stock[0]] + Merge(stock[1..], claude))[1..] == Merge(stock[1..], claude);
    } else {
      MergeKeeps(stock, claude[1..]);
      assert ([claude[0]] + Merge(stock, claude[1..]))[1..] == Merge(stock, claude[1..]);
    }
  }

  lemma {:induction false} AllPass(p: Row -> bool, rows: seq<Row>)
    requires forall i :: 0 <= i < |rows| ==> p(rows[i])
    ensures Filter(p, rows) == rows
    decreases |rows|
  {
    if rows != [] { AllPass(p, rows[1..]); }
  }

  lemma {:induction false} NonePass(p: Row -> bool, rows: seq<Row>)
    requires forall i :: 0 <= i < |rows| ==> !p(rows[i])
    ensures Filter(p, rows) == []
    decreases |rows|
  {
    if rows != [] { NonePass(p, rows[1..]); }
  }

  lemma {:induction false} MergeLength(stock: seq<Row>, claude: seq<Row>)
    ensures |Merge(stock, claude)| == |stock| + |claude|
    decreases |stock| + |claude|
  {
    if stock != [] {
      if claude == [] || stock[0].order <= claude[0].order { MergeLength(stock[1..], claude); } else { MergeLength(stock, claude[1..]); }
    }
  }

  /** Lists cut where no later row of one comes before an earlier row of the other merge part by part. */
  lemma {:induction false} MergeInParts(stock: seq<Row>, claude: seq<Row>, laterStock: seq<Row>, laterClaude: seq<Row>)
    requires forall i, j :: 0 <= i < |stock| && 0 <= j < |laterClaude| ==> stock[i].order <= laterClaude[j].order
    requires forall i, j :: 0 <= i < |claude| && 0 <= j < |laterStock| ==> claude[i].order < laterStock[j].order
    ensures Merge(stock + laterStock, claude + laterClaude) == Merge(stock, claude) + Merge(laterStock, laterClaude)
    decreases |stock| + |claude|
  {
    hide Merge;
    var s, c := stock + laterStock, claude + laterClaude;
    if stock == [] && claude == [] {
      assert s == laterStock && c == laterClaude;
      NoStock([]);
      assert [] + Merge(laterStock, laterClaude) == Merge(laterStock, laterClaude);
    } else if stock != [] && (claude == [] || stock[0].order <= claude[0].order) {
      assert s[1..] == stock[1..] + laterStock && s[0] == stock[0];
      assert c != [] ==> s[0].order <= c[0].order;
      MergeInParts(stock[1..], claude, laterStock, laterClaude);
      StockInFront(stock, claude, s, c, Merge(laterStock, laterClaude));
    } else {
      assert c[1..] == claude[1..] + laterClaude && c[0] == claude[0];
      assert s != [] ==> c[0].order < s[0].order;
      MergeInParts(stock, claude[1..], laterStock, laterClaude);
      ClaudeInFront(stock, claude, s, c, Merge(laterStock, laterClaude));
    }
  }

  lemma {:induction false} StockInFront(stock: seq<Row>, claude: seq<Row>, s: seq<Row>, c: seq<Row>, later: seq<Row>)
    requires stock != [] && s != [] && s[0] == stock[0]
    requires claude == [] || stock[0].order <= claude[0].order
    requires c == [] || s[0].order <= c[0].order
    requires Merge(s[1..], c) == Merge(stock[1..], claude) + later
    ensures Merge(s, c) == Merge(stock, claude) + later
  {
    hide Merge;
    MergeOnce(s, c);
    MergeOnce(stock, claude);
    var rest := Merge(stock[1..], claude);
    assert [s[0]] + (rest + later) == [s[0]] + rest + later;
  }

  lemma {:induction false} ClaudeInFront(stock: seq<Row>, claude: seq<Row>, s: seq<Row>, c: seq<Row>, later: seq<Row>)
    requires claude != [] && c != [] && c[0] == claude[0]
    requires stock == [] || claude[0].order < stock[0].order
    requires s == [] || c[0].order < s[0].order
    requires Merge(s, c[1..]) == Merge(stock, claude[1..]) + later
    ensures Merge(s, c) == Merge(stock, claude) + later
  {
    hide Merge;
    MergeOnce(s, c);
    MergeOnce(stock, claude);
    var rest := Merge(stock, claude[1..]);
    assert [c[0]] + (rest + later) == [c[0]] + rest + later;
  }

  lemma {:induction false} MergeSorted(stock: seq<Row>, claude: seq<Row>)
    requires Sorted(stock) && Sorted(claude)
    ensures Sorted(Merge(stock, claude))
    ensures Merge(stock, claude) != [] ==>
              Merge(stock, claude)[0].order == (if stock == [] then claude[0].order else if claude == [] then stock[0].order else Min(stock[0].order, claude[0].order))
    decreases |stock| + |claude|
  {
    if stock != [] {
      if claude == [] || stock[0].order <= claude[0].order {
        var rest := Merge(stock[1..], claude);
        MergeSorted(stock[1..], claude);
        MergeLength(stock, claude);
        forall i | 0 <= i < |rest| ensures stock[0].order <= rest[i].order { if i > 0 { assert rest[0].order <= rest[i].order; } }
      } else {
        var rest := Merge(stock, claude[1..]);
        MergeSorted(stock, claude[1..]);
        MergeLength(stock, claude);
        forall i | 0 <= i < |rest| ensures claude[0].order <= rest[i].order { if i > 0 { assert rest[0].order <= rest[i].order; } }
      }
    }
  }

  // ---- a page of the list ----

  /** Stock's rows but those that are only a part of some lineage. */
  function Visible(hidden: Row -> bool, rows: seq<Row>): seq<Row> { Filter((row: Row) => !hidden(row), rows) }

  /** All rows, as they would be listed at once. */
  function Full(rows: seq<Row>, hidden: Row -> bool, claude: seq<Row>): seq<Row> { Merge(Visible(hidden, rows), claude) }

  /** What the listing takes for granted of the rows. */
  ghost predicate Rows(rows: seq<Row>, claude: seq<Row>) {
    && Sorted(rows) && Sorted(claude)
    && (forall i :: 0 <= i < |rows| ==> rows[i].stock) && (forall i :: 0 <= i < |claude| ==> !claude[i].stock)
    && (forall i, j :: 0 <= i < |rows| && 0 <= j < |claude| ==> rows[i].order != claude[j].order)
  }

  /** The rows of the merge that no unseen stock row can precede: all of them once stock is read to its end. */
  function Final(rows: seq<Row>, read: nat, done: bool, hidden: Row -> bool, claude: seq<Row>): seq<Row>
    requires read <= |rows|
  {
    var merged := Merge(Visible(hidden, rows[..read]), claude);
    if !done && read > 0 then var boundary := rows[read - 1].order; Filter((row: Row) => row.stock || row.order <= boundary, merged)
    else merged
  }

  function Slice(rows: seq<Row>, offset: nat, limit: nat): seq<Row> {
    rows[Min(offset, |rows|)..Min(offset + limit, |rows|)]
  }

  datatype Page = Page(offset: nat, limit: nat, data: seq<Row>, next: Option<nat>)

  function PageOf(rows: seq<Row>, read: nat, done: bool, hidden: Row -> bool, claude: seq<Row>, offset: nat, limit: nat): Page
    requires read <= |rows|
  {
    var merged := Final(rows, read, done, hidden, claude);
    var data := Slice(merged, offset, limit);
    var more := offset + limit < |merged| || !done;
    Page(offset, limit, data, if more && data != [] then Some(offset + |data|) else None)
  }

  lemma {:induction false} CutClaude(claude: seq<Row>, boundary: int) returns (k: nat)
    requires Sorted(claude)
    ensures k <= |claude| && (forall i :: 0 <= i < k ==> claude[i].order <= boundary) && forall i :: k <= i < |claude| ==> boundary < claude[i].order
  {
    k := 0;
    while k < |claude| && claude[k].order <= boundary
      invariant k <= |claude| && forall i :: 0 <= i < k ==> claude[i].order <= boundary
    {
      k := k + 1;
    }
    forall i | k <= i < |claude| ensures boundary < claude[i].order { if k < |claude| { assert claude[k].order <= claude[i].order; } }
  }

  lemma {:induction false} VisibleIn(hidden: Row -> bool, rows: seq<Row>)
    ensures forall i :: 0 <= i < |Visible(hidden, rows)| ==> Visible(hidden, rows)[i] in rows
    ensures (forall i :: 0 <= i < |rows| ==> !hidden(rows[i])) ==> Visible(hidden, rows) == rows
  {
    var shown, test := Visible(hidden, rows), (row: Row) => !hidden(row);
    forall i | 0 <= i < |shown| ensures shown[i] in rows {
      FilterMember(test, rows, shown[i]);
    }
    if forall i :: 0 <= i < |rows| ==> !hidden(rows[i]) { AllPass(test, rows); }
  }

  /** The rows kept are the first of the full merge, though stock's later rows are unseen: at least all the visible ones read. */
  lemma {:induction false} FinalIsPrefix(rows: seq<Row>, read: nat, done: bool, hidden: Row -> bool, claude: seq<Row>)
    requires Rows(rows, claude) && read <= |rows| && (done ==> read == |rows|) && (read == 0 ==> done)
    ensures Final(rows, read, done, hidden, claude) <= Full(rows, hidden, claude)
    ensures done ==> Final(rows, read, done, hidden, claude) == Full(rows, hidden, claude)
    ensures |Visible(hidden, rows[..read])| <= |Final(rows, read, done, hidden, claude)|
  {
    if done {
      assert rows[..read] == rows;
      MergeLength(Visible(hidden, rows), claude);
    } else {
      var seen, unseen := rows[..read], rows[read..];
      assert rows == seen + unseen;
      FilterConcat((row: Row) => !hidden(row), seen, unseen);
      var boundary := rows[read - 1].order;
      var k := CutClaude(claude, boundary);
      assert claude == claude[..k] + claude[k..];
      PrefixOfMerge(rows, read, hidden, claude, k, boundary);
    }
  }

  lemma {:induction false} PrefixOfMerge(rows: seq<Row>, read: nat, hidden: Row -> bool, claude: seq<Row>, k: nat, boundary: int)
    requires Rows(rows, claude) && 0 < read <= |rows| && boundary == rows[read - 1].order && k <= |claude|
    requires (forall i :: 0 <= i < k ==> claude[i].order <= boundary) && forall i :: k <= i < |claude| ==> boundary < claude[i].order
    requires Visible(hidden, rows) == Visible(hidden, rows[..read]) + Visible(hidden, rows[read..])
    requires claude == claude[..k] + claude[k..]
    ensures Final(rows, read, false, hidden, claude) == Merge(Visible(hidden, rows[..read]), claude[..k])
    ensures Full(rows, hidden, claude) == Merge(Visible(hidden, rows[..read]), claude[..k]) + Merge(Visible(hidden, rows[read..]), claude[k..])
    ensures |Visible(hidden, rows[..read])| <= |Final(rows, read, false, hidden, claude)|
  {
    var shown, later := Visible(hidden, rows[..read]), Visible(hidden, rows[read..]);
    Bounds(rows, read, hidden, claude, k, boundary);
    hide Visible, Rows, Merge;
    PrefixOfLists(shown, later, claude[..k], claude[k..], boundary);
  }

  lemma {:induction false} Bounds(rows: seq<Row>, read: nat, hidden: Row -> bool, claude: seq<Row>, k: nat, boundary: int)
    requires Rows(rows, claude) && 0 < read <= |rows| && boundary == rows[read - 1].order && k <= |claude|
    requires (forall i :: 0 <= i < k ==> claude[i].order <= boundary) && forall i :: k <= i < |claude| ==> boundary < claude[i].order
    ensures var shown, later := Visible(hidden, rows[..read]), Visible(hidden, rows[read..]);
            && (forall i :: 0 <= i < |shown| ==> shown[i].order <= boundary && shown[i].stock)
            && (forall i :: 0 <= i < |later| ==> boundary <= later[i].order && later[i].stock)
            && (forall i, j :: 0 <= i < k && 0 <= j < |later| ==> claude[..k][i].order < later[j].order)
            && (forall i :: 0 <= i < |claude[..k]| ==> claude[..k][i].order <= boundary && !claude[..k][i].stock)
            && (forall i :: 0 <= i < |claude[k..]| ==> boundary < claude[k..][i].order && !claude[k..][i].stock)
  {
    ShownBounds(rows, read, hidden, claude, boundary);
    hide Visible, Sorted;
    var later := Visible(hidden, rows[read..]);
    forall i, j | 0 <= i < k && 0 <= j < |later| ensures claude[..k][i].order < later[j].order {}
    assert forall i :: 0 <= i < |claude[k..]| ==> claude[k..][i] == claude[k + i];
  }

  lemma {:induction false} ShownBounds(rows: seq<Row>, read: nat, hidden: Row -> bool, claude: seq<Row>, boundary: int)
    requires Rows(rows, claude) && 0 < read <= |rows| && boundary == rows[read - 1].order
    ensures var shown, later := Visible(hidden, rows[..read]), Visible(hidden, rows[read..]);
            && (forall i :: 0 <= i < |shown| ==> shown[i].order <= boundary && shown[i].stock)
            && (forall j :: 0 <= j < |later| ==> boundary <= later[j].order && later[j].stock)
            && (forall i, j :: 0 <= i < |claude| && 0 <= j < |later| ==> later[j].order != claude[i].order)
  {
    var shown, later := Visible(hidden, rows[..read]), Visible(hidden, rows[read..]);
    VisibleIn(hidden, rows[..read]);
    VisibleIn(hidden, rows[read..]);
    SeenWithin(rows, read, boundary);
    hide Visible;
    forall i | 0 <= i < |shown| ensures shown[i].order <= boundary && shown[i].stock { assert shown[i] in rows[..read]; }
    forall j | 0 <= j < |later| ensures boundary <= later[j].order && later[j].stock && later[j] in rows { assert later[j] in rows[read..]; }
  }

  lemma {:induction false} PrefixOfLists(shown: seq<Row>, later: seq<Row>, near: seq<Row>, far: seq<Row>, boundary: int)
    requires forall i :: 0 <= i < |shown| ==> shown[i].order <= boundary && shown[i].stock
    requires forall i :: 0 <= i < |later| ==> boundary <= later[i].order && later[i].stock
    requires forall i, j :: 0 <= i < |near| && 0 <= j < |later| ==> near[i].order < later[j].order
    requires forall i :: 0 <= i < |near| ==> near[i].order <= boundary && !near[i].stock
    requires forall i :: 0 <= i < |far| ==> boundary < far[i].order && !far[i].stock
    ensures Filter((row: Row) => row.stock || row.order <= boundary, Merge(shown, near + far)) == Merge(shown, near)
    ensures Merge(shown + later, near + far) == Merge(shown, near) + Merge(later, far)
    ensures |shown| <= |Merge(shown, near)|
  {
    hide Merge;
    MergeInParts(shown, near, later, far);
    NoStock(far);
    MergeInParts(shown, near, [], far);
    assert shown + [] == shown;
    var first, test := Merge(shown, near), (row: Row) => row.stock || row.order <= boundary;
    MergeMembers(shown, near, boundary);
    OnlyFirst(test, first, far);
    MergeLength(shown, near);
  }

  lemma {:induction false} SeenWithin(rows: seq<Row>, read: nat, boundary: int)
    requires Sorted(rows) && 0 < read <= |rows| && boundary == rows[read - 1].order && forall i :: 0 <= i < |rows| ==> rows[i].stock
    ensures forall row :: row in rows[..read] ==> row.order <= boundary && row.stock
    ensures forall row :: row in rows[read..] ==> boundary <= row.order && row.stock && row in rows
  {}

  lemma {:induction false} OnlyFirst(test: Row -> bool, first: seq<Row>, later: seq<Row>)
    requires (forall i :: 0 <= i < |first| ==> test(first[i])) && forall i :: 0 <= i < |later| ==> !test(later[i])
    ensures Filter(test, first + later) == first
  {
    FilterConcat(test, first, later);
    AllPass(test, first);
    NonePass(test, later);
  }

  lemma {:induction false} MergeMembers(stock: seq<Row>, claude: seq<Row>, boundary: int)
    requires (forall i :: 0 <= i < |stock| ==> stock[i].order <= boundary) && forall i :: 0 <= i < |claude| ==> claude[i].order <= boundary
    ensures forall i :: 0 <= i < |Merge(stock, claude)| ==> Merge(stock, claude)[i].order <= boundary
    decreases |stock| + |claude|
  {
    if stock != [] {
      if claude == [] || stock[0].order <= claude[0].order { MergeMembers(stock[1..], claude, boundary); } else { MergeMembers(stock, claude[1..], boundary); }
    }
  }

  // ---- the pages of a listing ----

  /** A page is that slice of all rows, though cut short where unseen stock rows may come; the next one goes on after it. */
  lemma {:induction false} PageIsSlice(rows: seq<Row>, read: nat, done: bool, hidden: Row -> bool, claude: seq<Row>, offset: nat, limit: nat)
    requires Rows(rows, claude) && read <= |rows| && (done ==> read == |rows|) && (!done ==> offset + limit <= read) && limit >= 1
    ensures var page, all, final := PageOf(rows, read, done, hidden, claude, offset, limit), Full(rows, hidden, claude), Final(rows, read, done, hidden, claude);
            && page.data == Slice(all, offset, Min(limit, Max(0, |final| - offset)))
            && (page.next.Some? ==> page.data != [] && page.next.value == offset + |page.data|)
            && (page.next.None? && page.data != [] ==> offset + |page.data| == |all|)
            && (page.data == [] <==> |final| <= offset)
            && (page.next.Some? <==> page.data != [] && (!done || offset + |page.data| < |final|))
    ensures (forall i :: 0 <= i < |rows| ==> !hidden(rows[i])) ==>
              PageOf(rows, read, done, hidden, claude, offset, limit).data == Slice(Full(rows, hidden, claude), offset, limit)
  {
    FinalIsPrefix(rows, read, done, hidden, claude);
    var final, all := Final(rows, read, done, hidden, claude), Full(rows, hidden, claude);
    if forall i :: 0 <= i < |rows| ==> !hidden(rows[i]) {
      VisibleIn(hidden, rows[..read]);
      assert Visible(hidden, rows[..read]) == rows[..read];
    }
    hide Full, Final, Visible, Rows, Slice;
    SliceOfPrefix(final, all, offset, limit);
    PageData(final, offset, limit);
    if done || offset + limit <= |final| { WholeSlice(final, all, offset, limit); }
  }

  lemma {:induction false} SliceOfPrefix(final: seq<Row>, all: seq<Row>, offset: nat, limit: nat)
    requires final <= all
    ensures Slice(final, offset, limit) == Slice(all, offset, Min(limit, Max(0, |final| - offset)))
  {
    assert final == all[..|final|];
  }

  lemma {:induction false} PageData(final: seq<Row>, offset: nat, limit: nat)
    requires limit >= 1
    ensures Slice(final, offset, limit) == [] <==> |final| <= offset
    ensures offset < |final| ==> |Slice(final, offset, limit)| == Min(limit, |final| - offset)
  {}

  lemma {:induction false} WholeSlice(final: seq<Row>, all: seq<Row>, offset: nat, limit: nat)
    requires final <= all && (final == all || offset + limit <= |final|)
    ensures Slice(final, offset, limit) == Slice(all, offset, limit)
  {
    assert final == all[..|final|];
  }

  /** What a page shows of all rows. */
  ghost predicate Shows(page: Page, all: seq<Row>) {
    && (page.data != [] ==> page.offset + |page.data| <= |all| && page.data == all[page.offset..page.offset + |page.data|])
    && (page.next.Some? ==> page.data != [] && page.next.value == page.offset + |page.data|)
    && (page.next.None? && page.data != [] ==> page.offset + |page.data| == |all|)
  }

  /** One list call: its page, however many rows of stock it read. */
  ghost predicate IsPage(rows: seq<Row>, hidden: Row -> bool, claude: seq<Row>, page: Page) {
    page.limit >= 1 && exists read: nat, done: bool :: PageRead(rows, hidden, claude, page, read, done)
  }

  ghost predicate PageRead(rows: seq<Row>, hidden: Row -> bool, claude: seq<Row>, page: Page, read: nat, done: bool) {
    && read <= |rows| && (done ==> read == |rows|) && (!done ==> page.offset + page.limit <= read)
    && page == PageOf(rows, read, done, hidden, claude, page.offset, page.limit)
  }

  /** A listing followed from its start by its cursors, with any limits. */
  ghost predicate IsWalk(rows: seq<Row>, hidden: Row -> bool, claude: seq<Row>, pages: seq<Page>) {
    && pages != [] && pages[0].offset == 0
    && (forall i :: 0 <= i < |pages| ==> IsPage(rows, hidden, claude, pages[i]))
    && (forall i :: 0 <= i < |pages| - 1 ==> pages[i].next == Some(pages[i + 1].offset))
  }

  function Listed(pages: seq<Page>): seq<Row> {
    if pages == [] then [] else Listed(pages[..|pages| - 1]) + pages[|pages| - 1].data
  }

  lemma {:induction false} PageShows(rows: seq<Row>, hidden: Row -> bool, claude: seq<Row>, page: Page)
    requires Rows(rows, claude) && IsPage(rows, hidden, claude, page)
    ensures Shows(page, Full(rows, hidden, claude))
    ensures (forall i :: 0 <= i < |rows| ==> !hidden(rows[i])) && page.data == [] ==> |Full(rows, hidden, claude)| <= page.offset
  {
    hide Rows, Final, Full, PageOf, Slice, Shows;
    var read, done :| PageRead(rows, hidden, claude, page, read, done);
    PageIsSlice(rows, read, done, hidden, claude, page.offset, page.limit);
    var final := Final(rows, read, done, hidden, claude);
    hide PageRead, IsPage;
    SliceShows(page, Full(rows, hidden, claude), Max(0, |final| - page.offset));
  }

  lemma {:induction false} SliceShows(page: Page, all: seq<Row>, final: nat)
    requires page.limit >= 1 && page.data == Slice(all, page.offset, Min(page.limit, final))
    requires page.next.Some? ==> page.data != [] && page.next.value == page.offset + |page.data|
    requires page.next.None? && page.data != [] ==> page.offset + |page.data| == |all|
    ensures Shows(page, all)
    ensures page.data == Slice(all, page.offset, page.limit) && page.data == [] ==> |all| <= page.offset
  {}

  ghost predicate ShowsFirst(pages: seq<Page>, all: seq<Row>)
    requires pages != []
  {
    var last := pages[|pages| - 1];
    var end := last.offset + |last.data|;
    end <= |all| && Listed(pages) == all[..end] && |pages| - 1 <= last.offset
  }

  /** The pages walked so far are the first of all rows, each once and in order; every page but the last adds some. */
  lemma {:induction false} WalkShowsPrefix(rows: seq<Row>, hidden: Row -> bool, claude: seq<Row>, pages: seq<Page>)
    requires Rows(rows, claude) && IsWalk(rows, hidden, claude, pages)
    ensures ShowsFirst(pages, Full(rows, hidden, claude))
    decreases |pages|
  {
    hide *;
    Ends(rows, hidden, claude, pages);
    var last, all := pages[|pages| - 1], Full(rows, hidden, claude);
    PageShows(rows, hidden, claude, last);
    if |pages| > 1 {
      WalkShowsPrefix(rows, hidden, claude, pages[..|pages| - 1]);
      PageShows(rows, hidden, claude, pages[|pages| - 2]);
      OnePageMore(pages, all);
    } else {
      FirstPage(pages, all);
    }
  }

  /** A walk's last page goes on from the one before it. */
  lemma {:induction false} Ends(rows: seq<Row>, hidden: Row -> bool, claude: seq<Row>, pages: seq<Page>)
    requires IsWalk(rows, hidden, claude, pages)
    ensures pages != [] && IsPage(rows, hidden, claude, pages[|pages| - 1]) && (|pages| == 1 ==> pages[0].offset == 0)
    ensures |pages| > 1 ==>
              && IsWalk(rows, hidden, claude, pages[..|pages| - 1]) && IsPage(rows, hidden, claude, pages[|pages| - 2])
              && pages[|pages| - 2].next == Some(pages[|pages| - 1].offset)
  {
    hide IsPage;
    var n := |pages| - 1;
    if n > 0 { assert pages[n - 1].next == Some(pages[n - 1 + 1].offset); }
  }

  lemma {:induction false} FirstPage(pages: seq<Page>, all: seq<Row>)
    requires |pages| == 1 && pages[0].offset == 0 && Shows(pages[0], all)
    ensures ShowsFirst(pages, all)
  {
    assert pages[..0] == [];
    assert Listed(pages) == pages[0].data;
  }

  lemma {:induction false} OnePageMore(pages: seq<Page>, all: seq<Row>)
    requires |pages| > 1 && ShowsFirst(pages[..|pages| - 1], all)
    requires var last, before := pages[|pages| - 1], pages[|pages| - 2];
             before.next == Some(last.offset) && Shows(before, all) && Shows(last, all)
    ensures ShowsFirst(pages, all)
  {
    var last := pages[|pages| - 1];
    assert pages[..|pages| - 1][|pages| - 2] == pages[|pages| - 2];
    assert all[..last.offset] + last.data == all[..last.offset + |last.data|];
  }

  // ---- what a list call has to show, told by its inputs ----

  /** Stock's next page of a list read so far: how many rows, and whether there are more. */
  type Paging = nat -> (nat, bool)

  ghost predicate Pages(paging: Paging, rows: seq<Row>) {
    forall read :: 0 <= read <= |rows| ==>
      var (count, more) := paging(read);
      read + count <= |rows| && (if more then count >= 1 else read + count == |rows|)
  }

  /** Where a list call stands: its offset, and the rows of stock it has read, to their end or not. */
  datatype Reached = Reached(offset: nat, read: nat, done: bool)

  /** Stock read page by page, until enough or to its end. */
  ghost function ReadOn(rows: seq<Row>, paging: Paging, read: nat, done: bool, needed: nat): (r: (nat, bool))
    requires Pages(paging, rows) && read <= |rows| && (done ==> read == |rows|)
    ensures read <= r.0 <= |rows| && (r.1 ==> r.0 == |rows|) && (r.1 || needed <= r.0)
    decreases |rows| - read, !done
  {
    if done || needed <= read then (read, done)
    else var (count, more) := paging(read); ReadOn(rows, paging, read + count, !more, needed)
  }

  /** Stock is read on only while too little was read, and not to its end: the last page read began before that many rows. */
  lemma {:induction false} ReadsJustEnough(rows: seq<Row>, paging: Paging, read: nat, done: bool, needed: nat)
    requires Pages(paging, rows) && read <= |rows| && (done ==> read == |rows|)
    ensures done || needed <= read ==> ReadOn(rows, paging, read, done, needed) == (read, done)
    ensures !done && read < needed ==>
              exists before: nat :: read <= before < needed && before <= |rows| && ReadOn(rows, paging, read, done, needed) == (before + paging(before).0, !paging(before).1)
    decreases |rows| - read, !done
  {
    if !done && read < needed {
      var (count, more) := paging(read);
      ReadsJustEnough(rows, paging, read + count, !more, needed);
    }
  }

  /**
   * How many rows a call can tell the place of: the visible ones of stock it has read, and Claude's that come no later than
   * the last row read, hidden or not; all of Claude's once stock is read to its end.
   */
  ghost function Told(rows: seq<Row>, hidden: Row -> bool, claude: seq<Row>, at: Reached): nat
    requires at.read <= |rows|
  {
    |Visible(hidden, rows[..at.read])|
    + if at.done || at.read == 0 then |claude| else var boundary := rows[at.read - 1].order; |Filter((row: Row) => row.order <= boundary, claude)|
  }

  /** The call's page is empty though rows are left: what was read of stock tells none of them. */
  ghost predicate EndsEarly(rows: seq<Row>, hidden: Row -> bool, claude: seq<Row>, at: Reached)
    requires at.read <= |rows|
  {
    !at.done && Told(rows, hidden, claude, at) <= at.offset < |Visible(hidden, rows)| + |claude|
  }

  /** One call of a walk: the limit asked for, and whether what an earlier call read of stock is too old by then. */
  datatype Call = Call(asked: Option<int>, expired: bool)

  function LimitOf(asked: Option<int>): (limit: nat)
    ensures 1 <= limit <= 200
    ensures match asked case None => limit == 50 case Some(n) => if n < 1 then limit == 1 else if n > 200 then limit == 200 else limit == n
  {
    Max(1, Min(asked.GetOr(50), 200))
  }

  /** Where each call of a walk stands, from its offset 0 on: told by the rows, stock's paging and the calls. */
  ghost function Walked(rows: seq<Row>, paging: Paging, hidden: Row -> bool, claude: seq<Row>, calls: seq<Call>): (at: Reached)
    requires Pages(paging, rows) && calls != []
    ensures at.read <= |rows| && (at.done ==> at.read == |rows|) && (at.done || at.offset + LimitOf(calls[|calls| - 1].asked) <= at.read)
    decreases |calls|
  {
    var n := |calls| - 1;
    var limit := LimitOf(calls[n].asked);
    if n == 0 then var (read, done) := ReadOn(rows, paging, 0, false, limit); Reached(0, read, done)
    else
      var was := Walked(rows, paging, hidden, claude, calls[..n]);
      var offset := Max(was.offset, Min(was.offset + LimitOf(calls[n - 1].asked), Told(rows, hidden, claude, was)));
      var (read, done) := if calls[n].expired then ReadOn(rows, paging, 0, false, offset + limit) else ReadOn(rows, paging, was.read, was.done, offset + limit);
      Reached(offset, read, done)
  }

  /** The pages of such a walk, each call going on at the cursor of the one before. */
  ghost predicate WalksBy(rows: seq<Row>, paging: Paging, hidden: Row -> bool, claude: seq<Row>, calls: seq<Call>, pages: seq<Page>)
    requires Pages(paging, rows)
  {
    && pages != [] && |pages| == |calls| && pages[0].offset == 0
    && (forall i :: 0 <= i < |pages| ==>
          var at := Walked(rows, paging, hidden, claude, calls[..i + 1]);
          pages[i].limit == LimitOf(calls[i].asked) && PageRead(rows, hidden, claude, pages[i], at.read, at.done))
    && (forall i :: 0 <= i < |pages| - 1 ==> pages[i].next == Some(pages[i + 1].offset))
  }

  /** The `i`-th call of a walk ends it early. */
  ghost predicate CallEndsEarly(rows: seq<Row>, paging: Paging, hidden: Row -> bool, claude: seq<Row>, calls: seq<Call>, i: nat)
    requires Pages(paging, rows) && i < |calls|
  {
    EndsEarly(rows, hidden, claude, Walked(rows, paging, hidden, claude, calls[..i + 1]))
  }

  lemma {:induction false} MergeCounts(p: Row -> bool, stock: seq<Row>, claude: seq<Row>)
    ensures |Filter(p, Merge(stock, claude))| == |Filter(p, stock)| + |Filter(p, claude)|
    decreases |stock| + |claude|
  {
    if stock == [] {
    } else if claude == [] || stock[0].order <= claude[0].order {
      MergeCounts(p, stock[1..], claude);
      assert ([stock[0]] + Merge(stock[1..], claude))[1..] == Merge(stock[1..], claude);
    } else {
      MergeCounts(p, stock, claude[1..]);
      assert ([claude[0]] + Merge(stock, claude[1..]))[1..] == Merge(stock, claude[1..]);
    }
  }

  lemma {:induction false} SameFilter(p: Row -> bool, q: Row -> bool, rows: seq<Row>)
    requires forall i :: 0 <= i < |rows| ==> p(rows[i]) == q(rows[i])
    ensures Filter(p, rows) == Filter(q, rows)
    decreases |rows|
  {
    if rows != [] { SameFilter(p, q, rows[1..]); }
  }

  /** The rows a call keeps are as many as it can tell the place of. */
  lemma {:induction false} KeptIsTold(rows: seq<Row>, hidden: Row -> bool, claude: seq<Row>, at: Reached)
    requires Rows(rows, claude) && at.read <= |rows|
    ensures |Final(rows, at.read, at.done, hidden, claude)| == Told(rows, hidden, claude, at)
    ensures |Full(rows, hidden, claude)| == |Visible(hidden, rows)| + |claude|
  {
    hide Visible, Merge, Filter, Rows;
    var shown := Visible(hidden, rows[..at.read]);
    MergeLength(shown, claude);
    MergeLength(Visible(hidden, rows), claude);
    if !at.done && at.read > 0 {
      AllStock(rows, hidden, claude, at.read);
      KeptNear(shown, claude, rows[at.read - 1].order);
    }
  }

  lemma {:induction false} AllStock(rows: seq<Row>, hidden: Row -> bool, claude: seq<Row>, read: nat)
    requires Rows(rows, claude) && read <= |rows|
    ensures forall i :: 0 <= i < |Visible(hidden, rows[..read])| ==> Visible(hidden, rows[..read])[i].stock
    ensures forall i :: 0 <= i < |claude| ==> !claude[i].stock
  {
    hide Visible, Sorted;
    var shown := Visible(hidden, rows[..read]);
    VisibleIn(hidden, rows[..read]);
    forall i | 0 <= i < |shown| ensures shown[i].stock {
      assert shown[i] in rows[..read];
      var k :| 0 <= k < read && rows[k] == shown[i];
    }
  }

  /** Up to a boundary the merge keeps the stock rows and the Claude rows up to it. */
  lemma {:induction false} KeptNear(shown: seq<Row>, claude: seq<Row>, boundary: int)
    requires (forall i :: 0 <= i < |shown| ==> shown[i].stock) && forall i :: 0 <= i < |claude| ==> !claude[i].stock
    ensures |Filter((row: Row) => row.stock || row.order <= boundary, Merge(shown, claude))| == |shown| + |Filter((row: Row) => row.order <= boundary, claude)|
  {
    var test, near := (row: Row) => row.stock || row.order <= boundary, (row: Row) => row.order <= boundary;
    hide Merge, Filter;
    MergeCounts(test, shown, claude);
    AllPass(test, shown);
    SameFilter(test, near, claude);
  }

  /** One call's page is empty with rows left exactly when its inputs say so; it never is with nothing hidden. */
  lemma {:induction false} PageEndsEarly(rows: seq<Row>, hidden: Row -> bool, claude: seq<Row>, page: Page, at: Reached)
    requires Rows(rows, claude) && at.read <= |rows| && at.offset == page.offset && page.limit >= 1 && PageRead(rows, hidden, claude, page, at.read, at.done)
    ensures page.data == [] && page.offset < |Full(rows, hidden, claude)| <==> EndsEarly(rows, hidden, claude, at)
    ensures |page.data| == Max(0, Min(page.limit, Told(rows, hidden, claude, at) - page.offset))
    ensures (forall i :: 0 <= i < |rows| ==> !hidden(rows[i])) ==> !EndsEarly(rows, hidden, claude, at)
  {
    KeptIsTold(rows, hidden, claude, at);
    FinalIsPrefix(rows, at.read, at.done, hidden, claude);
    var final := Final(rows, at.read, at.done, hidden, claude);
    PageData(final, page.offset, page.limit);
    if forall i :: 0 <= i < |rows| ==> !hidden(rows[i]) {
      VisibleIn(hidden, rows[..at.read]);
      assert |Visible(hidden, rows[..at.read])| == at.read;
    }
    hide Final, Full, Visible, Rows, Slice;
  }

  /** With nothing hidden a call shows as many rows as were asked for, 50 if none were told and 1 to 200 else, or all that are left. */
  lemma {:induction false} CallHolds(rows: seq<Row>, hidden: Row -> bool, claude: seq<Row>, page: Page, at: Reached, asked: Option<int>)
    requires Rows(rows, claude) && at.read <= |rows| && at.offset == page.offset && PageRead(rows, hidden, claude, page, at.read, at.done)
    requires page.limit == LimitOf(asked) && forall i :: 0 <= i < |rows| ==> !hidden(rows[i])
    ensures |page.data| == Min(Max(0, |rows| + |claude| - page.offset), match asked
                                                                        case None => 50
                                                                        case Some(n) => if n < 1 then 1 else if n > 200 then 200 else n)
  {
    hide Final, Slice;
    PageIsSlice(rows, at.read, at.done, hidden, claude, page.offset, page.limit);
    VisibleIn(hidden, rows);
    MergeLength(rows, claude);
    SliceLength(Full(rows, hidden, claude), page.offset, page.limit);
    hide *;
  }

  lemma {:induction false} SliceLength(rows: seq<Row>, offset: nat, limit: nat)
    ensures |Slice(rows, offset, limit)| == Min(Max(0, |rows| - offset), limit)
  {}

  /** A walk's calls stand where its pages do. */
  lemma {:induction false} WalkReaches(rows: seq<Row>, paging: Paging, hidden: Row -> bool, claude: seq<Row>, calls: seq<Call>, pages: seq<Page>, i: nat)
    requires Rows(rows, claude) && Pages(paging, rows) && WalksBy(rows, paging, hidden, claude, calls, pages) && i < |pages|
    ensures Walked(rows, paging, hidden, claude, calls[..i + 1]).offset == pages[i].offset
    ensures pages[i].data == [] && pages[i].offset < |Full(rows, hidden, claude)| <==> CallEndsEarly(rows, paging, hidden, claude, calls, i)
    ensures i < |pages| - 1 ==> pages[i].data != []
    ensures (forall i :: 0 <= i < |rows| ==> !hidden(rows[i])) ==> !CallEndsEarly(rows, paging, hidden, claude, calls, i)
    decreases i
  {
    hide Rows, Told, EndsEarly, Full, Pages, PageOf;
    var at := Walked(rows, paging, hidden, claude, calls[..i + 1]);
    assert pages[i].limit == LimitOf(calls[i].asked) && PageRead(rows, hidden, claude, pages[i], at.read, at.done);
    if i > 0 {
      WalkReaches(rows, paging, hidden, claude, calls, pages, i - 1);
      var was := Walked(rows, paging, hidden, claude, calls[..i]);
      assert calls[..i + 1][..i] == calls[..i] && pages[i - 1].next == Some(pages[i - 1 + 1].offset);
      assert PageRead(rows, hidden, claude, pages[i - 1], was.read, was.done) by { assert calls[..i - 1 + 1] == calls[..i]; }
      PageEndsEarly(rows, hidden, claude, pages[i - 1], was);
      NextIs(rows, hidden, claude, pages[i - 1], was);
    }
    PageEndsEarly(rows, hidden, claude, pages[i], at);
    if i < |pages| - 1 { assert pages[i].next == Some(pages[i + 1].offset); NextIs(rows, hidden, claude, pages[i], at); }
  }

  lemma {:induction false} NextIs(rows: seq<Row>, hidden: Row -> bool, claude: seq<Row>, page: Page, at: Reached)
    requires at.read <= |rows| && PageRead(rows, hidden, claude, page, at.read, at.done) && page.next.Some?
    ensures page.data != [] && page.next.value == page.offset + |page.data|
  {
    hide Final;
  }

  /**
   * A walk to its end shows all rows exactly when none of its calls ended early: at no offset it reached were the rows that
   * the call could tell the place of used up before all rows were. With nothing hidden it always does.
   */
  lemma {:induction false} WalkShowsAll(rows: seq<Row>, paging: Paging, hidden: Row -> bool, claude: seq<Row>, calls: seq<Call>, pages: seq<Page>)
    requires Rows(rows, claude) && Pages(paging, rows) && WalksBy(rows, paging, hidden, claude, calls, pages) && pages[|pages| - 1].next.None?
    ensures Listed(pages) == Full(rows, hidden, claude) <==>
            forall i :: 0 <= i < |calls| ==> !CallEndsEarly(rows, paging, hidden, claude, calls, i)
    ensures (forall i :: 0 <= i < |rows| ==> !hidden(rows[i])) ==> Listed(pages) == Full(rows, hidden, claude)
  {
    var n, all := |pages| - 1, Full(rows, hidden, claude);
    hide *;
    WalkIs(rows, paging, hidden, claude, calls, pages);
    WalkShowsPrefix(rows, hidden, claude, pages);
    PageShows(rows, hidden, claude, pages[n]);
    forall i | 0 <= i < |calls| ensures CallEndsEarly(rows, paging, hidden, claude, calls, i) <==> i == n && pages[n].data == [] && pages[n].offset < |all| {
      WalkReaches(rows, paging, hidden, claude, calls, pages, i);
    }
    WalkReaches(rows, paging, hidden, claude, calls, pages, n);
    ListsAll(pages, all);
  }

  /** Pages that show the first of all rows show all of them exactly when the last is not empty before their end. */
  lemma {:induction false} ListsAll(pages: seq<Page>, all: seq<Row>)
    requires pages != [] && ShowsFirst(pages, all) && Shows(pages[|pages| - 1], all) && pages[|pages| - 1].next.None?
    ensures Listed(pages) == all <==> !(pages[|pages| - 1].data == [] && pages[|pages| - 1].offset < |all|)
  {
    hide Listed;
    assert all[..|all|] == all;
  }

  lemma {:induction false} WalkIs(rows: seq<Row>, paging: Paging, hidden: Row -> bool, claude: seq<Row>, calls: seq<Call>, pages: seq<Page>)
    requires Pages(paging, rows) && WalksBy(rows, paging, hidden, claude, calls, pages)
    ensures pages != [] && |pages| == |calls| && IsWalk(rows, hidden, claude, pages) && forall i :: 0 <= i < |pages| ==> IsPage(rows, hidden, claude, pages[i])
  {
    hide PageRead, Walked, Pages;
    forall i | 0 <= i < |pages| ensures IsPage(rows, hidden, claude, pages[i]) {
      var at := Walked(rows, paging, hidden, claude, calls[..i + 1]);
      assert PageRead(rows, hidden, claude, pages[i], at.read, at.done);
    }
  }

  /** A hidden row of stock's first page, and the list ends before it began. */
  lemma {:induction false} HiddenRowsEndTheList(part: Token, shown: Token)
    requires part != shown
    ensures var rows, hidden := [Row(part, true, 1), Row(shown, true, 2)], (row: Row) => row.id == part;
            && PageRead(rows, hidden, [], Page(0, 1, [], None), 1, false)
            && Full(rows, hidden, []) == [Row(shown, true, 2)]
  {
    var first, second := Row(part, true, 1), Row(shown, true, 2);
    var rows, hidden := [first, second], (row: Row) => row.id == part;
    assert rows[..1] == [first] && rows[1..] == [second] && [first][1..] == [] && [second][1..] == [];
    assert Visible(hidden, []) == [];
    assert Visible(hidden, [first]) == [];
    assert Visible(hidden, [second]) == [second];
    assert Visible(hidden, rows) == [second];
    NoStock([]);
    assert Final(rows, 1, false, hidden, []) == [];
    assert Merge([second], []) == [second] + Merge([], []);
  }

  // ---- the listing ----

  /** The listing, and the stock rows it keeps between calls. */
  class Listing {
    const rows: seq<Row>
    const paging: Paging
    var threads: seq<Row>
    var done: bool

    ghost predicate Valid()
      reads this
    {
      Pages(paging, rows) && |threads| <= |rows| && threads == rows[..|threads|] && (done ==> |threads| == |rows|)
    }

    constructor (rows: seq<Row>, paging: Paging)
      requires Pages(paging, rows)
      ensures Valid() && this.rows == rows && this.paging == paging
    {
      this.rows, this.paging, this.threads, this.done := rows, paging, [], false;
    }

    /** Stock's rows as far as needed: page after page, from what an earlier call read unless that is too old. */
    method StockThreads(needed: nat, afresh: bool)
      requires Valid()
      modifies this
      ensures Valid() && (done || needed <= |threads|)
      ensures (|threads|, done) == if afresh then ReadOn(rows, paging, 0, false, needed) else ReadOn(rows, paging, |old(threads)|, old(done), needed)
    {
      if afresh { threads, done := [], false; }
      ghost var goal := ReadOn(rows, paging, |threads|, done, needed);
      while !done && |threads| < needed
        invariant Valid() && ReadOn(rows, paging, |threads|, done, needed) == goal
        decreases |rows| - |threads|, !done
      {
        var (count, more) := paging(|threads|);
        threads := threads + rows[|threads|..|threads| + count];
        done := !more;
      }
    }

    /** One page; a first page, or one for which the rows read are too old, reads stock from its start. */
    method List(claude: seq<Row>, hidden: Row -> bool, offset: nat, call: Call) returns (page: Page)
      requires Valid() && Rows(rows, claude)
      modifies this
      ensures Valid() && page.offset == offset && page.limit == LimitOf(call.asked)
      ensures (|threads|, done) == if offset == 0 || call.expired then ReadOn(rows, paging, 0, false, offset + page.limit)
                                   else ReadOn(rows, paging, |old(threads)|, old(done), offset + page.limit)
      ensures PageRead(rows, hidden, claude, page, |threads|, done)
    {
      hide Merge, Filter, Rows, ReadOn, Slice, LimitOf;
      var limit := LimitOf(call.asked);
      StockThreads(offset + limit, offset == 0 || call.expired);
      var shown := Visible(hidden, threads);
      var merged := MergeRows(shown, claude);
      if !done && |threads| > 0 {
        var boundary := threads[|threads| - 1].order;
        merged := Filter((row: Row) => row.stock || row.order <= boundary, merged);
      }
      var data := Slice(merged, offset, limit);
      var more := offset + limit < |merged| || !done;
      page := Page(offset, limit, data, if more && data != [] then Some(offset + |data|) else None);
      assert merged == Final(rows, |threads|, done, hidden, claude);
    }
  }
}
