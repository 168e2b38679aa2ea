/**
 * A section's manual order over stock and Claude threads (src/gateway/catalog.ts 145-153, 253-270): after a move the
 * listing shows the recorded order, and stock's own order is its restriction. A section's listing fits in one page.
 */
module Sections {
  import opened Basics
  import Sorting

  /** Stock's threads of the section in stock's order, Claude's as they entered it, and the recorded order. */
  datatype Section = Section(stock: seq<Token>, claude: seq<Token>, recorded: seq<Token>)

  function Rank(order: seq<Token>, id: Token): nat {
    if order == [] then 0 else if order[0] == id then 0 else 1 + Rank(order[1..], id)
  }

  /** The comparison by rank in an order. */
  function InRank(order: seq<Token>): (Token, Token) -> bool { (a: Token, b: Token) => Rank(order, a) <= Rank(order, b) }

  /** Inserts before the first of no lower rank: equal ranks keep their order. */
  function Insert(order: seq<Token>, id: Token, sorted: seq<Token>): seq<Token> { Sorting.Insert(InRank(order), id, sorted) }

  /** The stable sort by rank in the recorded order; what it lacks comes at its end. */
  function SortByRank(order: seq<Token>, ids: seq<Token>): seq<Token> { Sorting.Sort(InRank(order), ids) }

  function Listing(section: Section): seq<Token> { SortByRank(section.recorded, section.stock + section.claude) }

  // ---- sorting ----

  lemma {:induction false} RankOf(order: seq<Token>, id: Token)
    ensures Rank(order, id) <= |order|
    ensures Rank(order, id) < |order| <==> id in order
    ensures id in order ==> order[Rank(order, id)] == id && forall i :: 0 <= i < Rank(order, id) ==> order[i] != id
    decreases |order|
  {
    if order != [] && order[0] != id {
      RankOf(order[1..], id);
      assert order == [order[0]] + order[1..];
    }
  }

  lemma {:induction false} RankAt(order: seq<Token>, i: nat)
    requires Distinct(order) && i < |order|
    ensures Rank(order, order[i]) == i
  {
    RankOf(order, order[i]);
  }

  ghost predicate ByRank(order: seq<Token>, ids: seq<Token>) {
    forall i, j :: 0 <= i < j < |ids| ==> Rank(order, ids[i]) <= Rank(order, ids[j])
  }

  lemma {:induction false} Sorts(order: seq<Token>, ids: seq<Token>)
    ensures ByRank(order, SortByRank(order, ids)) && multiset(SortByRank(order, ids)) == multiset(ids)
  {
    var any := (a: Token, b: Token) => true;
    Sorting.SortSorts(InRank(order), any, ids, ids);
    Sorting.SortHolds(InRank(order), ids);
  }

  /** A sorted list of just the order's ids is the order. */
  lemma {:induction false} SortedIsOrder(order: seq<Token>, sorted: seq<Token>)
    requires Distinct(order) && ByRank(order, sorted) && multiset(sorted) == multiset(order)
    ensures sorted == order
    decreases |order|
  {
    hide Rank;
    SameLength(order, sorted);
    if order != [] {
      var n := |order| - 1;
      var last := order[n];
      LastRank(order, sorted);
      WithoutLast(order, sorted, n);
      ShorterRanks(order, sorted, n);
      hide ByRank, Distinct;
      SortedIsOrder(order[..n], sorted[..n]);
      assert order == order[..n] + [last] && sorted == sorted[..n] + [last];
    }
  }

  lemma {:induction false} SameLength(a: seq<Token>, b: seq<Token>)
    requires multiset(a) == multiset(b)
    ensures |a| == |b|
  {
    assert |multiset(a)| == |a| && |multiset(b)| == |b|;
  }

  lemma {:induction false} WithoutLast(a: seq<Token>, b: seq<Token>, n: nat)
    requires multiset(a) == multiset(b) && n + 1 == |a| == |b| && a[n] == b[n]
    ensures multiset(a[..n]) == multiset(b[..n])
  {
    WithoutOne(a, n);
    WithoutOne(b, n);
  }

  lemma {:induction false} WithoutOne(a: seq<Token>, n: nat)
    requires n + 1 == |a|
    ensures multiset(a[..n]) == multiset(a) - multiset{a[n]}
  {
    assert a == a[..n] + [a[n]];
  }

  /** The last of the order is the last sorted. */
  lemma {:induction false} LastRank(order: seq<Token>, sorted: seq<Token>)
    requires Distinct(order) && ByRank(order, sorted) && multiset(sorted) == multiset(order) && |sorted| == |order| && order != []
    ensures sorted[|order| - 1] == order[|order| - 1]
  {
    var n := |order| - 1;
    RankAt(order, n);
    assert order[n] in multiset(order) && order[n] in sorted;
    var i :| 0 <= i < |sorted| && sorted[i] == order[n];
    assert sorted[n] in multiset(sorted) && sorted[n] in order;
    RankOf(order, sorted[n]);
    assert Rank(order, sorted[i]) <= Rank(order, sorted[n]);
  }

  lemma {:induction false} ShorterRanks(order: seq<Token>, sorted: seq<Token>, n: nat)
    requires Distinct(order) && n + 1 == |order| == |sorted| && ByRank(order, sorted)
    requires multiset(sorted[..n]) == multiset(order[..n])
    ensures Distinct(order[..n]) && ByRank(order[..n], sorted[..n])
  {
    forall i | 0 <= i < n ensures Rank(order[..n], sorted[i]) == Rank(order, sorted[i]) {
      assert sorted[..n][i] in multiset(sorted[..n]);
      assert sorted[i] in order[..n];
      var k :| 0 <= k < n && order[..n][k] == sorted[i];
      RankAt(order, k);
      RankAt(order[..n], k);
    }
  }

  // ---- moving ----

  function Without(ids: seq<Token>, id: Token): seq<Token> { Filter((each: Token) => each != id, ids) }

  function IndexOf(ids: seq<Token>, id: Token): (i: int)
    ensures -1 <= i < |ids|
    ensures i >= 0 ==> ids[i] == id
    ensures i < 0 ==> id !in ids
  {
    var rank := Rank(ids, id);
    RankOf(ids, id);
    if rank < |ids| then rank else -1
  }

  /** `order.splice(at, 0, id)`: before another thread, or at the end. */
  function Placed(order: seq<Token>, id: Token, before: Option<Token>): seq<Token> {
    var at := if before.Some? then IndexOf(order, before.value) else -1;
    if at < 0 then order + [id] else order[..at] + [id] + order[at..]
  }

  /** Stock's own move: the thread goes before another one of the section, or to its end. */
  function StockMove(stock: seq<Token>, id: Token, before: Option<Token>): seq<Token> { Placed(Without(stock, id), id, before) }

  /** The next stock thread after the moved one. */
  function NextStock(order: seq<Token>, isClaude: Token -> bool): Option<Token> {
    if order == [] then None else if !isClaude(order[0]) then Some(order[0]) else NextStock(order[1..], isClaude)
  }

  /** Recorded, or (a stock thread in a section with no Claude one) passed on to stock alone. */
  predicate Records(section: Section, id: Token, isClaude: Token -> bool) {
    isClaude(id) || exists i :: 0 <= i < |Without(Listing(section), id)| && isClaude(Without(Listing(section), id)[i])
  }

  function Move(section: Section, id: Token, before: Option<Token>, isClaude: Token -> bool): Section {
    if !Records(section, id, isClaude) then section.(stock := StockMove(section.stock, id, before))
    else
      var order := Placed(Without(Listing(section), id), id, before);
      if isClaude(id) then
        section.(recorded := order, claude := if id in section.claude then section.claude else section.claude + [id])
      else
        section.(recorded := order, stock := StockMove(section.stock, id, NextStock(order[IndexOf(order, id) + 1..], isClaude)))
  }

  /** Each of the section's threads is of one backend, once. */
  ghost predicate WellFormed(section: Section, isClaude: Token -> bool) {
    && Distinct(section.stock + section.claude)
    && (forall i :: 0 <= i < |section.stock| ==> !isClaude(section.stock[i]))
    && (forall i :: 0 <= i < |section.claude| ==> isClaude(section.claude[i]))
  }

  /** Stock lists its threads of the section in the order they have among all. */
  ghost predicate Restricts(section: Section, isClaude: Token -> bool) {
    section.stock == Filter((each: Token) => !isClaude(each), Listing(section))
  }

  // ---- a sorted list stays; filters and counts ----

  lemma {:induction false} SortedStays(order: seq<Token>, ids: seq<Token>)
    ensures ByRank(order, ids) <==> SortByRank(order, ids) == ids
    decreases |ids|
  {
    if SortByRank(order, ids) == ids { Sorts(order, ids); }
    if ByRank(order, ids) && ids != [] {
      assert ByRank(order, ids[1..]) by { assert forall i :: 0 <= i < |ids| - 1 ==> ids[1..][i] == ids[i + 1]; }
      SortedStays(order, ids[1..]);
      if |ids| > 1 { assert Rank(order, ids[0]) <= Rank(order, ids[1]); }
    }
  }

  lemma {:induction false} CountOnce(ids: seq<Token>, id: Token)
    requires Distinct(ids)
    ensures multiset(ids)[id] == if id in ids then 1 else 0
    decreases |ids|
  {
    if ids != [] {
      CountOnce(ids[1..], id);
      assert ids == [ids[0]] + ids[1..];
      assert id in ids <==> id == ids[0] || id in ids[1..];
    }
  }

  lemma {:induction false} CountTwice(ids: seq<Token>, i: nat, j: nat)
    requires i < j < |ids| && ids[i] == ids[j]
    ensures multiset(ids)[ids[i]] >= 2
  {
    assert ids == ids[..j] + [ids[j]] + ids[j + 1..] && ids[..j][i] == ids[i];
    assert ids[i] in multiset(ids[..j]);
  }

  lemma {:induction false} SameMembers(a: seq<Token>, b: seq<Token>)
    requires Distinct(a) && Distinct(b) && forall id :: id in a <==> id in b
    ensures multiset(a) == multiset(b)
  {
    forall id ensures multiset(a)[id] == multiset(b)[id] { CountOnce(a, id); CountOnce(b, id); }
  }

  lemma {:induction false} SameCounts(a: seq<Token>, b: seq<Token>)
    requires Distinct(a) && multiset(a) == multiset(b)
    ensures Distinct(b) && forall id :: id in a <==> id in b
  {
    forall i, j | 0 <= i < j < |b| ensures b[i] != b[j] {
      if b[i] == b[j] { CountTwice(b, i, j); CountOnce(a, b[i]); }
    }
    forall id ensures id in a <==> id in b { assert id in a <==> id in multiset(a); assert id in b <==> id in multiset(b); }
  }

  lemma {:induction false} FilterDistinct(p: Token -> bool, ids: seq<Token>)
    requires Distinct(ids)
    ensures Distinct(Filter(p, ids)) && forall id :: id in Filter(p, ids) <==> id in ids && p(id)
    decreases |ids|
  {
    forall id ensures id in Filter(p, ids) <==> id in ids && p(id) { FilterMember(p, ids, id); }
    if ids != [] {
      var rest := Filter(p, ids[1..]);
      FilterDistinct(p, ids[1..]);
      assert ids[0] !in ids[1..] && ids[0] !in rest;
      assert Filter(p, ids) == if p(ids[0]) then [ids[0]] + rest else rest;
      hide Filter;
      assert Distinct([ids[0]] + rest);
    }
  }

  lemma {:induction false} FiltersCommute(p: Token -> bool, q: Token -> bool, ids: seq<Token>)
    ensures Filter(p, Filter(q, ids)) == Filter(q, Filter(p, ids))
    decreases |ids|
  {
    if ids != [] {
      var x, rest := ids[0], ids[1..];
      FiltersCommute(p, q, rest);
      FilterCons(p, x, Filter(q, rest));
      FilterCons(q, x, Filter(p, rest));
      FilterCons(p, x, rest);
      FilterCons(q, x, rest);
      assert ids == [x] + rest;
      hide Filter;
    }
  }

  lemma {:induction false} FilterCons(p: Token -> bool, x: Token, rest: seq<Token>)
    ensures Filter(p, [x] + rest) == if p(x) then [x] + Filter(p, rest) else Filter(p, rest)
  {
    assert ([x] + rest)[1..] == rest;
  }

  lemma {:induction false} FilterAll(p: Token -> bool, ids: seq<Token>)
    requires forall i :: 0 <= i < |ids| ==> p(ids[i])
    ensures Filter(p, ids) == ids
    decreases |ids|
  {
    if ids != [] { FilterAll(p, ids[1..]); }
  }

  lemma {:induction false} FilterNone(p: Token -> bool, ids: seq<Token>)
    requires forall i :: 0 <= i < |ids| ==> !p(ids[i])
    ensures Filter(p, ids) == []
    decreases |ids|
  {
    if ids != [] { FilterNone(p, ids[1..]); }
  }

  /** Where the thread is placed: between two parts of the others. */
  lemma {:induction false} PlacedBetween(order: seq<Token>, id: Token, before: Option<Token>) returns (a: seq<Token>, b: seq<Token>)
    ensures order == a + b && Placed(order, id, before) == a + [id] + b
    ensures forall each :: each in Placed(order, id, before) <==> each in order || each == id
    ensures Distinct(order) && id !in order ==> Distinct(Placed(order, id, before))
  {
    var at := if before.Some? then IndexOf(order, before.value) else -1;
    if at < 0 { a, b := order, []; assert order + [id] + [] == order + [id]; } else { a, b := order[..at], order[at..]; }
    hide *;
    PutIn(a, b, id);
  }

  /** A new thread between two parts of others. */
  lemma {:induction false} PutIn(a: seq<Token>, b: seq<Token>, id: Token)
    ensures forall each :: each in a + [id] + b <==> each in a + b || each == id
    ensures Distinct(a + b) && id !in a + b ==> Distinct(a + [id] + b)
  {
    var all, order := a + [id] + b, a + b;
    if Distinct(order) && id !in order {
      forall i, j | 0 <= i < j < |all| ensures all[i] != all[j] {
        if i != |a| { NextTo(a, b, id, i); }
        if j != |a| { NextTo(a, b, id, j); }
      }
    }
    hide Distinct;
    assert forall each :: each in order <==> each in a || each in b;
  }

  lemma {:induction false} NextTo(a: seq<Token>, b: seq<Token>, id: Token, k: nat)
    requires k < |a + [id] + b| && k != |a|
    ensures var at := if k < |a| then k else k - 1; (a + [id] + b)[k] == (a + b)[at] && (a + b)[at] in a + b
  {}

  // ---- what a move leaves ----

  lemma {:induction false} Members(section: Section)
    requires Distinct(section.stock + section.claude)
    ensures Distinct(Listing(section)) && forall id :: id in Listing(section) <==> id in section.stock || id in section.claude
  {
    Sorts(section.recorded, section.stock + section.claude);
    SameCounts(section.stock + section.claude, Listing(section));
    assert forall id :: id in section.stock + section.claude <==> id in section.stock || id in section.claude;
  }

  lemma {:induction false} Parts(a: seq<Token>, b: seq<Token>)
    ensures Distinct(a + b) <==> Distinct(a) && Distinct(b) && forall i :: 0 <= i < |b| ==> b[i] !in a
  {
    var all := a + b;
    assert forall i :: 0 <= i < |a| ==> all[i] == a[i];
    assert forall i :: 0 <= i < |b| ==> all[|a| + i] == b[i];
    if Distinct(all) {
      forall i | 0 <= i < |b| ensures b[i] !in a { assert forall k :: 0 <= k < |a| ==> all[k] != all[|a| + i]; }
      forall i, j | 0 <= i < j < |b| ensures b[i] != b[j] { assert all[|a| + i] != all[|a| + j]; }
    }
    if Distinct(a) && Distinct(b) && forall i :: 0 <= i < |b| ==> b[i] !in a {
      forall i, j | 0 <= i < j < |all| ensures all[i] != all[j] {
        if i < |a| <= j { assert b[j - |a|] !in a && a[i] in a; }
      }
    }
  }

  /** The recorded order is that of all the section's threads, each once. */
  lemma {:induction false} OrderIsWhole(section: Section, id: Token, before: Option<Token>, isClaude: Token -> bool)
    requires WellFormed(section, isClaude)
    ensures var order := Placed(Without(Listing(section), id), id, before);
            Distinct(order) && forall each :: each in order <==> each == id || each in section.stock || each in section.claude
  {
    Members(section);
    FilterDistinct((x: Token) => x != id, Listing(section));
    hide Listing, Placed;
    var a, b := PlacedBetween(Without(Listing(section), id), id, before);
  }

  lemma {:induction false} StockMoveHolds(stock: seq<Token>, id: Token, before: Option<Token>)
    requires Distinct(stock)
    ensures Distinct(StockMove(stock, id, before)) && forall each :: each in StockMove(stock, id, before) <==> each in stock || each == id
  {
    FilterDistinct((x: Token) => x != id, stock);
    hide Placed;
    var a, b := PlacedBetween(Without(stock, id), id, before);
  }

  lemma {:induction false} MoveHolds(section: Section, id: Token, before: Option<Token>, isClaude: Token -> bool)
    requires WellFormed(section, isClaude) && Records(section, id, isClaude)
    ensures var next := Move(section, id, before, isClaude);
            && WellFormed(next, isClaude)
            && (forall each :: each in next.stock <==> each in section.stock || (each == id && !isClaude(id)))
            && (forall each :: each in next.claude <==> each in section.claude || (each == id && isClaude(id)))
  {
    Parts(section.stock, section.claude);
    var next := Move(section, id, before, isClaude);
    if isClaude(id) {
      ClaudeJoins(section.stock, section.claude, id, isClaude);
    } else {
      var order := Placed(Without(Listing(section), id), id, before);
      var nextStock := NextStock(order[IndexOf(order, id) + 1..], isClaude);
      StockMoveHolds(section.stock, id, nextStock);
      StockJoins(section.stock, section.claude, id, StockMove(section.stock, id, nextStock), isClaude);
      assert next.stock == StockMove(section.stock, id, nextStock) && next.claude == section.claude;
    }
    hide Move, StockMove, Records, Listing, Distinct;
  }

  lemma {:induction false} ClaudeJoins(stock: seq<Token>, claude: seq<Token>, id: Token, isClaude: Token -> bool)
    requires Distinct(stock + claude) && isClaude(id)
    requires (forall i :: 0 <= i < |stock| ==> !isClaude(stock[i])) && forall i :: 0 <= i < |claude| ==> isClaude(claude[i])
    ensures var next := if id in claude then claude else claude + [id];
            && Distinct(stock + next) && (forall i :: 0 <= i < |next| ==> isClaude(next[i]))
            && forall each :: each in next <==> each in claude || each == id
  {
    Parts(stock, claude);
    Parts(claude, [id]);
    Parts(stock, claude + [id]);
    assert Distinct([id]);
    hide Distinct;
    var joined := claude + [id];
    assert id !in stock;
    assert forall i :: 0 <= i < |joined| ==> joined[i] in claude || joined[i] == id;
    assert forall each :: each in joined <==> each in claude || each == id;
  }

  lemma {:induction false} StockJoins(stock: seq<Token>, claude: seq<Token>, id: Token, next: seq<Token>, isClaude: Token -> bool)
    requires Distinct(stock + claude) && !isClaude(id) && Distinct(next) && forall each :: each in next <==> each in stock || each == id
    requires (forall i :: 0 <= i < |stock| ==> !isClaude(stock[i])) && forall i :: 0 <= i < |claude| ==> isClaude(claude[i])
    ensures Distinct(next + claude) && forall i :: 0 <= i < |next| ==> !isClaude(next[i])
  {
    Parts(stock, claude);
    Parts(next, claude);
    hide Distinct;
    assert forall i :: 0 <= i < |next| ==> next[i] in next;
  }

  /** A move that is recorded: the listing shows the recorded order, the thread where it was asked for. */
  lemma {:induction false} MoveShows(section: Section, id: Token, before: Option<Token>, isClaude: Token -> bool)
    requires WellFormed(section, isClaude) && Records(section, id, isClaude)
    ensures var next := Move(section, id, before, isClaude);
            WellFormed(next, isClaude) && next.recorded == Placed(Without(Listing(section), id), id, before) == Listing(next)
  {
    var next, order := Move(section, id, before, isClaude), Placed(Without(Listing(section), id), id, before);
    assert next.recorded == order;
    OrderIsWhole(section, id, before, isClaude);
    MoveHolds(section, id, before, isClaude);
    hide Move, Placed, Without, Records;
    var all := next.stock + next.claude;
    assert forall each :: each in all <==> each in next.stock || each in next.claude;
    SameMembers(all, order);
    Sorts(order, all);
    SortedIsOrder(order, SortByRank(order, all));
  }

  /** A recorded move leaves stock's own order the restriction of the listing's exactly when that of the other threads was. */
  lemma {:induction false} MoveRestricts(section: Section, id: Token, before: Option<Token>, isClaude: Token -> bool)
    requires WellFormed(section, isClaude) && Records(section, id, isClaude)
    ensures Restricts(Move(section, id, before, isClaude), isClaude) <==>
            Without(section.stock, id) == Filter((each: Token) => !isClaude(each), Without(Listing(section), id))
  {
    MoveShows(section, id, before, isClaude);
    OrderIsWhole(section, id, before, isClaude);
    var others, next := Without(Listing(section), id), Move(section, id, before, isClaude);
    var a, b := PlacedBetween(others, id, before);
    assert isClaude(id) ==> next.stock == section.stock && id !in section.stock;
    assert !isClaude(id) ==> next.stock == StockMove(section.stock, id, NextStock(next.recorded[IndexOf(next.recorded, id) + 1..], isClaude));
    assert id !in others by { FilterMember((each: Token) => each != id, Listing(section), id); }
    hide Move, Records, Listing, WellFormed;
    RestrictsAfter(section.stock, a, b, id, isClaude, next.stock);
  }

  lemma {:induction false} RestrictsAfter(stock: seq<Token>, a: seq<Token>, b: seq<Token>, id: Token, isClaude: Token -> bool, after: seq<Token>)
    requires Distinct(a + [id] + b) && id !in a + b
    requires isClaude(id) ==> after == stock && id !in stock
    requires !isClaude(id) ==> after == StockMove(stock, id, NextStock((a + [id] + b)[IndexOf(a + [id] + b, id) + 1..], isClaude))
    ensures after == Filter((each: Token) => !isClaude(each), a + [id] + b) <==> Without(stock, id) == Filter((each: Token) => !isClaude(each), a + b)
  {
    var isStock := (each: Token) => !isClaude(each);
    FilterParts(isStock, a, id, b);
    FilterConcat(isStock, a, b);
    var mine, later := Filter(isStock, a), Filter(isStock, b);
    FilterMember(isStock, a + b, id);
    if isClaude(id) {
      NotInStock(stock, id);
      hide Filter, Without, Placed, NextStock, IndexOf, Distinct;
      assert mine + [] + later == mine + later;
    } else {
      StockFollows(a, b, id, isClaude);
      var target := NextStock((a + [id] + b)[IndexOf(a + [id] + b, id) + 1..], isClaude);
      FilterMember((each: Token) => each != id, stock, id);
      hide Filter, NextStock, IndexOf, Distinct;
      PlacedOnce(Without(stock, id), mine + later, id, target);
      hide Placed;
    }
  }

  /** Without the thread placed, the others are left: equal when both are. */
  lemma {:induction false} PlacedOnce(a: seq<Token>, b: seq<Token>, id: Token, before: Option<Token>)
    requires id !in a && id !in b
    ensures Placed(a, id, before) == Placed(b, id, before) <==> a == b
  {
    PlacedLeaves(a, id, before);
    PlacedLeaves(b, id, before);
    hide Placed;
  }

  lemma {:induction false} PlacedLeaves(order: seq<Token>, id: Token, before: Option<Token>)
    requires id !in order
    ensures Without(Placed(order, id, before), id) == order
  {
    var isOther := (each: Token) => each != id;
    var a, b := PlacedBetween(order, id, before);
    hide Placed;
    FilterParts(isOther, a, id, b);
    FilterAll(isOther, a);
    FilterAll(isOther, b);
    hide Filter;
    assert a + [] + b == a + b;
  }

  lemma {:induction false} NotInStock(stock: seq<Token>, id: Token)
    requires id !in stock
    ensures Without(stock, id) == stock
  {
    FilterAll((each: Token) => each != id, stock);
  }

  lemma {:induction false} FilterParts(p: Token -> bool, a: seq<Token>, id: Token, b: seq<Token>)
    ensures Filter(p, a + [id] + b) == Filter(p, a) + (if p(id) then [id] else []) + Filter(p, b)
  {
    FilterConcat(p, a + [id], b);
    FilterConcat(p, a, [id]);
    OneFiltered(p, id);
  }

  lemma {:induction false} OneFiltered(p: Token -> bool, id: Token)
    ensures Filter(p, [id]) == if p(id) then [id] else []
  {
    assert [id][1..] == [];
  }

  /** Stock is asked to put the thread before the next stock thread of the order: where it stands among stock's. */
  lemma {:induction false} StockFollows(a: seq<Token>, b: seq<Token>, id: Token, isClaude: Token -> bool)
    requires Distinct(a + [id] + b)
    ensures var isStock, order := (each: Token) => !isClaude(each), a + [id] + b;
            Placed(Filter(isStock, a) + Filter(isStock, b), id, NextStock(order[IndexOf(order, id) + 1..], isClaude)) == Filter(isStock, a) + [id] + Filter(isStock, b)
  {
    var isStock, order := (each: Token) => !isClaude(each), a + [id] + b;
    RankAt(order, |a|);
    assert order[|a|] == id && order[|a| + 1..] == b;
    var mine, later := Filter(isStock, a), Filter(isStock, b);
    NextIsFirst(b, isClaude);
    if later != [] {
      var first := later[0];
      forall i | 0 <= i < |mine| ensures mine[i] != first {
        FilterMember(isStock, a, mine[i]);
        FilterMember(isStock, b, first);
        assert mine[i] in a && first in b;
        var k :| 0 <= k < |a| && a[k] == mine[i];
        var l :| 0 <= l < |b| && b[l] == first;
        assert order[k] == mine[i] && order[|a| + 1 + l] == first;
      }
      RankOf(mine + later, first);
      assert (mine + later)[|mine|] == first;
      assert forall i :: 0 <= i < |mine| ==> (mine + later)[i] == mine[i];
      assert IndexOf(mine + later, first) == |mine|;
      assert (mine + later)[..|mine|] == mine && (mine + later)[|mine|..] == later;
    } else {
      assert mine + later == mine && mine + [id] + later == mine + [id];
    }
  }

  lemma {:induction false} NextIsFirst(b: seq<Token>, isClaude: Token -> bool)
    ensures var later := Filter((each: Token) => !isClaude(each), b);
            NextStock(b, isClaude) == if later == [] then None else Some(later[0])
    decreases |b|
  {
    if b != [] { NextIsFirst(b[1..], isClaude); }
  }

  /**
   * A move passed on to stock alone (no Claude thread in the section) shows as asked exactly when the order asked for agrees
   * with what was once recorded, and stock's own order with it for the threads not recorded: a record left from when a Claude
   * thread was there is not kept up. Stock's order is the listing's then exactly when it agrees with the record.
   */
  lemma {:induction false} ForwardedShows(section: Section, id: Token, before: Option<Token>, isClaude: Token -> bool)
    requires WellFormed(section, isClaude) && !Records(section, id, isClaude)
    ensures var next, asked, unknown := Move(section, id, before, isClaude), Placed(Without(Listing(section), id), id, before), (each: Token) => each !in section.recorded;
            && WellFormed(next, isClaude) && next.claude == [] && next.recorded == section.recorded
            && (Listing(next) == asked <==> ByRank(section.recorded, asked) && Filter(unknown, asked) == Filter(unknown, next.stock))
            && (Restricts(next, isClaude) <==> ByRank(section.recorded, next.stock))
            && (Restricts(section, isClaude) ==> next.stock == asked)
  {
    var next, asked := Move(section, id, before, isClaude), Placed(Without(Listing(section), id), id, before);
    Forwarded(section, id, before, isClaude);
    Members(section);
    AllStock(Listing(section), section.stock, isClaude);
    OrderIsWhole(section, id, before, isClaude);
    Sorts(section.recorded, next.stock);
    SameCounts(next.stock, Listing(next));
    AllStock(Listing(next), next.stock, isClaude);
    SortedStays(section.recorded, next.stock);
    SortKeepsUnknown(section.recorded, next.stock);
    hide Move, Records, Placed, Without, SortByRank, Rank, ByRank, Distinct, Filter, WellFormed;
    var unknown := (each: Token) => each !in section.recorded;
    if ByRank(section.recorded, asked) && Filter(unknown, asked) == Filter(unknown, next.stock) { SortedOnce(section.recorded, Listing(next), asked); }
  }

  /** What a forwarded move does: stock's threads are all there are, in the order stock has them. */
  lemma {:induction false} Forwarded(section: Section, id: Token, before: Option<Token>, isClaude: Token -> bool)
    requires WellFormed(section, isClaude) && !Records(section, id, isClaude)
    ensures var next := Move(section, id, before, isClaude);
            && WellFormed(next, isClaude) && next.claude == section.claude == [] && next.recorded == section.recorded
            && next.stock == StockMove(section.stock, id, before) && Distinct(next.stock) && Listing(next) == SortByRank(section.recorded, next.stock)
            && forall each :: each in next.stock <==> each in section.stock || each == id
  {
    NoClaude(section, id, isClaude);
    assert section.stock + [] == section.stock;
    StockMoveHolds(section.stock, id, before);
    assert !isClaude(id);
    hide Placed, Without, SortByRank, Distinct;
    var next := Move(section, id, before, isClaude);
    assert next.stock + next.claude == next.stock;
    assert forall i :: 0 <= i < |next.stock| ==> next.stock[i] in section.stock || next.stock[i] == id;
  }

  lemma {:induction false} AllStock(ids: seq<Token>, stock: seq<Token>, isClaude: Token -> bool)
    requires (forall i :: 0 <= i < |stock| ==> !isClaude(stock[i])) && forall id :: id in ids ==> id in stock
    ensures Filter((each: Token) => !isClaude(each), ids) == ids
  {
    forall i | 0 <= i < |ids| ensures !isClaude(ids[i]) { assert ids[i] in stock; }
    FilterAll((each: Token) => !isClaude(each), ids);
  }

  /** Threads the record lacks stay in their own order. */
  lemma {:induction false} SortKeepsUnknown(order: seq<Token>, ids: seq<Token>)
    ensures Filter((each: Token) => each !in order, SortByRank(order, ids)) == Filter((each: Token) => each !in order, ids)
    decreases |ids|
  {
    if ids != [] {
      SortKeepsUnknown(order, ids[1..]);
      Sorts(order, ids[1..]);
      InsertKeepsUnknown(order, ids[0], SortByRank(order, ids[1..]));
    }
  }

  lemma {:induction false} InsertKeepsUnknown(order: seq<Token>, id: Token, sorted: seq<Token>)
    requires ByRank(order, sorted)
    ensures Filter((each: Token) => each !in order, Insert(order, id, sorted))
         == if id !in order then [id] + Filter((each: Token) => each !in order, sorted) else Filter((each: Token) => each !in order, sorted)
    decreases |sorted|
  {
    var unknown := (each: Token) => each !in order;
    RankOf(order, id);
    assert Filter(unknown, []) == [];
    hide Filter;
    if sorted == [] {
      OneFiltered(unknown, id);
    } else {
      RankOf(order, sorted[0]);
      FilterCons(unknown, id, sorted);
      var rest := sorted[1..];
      assert sorted == [sorted[0]] + rest;
      FilterCons(unknown, sorted[0], rest);
      if Rank(order, sorted[0]) < Rank(order, id) {
        TailByRank(order, sorted);
        hide ByRank, Rank;
        InsertKeepsUnknown(order, id, rest);
        FilterCons(unknown, sorted[0], Insert(order, id, rest));
      }
    }
  }

  lemma {:induction false} TailByRank(order: seq<Token>, sorted: seq<Token>)
    requires sorted != [] && ByRank(order, sorted)
    ensures ByRank(order, sorted[1..])
  {
    hide Rank;
    assert forall i :: 0 <= i < |sorted| - 1 ==> sorted[1..][i] == sorted[i + 1];
  }

  /** There is one sorted list of the same threads, with those the record lacks in the same order. */
  lemma {:induction false} SortedOnce(order: seq<Token>, a: seq<Token>, b: seq<Token>)
    requires Distinct(a) && Distinct(b) && (forall id :: id in a <==> id in b) && ByRank(order, a) && ByRank(order, b)
    requires Filter((each: Token) => each !in order, a) == Filter((each: Token) => each !in order, b)
    ensures a == b
    decreases |a|
  {
    var unknown := (each: Token) => each !in order;
    if a == [] {
      assert forall i :: 0 <= i < |b| ==> b[i] in a;
    } else {
      assert a[0] in b;
      FirstOfSorted(order, a, b);
      if a[0] in order {
        TailSorted(order, a, b);
        SortedOnce(order, a[1..], b[1..]);
        assert a == [a[0]] + a[1..] && b == [b[0]] + b[1..];
      } else {
        FilterAll(unknown, a);
        FilterAll(unknown, b);
      }
    }
  }

  /** Both begin with the lowest of the recorded threads; without any, all are unknown. */
  lemma {:induction false} FirstOfSorted(order: seq<Token>, a: seq<Token>, b: seq<Token>)
    requires a != [] && b != [] && (forall id :: id in a <==> id in b) && ByRank(order, a) && ByRank(order, b)
    ensures a[0] in order ==> a[0] == b[0]
    ensures a[0] !in order ==> (forall i :: 0 <= i < |a| ==> a[i] !in order) && forall i :: 0 <= i < |b| ==> b[i] !in order
  {
    assert a[0] in a && b[0] in b;
    var i :| 0 <= i < |b| && b[i] == a[0];
    var j :| 0 <= j < |a| && a[j] == b[0];
    assert Rank(order, a[0]) == Rank(order, b[0]);
    RankOf(order, a[0]);
    RankOf(order, b[0]);
    forall k | 0 <= k < |a| && a[0] !in order ensures a[k] !in order { RankOf(order, a[k]); }
    forall k | 0 <= k < |b| && a[0] !in order ensures b[k] !in order { RankOf(order, b[k]); }
  }

  lemma {:induction false} TailSorted(order: seq<Token>, a: seq<Token>, b: seq<Token>)
    requires Distinct(a) && Distinct(b) && (forall id :: id in a <==> id in b) && ByRank(order, a) && ByRank(order, b)
    requires a != [] && b != [] && a[0] == b[0] && a[0] in order && Filter((each: Token) => each !in order, a) == Filter((each: Token) => each !in order, b)
    ensures Distinct(a[1..]) && Distinct(b[1..]) && (forall id :: id in a[1..] <==> id in b[1..]) && ByRank(order, a[1..]) && ByRank(order, b[1..])
    ensures Filter((each: Token) => each !in order, a[1..]) == Filter((each: Token) => each !in order, b[1..])
  {
    hide Rank, Filter;
    OneLess(a);
    OneLess(b);
    FilterCons((each: Token) => each !in order, a[0], a[1..]);
    FilterCons((each: Token) => each !in order, b[0], b[1..]);
    assert [a[0]] + a[1..] == a && [b[0]] + b[1..] == b;
    assert forall i :: 0 <= i < |a| - 1 ==> a[1..][i] == a[i + 1];
    assert forall i :: 0 <= i < |b| - 1 ==> b[1..][i] == b[i + 1];
  }

  lemma {:induction false} OneLess(ids: seq<Token>)
    requires ids != [] && Distinct(ids)
    ensures Distinct(ids[1..]) && forall id :: id in ids[1..] <==> id in ids && id != ids[0]
  {
    forall id ensures id in ids[1..] <==> id in ids && id != ids[0] {
      assert ids == [ids[0]] + ids[1..];
      if id in ids[1..] { var i :| 0 <= i < |ids| - 1 && ids[1..][i] == id; assert ids[i + 1] == id; }
    }
  }

  lemma {:induction false} NoClaude(section: Section, id: Token, isClaude: Token -> bool)
    requires WellFormed(section, isClaude) && !Records(section, id, isClaude)
    ensures section.claude == []
  {
    if section.claude != [] { StaysOther(section, id, section.claude[0], isClaude); }
  }

  lemma {:induction false} StaysOther(section: Section, id: Token, claude: Token, isClaude: Token -> bool)
    requires WellFormed(section, isClaude) && claude in section.claude && isClaude(claude)
    ensures Records(section, id, isClaude)
  {
    if isClaude(id) { return; }
    Members(section);
    FilterMember((each: Token) => each != id, Listing(section), claude);
    var others := Without(Listing(section), id);
    assert claude in others;
    var i :| 0 <= i < |others| && others[i] == claude;
  }

  /** The record of two stock threads and no Claude one left: the second moved first, and the listing does not show it. */
  lemma {:induction false} StaleRecordHidesMove(a: Token, b: Token)
    requires a != b
    ensures var section := Section([a, b], [], [a, b]);
            && Restricts(section, _ => false)
            && Move(section, b, Some(a), _ => false).stock == [b, a] && Listing(Move(section, b, Some(a), _ => false)) == [a, b]
  {
    var none := (_: Token) => false;
    var order := [a, b];
    RankAt(order, 0);
    RankAt(order, 1);
    assert [a, b][1..] == [b] && [b, a][1..] == [a] && [a][1..] == [] && [b][1..] == [];
    assert SortByRank(order, []) == [];
    assert SortByRank(order, [b]) == [b] && SortByRank(order, [a]) == [a];
    assert Insert(order, a, [b]) == [a, b];
    assert Insert(order, b, []) == [b];
    assert Insert(order, b, [a]) == [a] + Insert(order, b, [a][1..]);
    assert SortByRank(order, [a, b]) == [a, b] && SortByRank(order, [b, a]) == [a, b];
    assert [a, b] + [] == [a, b] && [b, a] + [] == [b, a];
    var isStock := (each: Token) => !none(each);
    FilterAll(isStock, [a, b]);
    var isOther := (each: Token) => each != b;
    assert Filter(isOther, [b]) == [] && Filter(isOther, [a, b]) == [a];
    RankAt([a], 0);
    assert [a][..0] + [b] + [a][0..] == [b, a];
  }

  /** Two moves in a row from a section in order: the first is not recorded, and with the second the stale record outlives stock's order. */
  lemma {:induction false} StaleRecordOutlives(a: Token, b: Token, c: Token)
    requires a != b && b != c && a != c
    ensures var isClaude := (each: Token) => each == c;
            var section := Section([a, b], [], [a, b]);
            var moved := Move(section, b, Some(a), isClaude);
            && WellFormed(section, isClaude) && Restricts(section, isClaude) && !Records(section, b, isClaude) && Records(moved, c, isClaude)
            && !Restricts(Move(moved, c, None, isClaude), isClaude)
  {
    var isClaude := (each: Token) => each == c;
    var moved := Section([b, a], [], [a, b]);
    FirstMoveIs(a, b, c, isClaude);
    hide *;
    MoveRestricts(moved, c, None, isClaude);
    SwappedDiffers(a, b);
  }

  lemma {:induction false} SwappedDiffers(a: Token, b: Token)
    requires a != b
    ensures [b, a] != [a, b]
  {
    assert [b, a][0] != [a, b][0];
  }

  /** The first of the two moves: of stock's threads alone, so not recorded. */
  lemma {:induction false} FirstMoveIs(a: Token, b: Token, c: Token, isClaude: Token -> bool)
    requires a != b && b != c && a != c && forall each :: isClaude(each) <==> each == c
    ensures var section, moved := Section([a, b], [], [a, b]), Section([b, a], [], [a, b]);
            && WellFormed(section, isClaude) && Restricts(section, isClaude) && !Records(section, b, isClaude) && Move(section, b, Some(a), isClaude) == moved
            && WellFormed(moved, isClaude) && Records(moved, c, isClaude) && moved.stock == [b, a]
            && Without(moved.stock, c) == [b, a] && Filter((each: Token) => !isClaude(each), Without(Listing(moved), c)) == [a, b]
  {
    var section, moved := Section([a, b], [], [a, b]), Section([b, a], [], [a, b]);
    StaleRecordIs(a, b);
    assert [a, b] + [] == [a, b] && [b, a] + [] == [b, a];
    hide SortByRank;
    FilterAll((each: Token) => !isClaude(each), [a, b]);
    FilterAll((each: Token) => each != c, [a, b]);
    FilterAll((each: Token) => each != c, [b, a]);
    assert Without([a, b], b) == [a] by { assert [a, b][1..] == [b] && [b][1..] == []; }
    hide Filter, StockMove;
    assert Listing(section) == [a, b] && Listing(moved) == [a, b];
  }

  lemma {:induction false} StaleRecordIs(a: Token, b: Token)
    requires a != b
    ensures SortByRank([a, b], [a, b]) == [a, b] && SortByRank([a, b], [b, a]) == [a, b]
    ensures [b, a] + [] == [b, a] && StockMove([a, b], b, Some(a)) == [b, a]
  {
    StaleRecordHidesMove(a, b);
    assert [a, b] + [] == [a, b] && [b, a] + [] == [b, a];
    RankAt([a, b], 0);
    RankAt([a, b], 1);
    SortedStays([a, b], [a, b]);
  }

  /** The section as the gateway and stock keep it between them. */
  class Manual {
    var stock: seq<Token>
    var claude: seq<Token>
    var recorded: seq<Token>

    function Now(): Section
      reads this
    {
      Section(stock, claude, recorded)
    }

    /**
     * The move, for every section. A recorded one shows as asked, one passed on exactly when the record agrees; each leaves
     * stock's order that of the listing exactly when its condition holds, in particular if it was.
     */
    method MoveInSection(id: Token, before: Option<Token>, isClaude: Token -> bool)
      requires WellFormed(Now(), isClaude)
      modifies this
      ensures WellFormed(Now(), isClaude) && Now() == Move(old(Now()), id, before, isClaude)
      ensures Records(old(Now()), id, isClaude) ==>
                && Listing(Now()) == recorded == Placed(Without(Listing(old(Now())), id), id, before)
                && (Restricts(Now(), isClaude) <==> Without(old(stock), id) == Filter((each: Token) => !isClaude(each), Without(Listing(old(Now())), id)))
      ensures !Records(old(Now()), id, isClaude) ==> recorded == old(recorded) && (Restricts(Now(), isClaude) <==> ByRank(recorded, stock))
    {
      hide Listing, Filter, WellFormed, Restricts, ByRank;
      ghost var was := Now();
      var order := Without(Listing(Now()), id);
      var someClaude := exists i :: 0 <= i < |order| && isClaude(order[i]);
      if !isClaude(id) && !someClaude {
        ForwardedShows(was, id, before, isClaude);
        stock := StockMove(stock, id, before);
        return;
      }
      MoveShows(was, id, before, isClaude);
      MoveRestricts(was, id, before, isClaude);
      var at := if before.Some? then IndexOf(order, before.value) else -1;
      order := if at < 0 then order + [id] else order[..at] + [id] + order[at..];
      if isClaude(id) {
        if id !in claude { claude := claude + [id]; }
      } else {
        var next := NextStock(order[IndexOf(order, id) + 1..], isClaude);
        stock := StockMove(stock, id, next);
      }
      recorded := order;
    }
  }
}
