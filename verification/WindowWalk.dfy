/**
 * The leaf that history is read from, and the walk over a window (src/claude/native/history.ts 168-240): over a suffix
 * of the file that holds the leaf and its conversational record, the same leaf is chosen, and the walk is the part of the
 * full walk inside the window.
 */
module WindowWalk {
  import opened Basics
  import opened Relink
  import opened BranchWalk

  // ---- choosing the leaf ----

  function Nearest(linked: Records, uuid: Token): Option<Token> {
    FirstConversational(linked, PathUp(linked, uuid, {}))
  }

  ghost predicate Childless(linked: Records, uuid: Token) {
    uuid in linked && forall child :: child in linked ==> linked[child].parent != Some(uuid)
  }

  predicate OfMainThread(record: Record) { !record.isSidechain && !record.inTeam && !record.isMeta }

  /** A record no other is below, with a user or assistant record above it or at it. */
  ghost predicate Candidate(linked: Records, uuid: Token) {
    Childless(linked, uuid) && Nearest(linked, uuid).Some?
  }

  ghost predicate Preferred(linked: Records, uuid: Token) {
    Candidate(linked, uuid) && Nearest(linked, uuid).value in linked && OfMainThread(linked[Nearest(linked, uuid).value])
  }

  ghost predicate AnyPreferred(linked: Records) {
    exists uuid :: uuid in linked && Preferred(linked, uuid)
  }

  /** The candidate written last, of the main thread if any is. */
  ghost predicate Chosen(chain: seq<Record>, linked: Records, uuid: Token) {
    && Candidate(linked, uuid) && (AnyPreferred(linked) ==> Preferred(linked, uuid))
    && uuid in UuidSet(chain)
    && forall other ::
         (Candidate(linked, other) && (AnyPreferred(linked) ==> Preferred(linked, other)) && other in UuidSet(chain)) ==>
           Position(chain, other) <= Position(chain, uuid)
  }

  lemma {:induction false} PathOnce(linked: Records, uuid: Token, passed: set<Token>)
    requires uuid in linked && uuid !in passed
    ensures var record := linked[uuid];
            PathUp(linked, uuid, passed) ==
              [uuid] + (if record.parent.Some? then PathUp(linked, record.parent.value, passed + {uuid}) else [])
  {}

  lemma {:induction false} NearestOnce(linked: Records, uuid: Token, rest: seq<Token>)
    requires uuid in linked
    ensures FirstConversational(linked, [uuid] + rest) == if Conversational(linked[uuid]) then Some(uuid) else FirstConversational(linked, rest)
  {
    assert ([uuid] + rest)[1..] == rest;
  }

  /** Up the parents as far as the first user or assistant record, guarded against cycles. */
  method NearestConversational(linked: Records, uuid: Token) returns (r: Option<Token>)
    requires uuid in linked
    ensures r == Nearest(linked, uuid)
  {
    hide PathUp, FirstConversational;
    var cursor := Some(uuid);
    var seen: set<Token> := {};
    while cursor.Some?
      invariant cursor.Some? ==> cursor.value in linked
      invariant seen <= linked.Keys && |seen| <= |linked.Keys|
      invariant Nearest(linked, uuid) == if cursor.Some? then FirstConversational(linked, PathUp(linked, cursor.value, seen)) else None
      decreases |linked.Keys| - |seen|, if cursor.Some? then 1 else 0
    {
      var at := cursor.value;
      if at in seen {
        Ended(linked, at, seen);
        return None;
      }
      PathOnce(linked, at, seen);
      NearestOnce(linked, at, if linked[at].parent.Some? then PathUp(linked, linked[at].parent.value, seen + {at}) else []);
      AtMost(seen + {at}, linked.Keys);
      seen := seen + {at};
      if Conversational(linked[at]) { return Some(at); }
      var parent := linked[at].parent;
      if parent.Some? && parent.value !in linked { Ended(linked, parent.value, seen); }
      if parent.None? { NoneConversational(linked); }
      cursor := if parent.Some? && parent.value in linked then parent else None;
    }
    r := None;
  }

  lemma {:induction false} Ended(linked: Records, uuid: Token, seen: set<Token>)
    requires uuid in seen || uuid !in linked
    ensures PathUp(linked, uuid, seen) == [] && FirstConversational(linked, []) == None
  {}

  lemma {:induction false} NoneConversational(linked: Records)
    ensures FirstConversational(linked, []) == None
  {}

  /** A conversational leaf and its conversational record. */
  datatype Found = Found(leaf: Token, conversational: Token)

  predicate PreferredFound(linked: Records, found: Found) {
    found.conversational in linked && OfMainThread(linked[found.conversational])
  }

  ghost predicate FoundAmong(linked: Records, among: seq<Token>, found: seq<Found>) {
    && (forall i :: 0 <= i < |found| ==> found[i].leaf in among && Candidate(linked, found[i].leaf) && Nearest(linked, found[i].leaf) == Some(found[i].conversational))
    && (forall uuid :: uuid in among && Candidate(linked, uuid) ==> exists i :: 0 <= i < |found| && found[i].leaf == uuid)
  }

  method ConversationalLeaves(linked: Records, order: seq<Token>) returns (found: seq<Found>)
    requires linked.Keys == set uuid | uuid in order
    ensures FoundAmong(linked, order, found)
  {
    hide Nearest;
    var parents := set uuid | uuid in order && linked[uuid].parent.Some? :: linked[uuid].parent.value;
    found := [];
    for n := 0 to |order|
      invariant FoundAmong(linked, order[..n], found)
    {
      hide FoundAmong, Candidate;
      var uuid := order[n];
      assert order[..n + 1] == order[..n] + [uuid];
      ParentsTold(linked, order, parents, uuid);
      var was := found;
      if uuid !in parents {
        var nearest := NearestConversational(linked, uuid);
        if nearest.Some? { found := found + [Found(uuid, nearest.value)]; }
      }
      OneFound(linked, order[..n], was, uuid, found);
    }
    assert order[..|order|] == order;
  }

  lemma {:induction false} OneFound(linked: Records, among: seq<Token>, was: seq<Found>, uuid: Token, found: seq<Found>)
    requires FoundAmong(linked, among, was) && uuid in linked
    requires found == if Childless(linked, uuid) && Nearest(linked, uuid).Some? then was + [Found(uuid, Nearest(linked, uuid).value)] else was
    ensures FoundAmong(linked, among + [uuid], found)
  {
    hide Nearest, Childless;
    forall u | u in among + [uuid] && Candidate(linked, u) ensures exists i :: 0 <= i < |found| && found[i].leaf == u {
      if u == uuid {
        assert found[|was|].leaf == u;
      } else {
        assert u in among;
        var i :| 0 <= i < |was| && was[i].leaf == u;
        assert found[i].leaf == u;
      }
    }
  }

  /** `reduce`: the one with the greatest position, the first of them if there were several. */
  method Latest(chain: seq<Record>, candidates: seq<Found>) returns (latest: Found)
    requires candidates != [] && forall i :: 0 <= i < |candidates| ==> candidates[i].leaf in UuidSet(chain)
    ensures latest in candidates
    ensures forall i :: 0 <= i < |candidates| ==> Position(chain, candidates[i].leaf) <= Position(chain, latest.leaf)
  {
    hide Position;
    latest := candidates[0];
    for n := 1 to |candidates|
      invariant latest in candidates
      invariant forall i :: 0 <= i < n ==> Position(chain, candidates[i].leaf) <= Position(chain, latest.leaf)
    {
      if Position(chain, candidates[n].leaf) > Position(chain, latest.leaf) { latest := candidates[n]; }
    }
  }

  method ChooseLeaf(chain: seq<Record>, linked: Records, order: seq<Token>) returns (leaf: Option<Token>)
    requires TableOf(linked, chain) && linked.Keys == set uuid | uuid in order
    ensures leaf.Some? ==> Chosen(chain, linked, leaf.value)
    ensures leaf.None? ==> forall uuid :: !Candidate(linked, uuid)
  {
    hide FoundAmong, PreferredFound, Position;
    var found := ConversationalLeaves(linked, order);
    NoneFound(linked, order, found);
    if |found| == 0 { return None; }
    var test := (each: Found) => PreferredFound(linked, each);
    var preferred := Filter(test, found);
    var candidates := if |preferred| > 0 then preferred else found;
    forall each ensures each in preferred <==> each in found && test(each) { FilterMember(test, found, each); }
    AllCandidates(linked, order, found);
    var latest := Latest(chain, candidates);
    LatestIsChosen(chain, linked, order, found, preferred, latest);
    leaf := Some(latest.leaf);
  }

  lemma {:induction false} NoneFound(linked: Records, order: seq<Token>, found: seq<Found>)
    requires FoundAmong(linked, order, found) && linked.Keys == set uuid | uuid in order
    ensures found == [] ==> forall uuid :: !Candidate(linked, uuid)
  {
    hide Nearest;
    if found == [] {
      forall uuid ensures !Candidate(linked, uuid) { assert uuid in linked ==> uuid in order; }
    }
  }

  lemma {:induction false} AllCandidates(linked: Records, order: seq<Token>, found: seq<Found>)
    requires FoundAmong(linked, order, found)
    ensures forall each :: each in found ==> Candidate(linked, each.leaf) && each.leaf in linked && Nearest(linked, each.leaf) == Some(each.conversational)
    ensures forall each :: each in found ==> (PreferredFound(linked, each) <==> Preferred(linked, each.leaf))
  {
    hide Nearest;
  }

  lemma {:induction false} LatestIsChosen(chain: seq<Record>, linked: Records, order: seq<Token>, found: seq<Found>, preferred: seq<Found>, latest: Found)
    requires TableOf(linked, chain) && linked.Keys == set uuid | uuid in order
    requires FoundAmong(linked, order, found)
    requires forall each :: each in preferred <==> each in found && PreferredFound(linked, each)
    requires var candidates := if |preferred| > 0 then preferred else found;
             latest in candidates && forall i :: 0 <= i < |candidates| ==> candidates[i].leaf in UuidSet(chain) && Position(chain, candidates[i].leaf) <= Position(chain, latest.leaf)
    ensures Chosen(chain, linked, latest.leaf)
  {
    hide Nearest, Position, PreferredFound;
    AllCandidates(linked, order, found);
    var candidates := if |preferred| > 0 then preferred else found;
    forall uuid | Candidate(linked, uuid) ensures exists each :: each in found && each.leaf == uuid {
      assert uuid in order;
      var i :| 0 <= i < |found| && found[i].leaf == uuid;
      assert found[i] in found;
    }
    hide FoundAmong, Candidate;
    if AnyPreferred(linked) {
      var uuid :| uuid in linked && Preferred(linked, uuid);
      var each :| each in found && each.leaf == uuid;
      assert each in preferred;
    }
    assert |preferred| > 0 ==> AnyPreferred(linked) by {
      if |preferred| > 0 { assert preferred[0] in preferred; }
    }
    forall other | Candidate(linked, other) && (AnyPreferred(linked) ==> Preferred(linked, other)) && other in UuidSet(chain)
      ensures Position(chain, other) <= Position(chain, latest.leaf)
    {
      var each :| each in found && each.leaf == other;
      assert each in candidates;
    }
  }

  lemma {:induction false} ParentsTold(linked: Records, order: seq<Token>, parents: set<Token>, uuid: Token)
    requires linked.Keys == (set u | u in order) && uuid in linked
    requires parents == set u | u in order && linked[u].parent.Some? :: linked[u].parent.value
    ensures uuid !in parents <==> Childless(linked, uuid)
  {
    forall child | child in linked && linked[child].parent == Some(uuid) ensures uuid in parents { assert child in order; }
  }

  // ---- windows ----

  /** Distinct uuids; a parent the file holds comes earlier in it; no compaction. */
  ghost predicate WellOrdered(chain: seq<Record>) {
    && Distinct(UuidsOf(chain))
    && (forall i, j :: 0 <= i < |chain| && 0 <= j < |chain| && chain[i].parent == Some(chain[j].uuid) ==> j < i)
    && (forall i :: 0 <= i < |chain| ==> !chain[i].kind.Boundary?)
  }

  lemma {:induction false} SuffixWellOrdered(chain: seq<Record>, k: nat)
    requires WellOrdered(chain) && k <= |chain|
    ensures WellOrdered(chain[k..])
  {
    forall i, j | 0 <= i < j < |chain[k..]| ensures UuidsOf(chain[k..])[i] != UuidsOf(chain[k..])[j] {
      assert UuidsOf(chain)[k + i] != UuidsOf(chain)[k + j];
    }
    assert forall i :: 0 <= i < |chain[k..]| ==> chain[k..][i] == chain[k + i];
  }

  /** Each uuid is where it is written. */
  lemma {:induction false} WrittenOnce(chain: seq<Record>, i: nat)
    requires WellOrdered(chain) && i < |chain|
    ensures chain[i].uuid in UuidSet(chain) && Position(chain, chain[i].uuid) == i && LastWins(chain)[chain[i].uuid] == chain[i]
  {
    hide WrittenBefore;
    InFile(chain, chain[i].uuid);
    var p := Position(chain, chain[i].uuid);
    assert UuidsOf(chain)[p] == UuidsOf(chain)[i];
  }

  /** Without a compaction, nothing is relinked. */
  lemma {:induction false} NothingRelinked(linked: Records, order: seq<Token>)
    requires AllIn(order, linked) && forall uuid :: uuid in linked ==> !linked[uuid].kind.Boundary?
    ensures Relinked(linked, order) == linked
    decreases |order|
  {
    if order != [] { NothingRelinked(linked, order[1..]); }
  }

  /** The last record of each uuid: a table of the file, as the walk takes it. */
  lemma {:induction false} TableOfLast(chain: seq<Record>)
    ensures TableOf(LastWins(chain), chain)
  {
    hide WrittenBefore;
    forall uuid | uuid in UuidSet(chain) ensures LastWins(chain)[uuid].uuid == uuid { InFile(chain, uuid); }
  }

  /** Where a record's parent is, among the earlier records. */
  function ParentIndex(chain: seq<Record>, i: nat): Option<nat>
    requires i < |chain|
  {
    match chain[i].parent case Some(uuid) => WrittenBefore(chain, uuid, i) case None => None
  }

  /** The path up by positions: they go down. */
  function PathOfIndices(chain: seq<Record>, i: nat): seq<nat>
    requires i < |chain|
  {
    [i] + match ParentIndex(chain, i) case Some(j) => PathOfIndices(chain, j) case None => []
  }

  ghost predicate Falling(path: seq<nat>, below: nat) {
    (forall m :: 0 <= m < |path| ==> path[m] < below) && forall m, n :: 0 <= m < n < |path| ==> path[n] < path[m]
  }

  function UuidsAt(chain: seq<Record>, path: seq<nat>): seq<Token>
    requires forall m :: 0 <= m < |path| ==> path[m] < |chain|
  {
    seq(|path|, m requires 0 <= m < |path| => chain[path[m]].uuid)
  }

  lemma {:induction false} PathOnceByIndex(chain: seq<Record>, i: nat)
    requires i < |chain|
    ensures var parent := ParentIndex(chain, i);
            && (parent.Some? ==> parent.value < i && PathOfIndices(chain, i) == [i] + PathOfIndices(chain, parent.value))
            && (parent.None? ==> PathOfIndices(chain, i) == [i])
  {}

  lemma {:induction false} PathFalls(chain: seq<Record>, i: nat)
    requires i < |chain|
    ensures Falling(PathOfIndices(chain, i), i + 1) && |PathOfIndices(chain, i)| > 0 && PathOfIndices(chain, i)[0] == i
    ensures Falling(PathOfIndices(chain, i), |chain|)
  {
    PathOnceByIndex(chain, i);
    var parent := ParentIndex(chain, i);
    hide PathOfIndices, ParentIndex;
    if parent.Some? { PathFalls(chain, parent.value); }
  }

  lemma {:induction false} UuidsCons(chain: seq<Record>, i: nat, rest: seq<nat>)
    requires i < |chain| && forall m :: 0 <= m < |rest| ==> rest[m] < |chain|
    ensures UuidsAt(chain, [i] + rest) == [chain[i].uuid] + UuidsAt(chain, rest)
  {}

  lemma {:induction false} ParentIs(chain: seq<Record>, i: nat)
    requires WellOrdered(chain) && i < |chain|
    ensures var parent := chain[i].parent;
            if parent.Some? && parent.value in UuidSet(chain)
            then ParentIndex(chain, i).Some? && chain[ParentIndex(chain, i).value].uuid == parent.value
            else ParentIndex(chain, i).None?
  {
    var parent := chain[i].parent;
    if parent.Some? && parent.value in UuidSet(chain) {
      var j :| 0 <= j < |chain| && chain[j].uuid == parent.value;
      assert j < i;
    }
  }

  /** The walk's path is the path of positions. */
  lemma {:induction false} PathByIndices(chain: seq<Record>, i: nat, passed: set<Token>)
    requires WellOrdered(chain) && i < |chain| && forall j :: 0 <= j <= i ==> chain[j].uuid !in passed
    ensures Falling(PathOfIndices(chain, i), |chain|)
    ensures PathUp(LastWins(chain), chain[i].uuid, passed) == UuidsAt(chain, PathOfIndices(chain, i))
  {
    var parent, next, linked := chain[i].parent, passed + {chain[i].uuid}, LastWins(chain);
    WrittenOnce(chain, i);
    PathFalls(chain, i);
    ParentIs(chain, i);
    PathOnce(linked, chain[i].uuid, passed);
    PathOnceByIndex(chain, i);
    NotYetPassed(chain, i, passed);
    hide PathUp, WrittenBefore, ParentIndex, PathOfIndices, UuidSet, LastWins, WellOrdered;
    var at := ParentIndex(chain, i);
    if at.Some? {
      PathByIndices(chain, at.value, next);
      UuidsCons(chain, i, PathOfIndices(chain, at.value));
    } else {
      if parent.Some? { Ended(linked, parent.value, next) by { NotThere(chain, parent.value); } }
      assert UuidsAt(chain, [i]) == [chain[i].uuid];
    }
  }

  lemma {:induction false} NotThere(chain: seq<Record>, uuid: Token)
    requires uuid !in UuidSet(chain)
    ensures uuid !in LastWins(chain)
  {}

  lemma {:induction false} NotYetPassed(chain: seq<Record>, i: nat, passed: set<Token>)
    requires WellOrdered(chain) && i < |chain| && forall j :: 0 <= j <= i ==> chain[j].uuid !in passed
    ensures forall j :: 0 <= j < i ==> chain[j].uuid !in passed + {chain[i].uuid}
  {
    forall j | 0 <= j < i ensures chain[j].uuid != chain[i].uuid { assert UuidsOf(chain)[j] != UuidsOf(chain)[i]; }
  }

  /** The parent inside a window of the file: the file's, if that lies in the window. */
  lemma {:induction false} ParentInWindow(chain: seq<Record>, k: nat, i: nat)
    requires WellOrdered(chain) && k <= i < |chain|
    ensures WellOrdered(chain[k..])
    ensures var inFile := ParentIndex(chain, i);
            ParentIndex(chain[k..], i - k) == if inFile.Some? && inFile.value >= k then Some(inFile.value - k) else None
  {
    var window := chain[k..];
    SuffixWellOrdered(chain, k);
    assert window[i - k] == chain[i];
    var parent := chain[i].parent;
    if parent.Some? {
      var inFile, inWindow := WrittenBefore(chain, parent.value, i), WrittenBefore(window, parent.value, i - k);
      hide WrittenBefore;
      assert forall j :: k <= j < i ==> window[j - k] == chain[j];
      if inWindow.Some? { assert window[inWindow.value] == chain[k + inWindow.value]; }
      if inFile.Some? && inFile.value >= k { assert window[inFile.value - k] == chain[inFile.value]; }
    }
  }

  /** One path is another's first part, `k` lower, and the rest of the other lies below `k`. */
  ghost predicate FirstPart(file: seq<nat>, window: seq<nat>, k: nat) {
    && |window| <= |file|
    && (forall m :: 0 <= m < |window| ==> file[m] == window[m] + k)
    && (forall m :: |window| <= m < |file| ==> file[m] < k)
  }

  /** A window's path is the file's path as far as it lies in the window. */
  lemma {:induction false} PathInWindow(chain: seq<Record>, k: nat, i: nat)
    requires WellOrdered(chain) && k <= i < |chain|
    ensures FirstPart(PathOfIndices(chain, i), PathOfIndices(chain[k..], i - k), k)
    decreases i
  {
    hide PathOfIndices, ParentIndex, WellOrdered;
    ParentInWindow(chain, k, i);
    PathOnceByIndex(chain, i);
    PathOnceByIndex(chain[k..], i - k);
    var inFile := ParentIndex(chain, i);
    if inFile.Some? {
      if inFile.value >= k { PathInWindow(chain, k, inFile.value); } else { PathFalls(chain, inFile.value); }
    }
  }

  /** The walk over a window is the part of the full walk inside it, and no more of the full walk is inside it. */
  lemma {:induction false} WindowWalkIsPart(chain: seq<Record>, k: nat, i: nat)
    requires WellOrdered(chain) && k <= i < |chain|
    ensures var file, window := PathUp(LastWins(chain), chain[i].uuid, {}), PathUp(LastWins(chain[k..]), chain[i].uuid, {});
            && 0 < |window| <= |file| && file[..|window|] == window
            && (forall m :: 0 <= m < |file| ==> file[m] in UuidSet(chain) && (m < |window| <==> k <= Position(chain, file[m])))
  {
    hide PathUp, WrittenBefore, PathOfIndices, Position;
    SuffixWellOrdered(chain, k);
    assert chain[k..][i - k] == chain[i];
    PathByIndices(chain, i, {});
    PathByIndices(chain[k..], i - k, {});
    PathInWindow(chain, k, i);
    PathFalls(chain, i);
    var file, window := PathOfIndices(chain, i), PathOfIndices(chain[k..], i - k);
    PathFalls(chain[k..], i - k);
    assert |window| > 0;
    forall m | 0 <= m < |file| ensures chain[file[m]].uuid in UuidSet(chain) && Position(chain, chain[file[m]].uuid) == file[m] {
      WrittenOnce(chain, file[m]);
    }
    forall m | 0 <= m < |window| ensures UuidsAt(chain, file)[m] == UuidsAt(chain[k..], window)[m] {
      assert chain[k..][window[m]] == chain[window[m] + k];
    }
  }

  /** The walk stopped at a parent the records lack. */
  ghost predicate Truncated(chain: seq<Record>, walk: seq<Token>)
    requires walk != [] && walk[|walk| - 1] in UuidSet(chain)
  {
    var parent := LastWins(chain)[walk[|walk| - 1]].parent;
    parent.Some? && parent.value !in UuidSet(chain)
  }

  lemma {:induction false} LastOfPath(chain: seq<Record>, i: nat)
    requires WellOrdered(chain) && i < |chain|
    ensures var path, walk := PathOfIndices(chain, i), PathUp(LastWins(chain), chain[i].uuid, {});
            && |path| > 0 && path[|path| - 1] < |chain| && |walk| == |path| && walk[|walk| - 1] == chain[path[|path| - 1]].uuid
            && walk[|walk| - 1] in UuidSet(chain) && LastWins(chain)[walk[|walk| - 1]] == chain[path[|path| - 1]]
  {
    hide PathUp, WrittenBefore, PathOfIndices;
    PathByIndices(chain, i, {});
    PathFalls(chain, i);
    var path := PathOfIndices(chain, i);
    WrittenOnce(chain, path[|path| - 1]);
  }

  /** The window's path is all of the file's exactly when the file holds no parent of its last record. */
  lemma {:induction false} WholePath(chain: seq<Record>, k: nat, i: nat)
    requires WellOrdered(chain) && k <= i < |chain|
    ensures var file, window := PathOfIndices(chain, i), PathOfIndices(chain[k..], i - k);
            && 0 < |window| <= |file| && window[|window| - 1] < |chain| - k
            && var parent := chain[k..][window[|window| - 1]].parent;
               && (|window| == |file| <==> parent.None? || parent.value !in UuidSet(chain))
               && (parent.Some? ==> parent.value !in UuidSet(chain[k..]))
  {
    hide PathOfIndices, ParentIndex, UuidSet, WellOrdered;
    SuffixWellOrdered(chain, k);
    PathInWindow(chain, k, i);
    PathFalls(chain[k..], i - k);
    var file, window := PathOfIndices(chain, i), PathOfIndices(chain[k..], i - k);
    var last := window[|window| - 1];
    assert chain[k..][last] == chain[last + k] && file[|window| - 1] == last + k;
    LastEnds(chain, i);
    LastEnds(chain[k..], i - k);
    ParentIs(chain[k..], last);
    ParentIs(chain, last + k);
    var m := |window| - 1;
    assert m < |file| - 1 ==> ParentIndex(chain, file[m]) == Some(file[m + 1]);
    assert m == |file| - 1 ==> ParentIndex(chain, file[m]).None?;
  }

  /** The window's walk is the file's unless it is truncated, and then exactly when it is truncated in the file too. */
  ghost predicate WholeUnlessTruncated(chain: seq<Record>, suffix: seq<Record>, file: seq<Token>, window: seq<Token>) {
    && window != [] && window[|window| - 1] in UuidSet(suffix) && window[|window| - 1] in UuidSet(chain)
    && (!Truncated(suffix, window) ==> window == file)
    && (Truncated(suffix, window) ==> (window == file <==> Truncated(chain, window)))
  }

  lemma {:induction false} NotTruncatedIsWhole(chain: seq<Record>, k: nat, i: nat)
    requires WellOrdered(chain) && k <= i < |chain|
    ensures WholeUnlessTruncated(chain, chain[k..], PathUp(LastWins(chain), chain[i].uuid, {}), PathUp(LastWins(chain[k..]), chain[i].uuid, {}))
  {
    hide PathUp, WrittenBefore, Position, PathOfIndices, LastWins, UuidSet;
    SuffixWellOrdered(chain, k);
    WholePath(chain, k, i);
    LastOfPath(chain[k..], i - k);
    LastOfPath(chain, i);
    WindowWalkIsPart(chain, k, i);
    var window := PathOfIndices(chain[k..], i - k);
    var last := window[|window| - 1];
    assert chain[k..][last] == chain[last + k] && chain[k..][i - k] == chain[i];
    WrittenOnce(chain, last + k);
    var walk, all := PathUp(LastWins(chain[k..]), chain[i].uuid, {}), PathUp(LastWins(chain), chain[i].uuid, {});
    assert walk == all <==> |walk| == |all| by { assert all[..|all|] == all; }
    assert |walk| == |window| && |all| == |PathOfIndices(chain, i)|;
    assert walk[|walk| - 1] == chain[last + k].uuid;
    assert Truncated(chain[k..], walk) <==> chain[last + k].parent.Some?;
    assert Truncated(chain, walk) <==> chain[last + k].parent.Some? && chain[last + k].parent.value !in UuidSet(chain);
  }

  /** A path ends at a record whose parent is not there; it goes on past any other. */
  lemma {:induction false} LastEnds(chain: seq<Record>, i: nat)
    requires i < |chain|
    ensures var path := PathOfIndices(chain, i);
            && |path| > 0 && path[|path| - 1] < |chain| && ParentIndex(chain, path[|path| - 1]).None?
            && forall m :: 0 <= m < |path| - 1 ==> path[m] < |chain| && ParentIndex(chain, path[m]) == Some(path[m + 1])
  {
    PathOnceByIndex(chain, i);
    hide PathOfIndices, ParentIndex;
    if ParentIndex(chain, i).Some? {
      LastEnds(chain, ParentIndex(chain, i).value);
      PathFalls(chain, ParentIndex(chain, i).value);
    }
  }

  // ---- the same leaf ----

  lemma {:induction false} IsWritten(chain: seq<Record>, uuid: Token)
    requires WellOrdered(chain) && uuid in UuidSet(chain)
    ensures var i := Position(chain, uuid); i < |chain| && chain[i].uuid == uuid && LastWins(chain)[uuid] == chain[i]
  {
    hide WrittenBefore;
    InFile(chain, uuid);
  }

  /** A record of the window is the file's. */
  lemma {:induction false} InBoth(chain: seq<Record>, k: nat, uuid: Token)
    requires WellOrdered(chain) && k <= |chain| && uuid in UuidSet(chain[k..])
    ensures WellOrdered(chain[k..]) && uuid in UuidSet(chain) && Position(chain, uuid) == k + Position(chain[k..], uuid)
    ensures LastWins(chain[k..])[uuid] == LastWins(chain)[uuid]
  {
    hide WrittenBefore, Position, LastWins;
    SuffixWellOrdered(chain, k);
    IsWritten(chain[k..], uuid);
    var i := Position(chain[k..], uuid);
    assert chain[k..][i] == chain[k + i];
    WrittenOnce(chain, k + i);
    WrittenOnce(chain[k..], i);
  }

  lemma {:induction false} ChildlessInBoth(chain: seq<Record>, k: nat, uuid: Token)
    requires WellOrdered(chain) && k <= |chain| && uuid in UuidSet(chain[k..])
    ensures Childless(LastWins(chain[k..]), uuid) <==> Childless(LastWins(chain), uuid)
  {
    hide WrittenBefore, Position;
    var file, window := LastWins(chain), LastWins(chain[k..]);
    InBoth(chain, k, uuid);
    IsWritten(chain, uuid);
    forall child | child in window ensures child in file && window[child] == file[child] { InBoth(chain, k, child); }
    forall child | child in file && file[child].parent == Some(uuid) ensures child in window && window[child] == file[child] {
      IsWritten(chain, child);
      var j := Position(chain, child);
      assert Position(chain, uuid) < j;
      assert chain[k..][j - k] == chain[j];
      WrittenOnce(chain[k..], j - k);
    }
  }

  lemma {:induction false} FirstOfBoth(linked: Records, a: seq<Token>, b: seq<Token>)
    ensures FirstConversational(linked, a + b) == if FirstConversational(linked, a).Some? then FirstConversational(linked, a) else FirstConversational(linked, b)
    decreases |a|
  {
    if a == [] {
      assert a + b == b;
    } else {
      assert (a + b)[1..] == a[1..] + b;
      FirstOfBoth(linked, a[1..], b);
    }
  }

  lemma {:induction false} FirstIsIn(linked: Records, path: seq<Token>)
    ensures var first := FirstConversational(linked, path);
            first.Some? ==> first.value in linked && exists m :: 0 <= m < |path| && path[m] == first.value
    decreases |path|
  {
    if path != [] {
      FirstIsIn(linked, path[1..]);
      var first := FirstConversational(linked, path[1..]);
      if first.Some? {
        var m :| 0 <= m < |path| - 1 && path[1..][m] == first.value;
        assert path[m + 1] == first.value;
      }
    }
  }

  /** The conversational record is the first user or assistant record of the path, if it has one. */
  lemma {:induction false} FirstSpeaks(linked: Records, path: seq<Token>)
    ensures match FirstConversational(linked, path)
            case Some(uuid) =>
              exists n :: 0 <= n < |path| && path[n] == uuid && uuid in linked && (linked[uuid].kind.User? || linked[uuid].kind.Assistant?)
                          && forall m :: 0 <= m < n && path[m] in linked ==> !linked[path[m]].kind.User? && !linked[path[m]].kind.Assistant?
            case None => forall m :: 0 <= m < |path| && path[m] in linked ==> !linked[path[m]].kind.User? && !linked[path[m]].kind.Assistant?
    decreases |path|
  {
    if path != [] {
      FirstSpeaks(linked, path[1..]);
      var first := FirstConversational(linked, path[1..]);
      if path[0] in linked && (linked[path[0]].kind.User? || linked[path[0]].kind.Assistant?) {
        assert path[0] == path[0];
      } else if first.Some? {
        var n :| 0 <= n < |path| - 1 && path[1..][n] == first.value
                 && forall m :: 0 <= m < n && path[1..][m] in linked ==> !linked[path[1..][m]].kind.User? && !linked[path[1..][m]].kind.Assistant?;
        assert path[n + 1] == first.value;
        assert forall m :: 0 < m < n + 1 ==> path[m] == path[1..][m - 1];
      } else {
        assert forall m :: 0 < m < |path| ==> path[m] == path[1..][m - 1];
      }
    }
  }

  /**
   * Against any other candidate the chosen leaf's conversation is of the main thread (no sidechain's, no team's and no meta
   * record) if the other's is, and of two alike the leaf is the one written later.
   */
  lemma {:induction false} LeafPreferred(chain: seq<Record>, linked: Records, leaf: Token, other: Token)
    requires Chosen(chain, linked, leaf) && Candidate(linked, other) && other in UuidSet(chain)
    ensures Nearest(linked, leaf).Some? && Nearest(linked, leaf).value in linked && Nearest(linked, other).Some? && Nearest(linked, other).value in linked
    ensures var mine, its := linked[Nearest(linked, leaf).value], linked[Nearest(linked, other).value];
            && (!its.isSidechain && !its.inTeam && !its.isMeta ==> !mine.isSidechain && !mine.inTeam && !mine.isMeta)
            && ((its.isSidechain || its.inTeam || its.isMeta) == (mine.isSidechain || mine.inTeam || mine.isMeta) ==>
                  Position(chain, other) <= Position(chain, leaf))
  {
    hide PathUp, FirstConversational, Position;
    FirstIsIn(linked, PathUp(linked, leaf, {}));
    FirstIsIn(linked, PathUp(linked, other, {}));
    assert Preferred(linked, other) ==> AnyPreferred(linked);
  }

  lemma {:induction false} SameFirst(a: Records, b: Records, path: seq<Token>)
    requires forall m :: 0 <= m < |path| ==> path[m] in a && path[m] in b && a[path[m]] == b[path[m]]
    ensures FirstConversational(a, path) == FirstConversational(b, path)
    decreases |path|
  {
    if path != [] { SameFirst(a, b, path[1..]); }
  }

  /** What a window finds above a record is what the file finds; what the file finds in the window, the window finds. */
  lemma {:induction false} NearestInBoth(chain: seq<Record>, k: nat, uuid: Token)
    requires WellOrdered(chain) && k <= |chain| && uuid in UuidSet(chain[k..])
    ensures var inFile, inWindow := Nearest(LastWins(chain), uuid), Nearest(LastWins(chain[k..]), uuid);
            && (inWindow.Some? ==> inFile == inWindow && inWindow.value in UuidSet(chain[k..]))
            && (inFile.Some? ==> inFile.value in UuidSet(chain))
            && (inFile.Some? && k <= Position(chain, inFile.value) ==> inWindow == inFile)
  {
    hide PathUp, WrittenBefore, Position, LastWins, FirstConversational;
    InBoth(chain, k, uuid);
    IsWritten(chain, uuid);
    IsWritten(chain[k..], uuid);
    var i := Position(chain, uuid);
    WindowWalkIsPart(chain, k, i);
    var all, part := PathUp(LastWins(chain), uuid, {}), PathUp(LastWins(chain[k..]), uuid, {});
    var rest := all[|part|..];
    assert all == part + rest;
    FirstOfBoth(LastWins(chain), part, rest);
    PartIsInWindow(chain, k, i);
    forall m | 0 <= m < |part| ensures part[m] in LastWins(chain) && part[m] in LastWins(chain[k..]) && LastWins(chain)[part[m]] == LastWins(chain[k..])[part[m]] {
      InBoth(chain, k, part[m]);
      KeysAre(chain);
      KeysAre(chain[k..]);
    }
    SameFirst(LastWins(chain), LastWins(chain[k..]), part);
    FirstIsIn(LastWins(chain[k..]), part);
    FirstIsIn(LastWins(chain), rest);
    FirstIsIn(LastWins(chain), all);
    assert forall m :: 0 <= m < |rest| ==> rest[m] == all[|part| + m];
  }

  lemma {:induction false} KeysAre(chain: seq<Record>)
    ensures LastWins(chain).Keys == UuidSet(chain)
  {}

  lemma {:induction false} PartIsInWindow(chain: seq<Record>, k: nat, i: nat)
    requires WellOrdered(chain) && k <= i < |chain|
    ensures var part := PathUp(LastWins(chain[k..]), chain[i].uuid, {}); forall m :: 0 <= m < |part| ==> part[m] in UuidSet(chain[k..])
  {
    hide PathUp, WrittenBefore, PathOfIndices, UuidSet, LastWins;
    SuffixWellOrdered(chain, k);
    assert chain[k..][i - k] == chain[i];
    PathByIndices(chain[k..], i - k, {}) by { NonePassed(chain[k..]); }
    var path := PathOfIndices(chain[k..], i - k);
    forall m | 0 <= m < |path| ensures UuidsAt(chain[k..], path)[m] in UuidSet(chain[k..]) { WrittenOnce(chain[k..], path[m]); }
  }

  lemma {:induction false} NonePassed(chain: seq<Record>)
    ensures forall j :: 0 <= j < |chain| ==> chain[j].uuid !in {}
  {}

  /** The conversational record of a leaf lies in the window. */
  ghost predicate FoundIn(chain: seq<Record>, k: nat, uuid: Token) {
    var nearest := Nearest(LastWins(chain), uuid);
    nearest.Some? && nearest.value in UuidSet(chain) && k <= Position(chain, nearest.value)
  }

  lemma {:induction false} CandidateInBoth(chain: seq<Record>, k: nat, uuid: Token)
    requires WellOrdered(chain) && k <= |chain| && uuid in UuidSet(chain[k..])
    ensures Candidate(LastWins(chain[k..]), uuid) ==> Candidate(LastWins(chain), uuid)
    ensures Preferred(LastWins(chain[k..]), uuid) ==> Preferred(LastWins(chain), uuid)
    ensures Candidate(LastWins(chain[k..]), uuid) && Preferred(LastWins(chain), uuid) ==> Preferred(LastWins(chain[k..]), uuid)
    ensures Candidate(LastWins(chain), uuid) && FoundIn(chain, k, uuid) ==> Candidate(LastWins(chain[k..]), uuid)
  {
    ChildlessInBoth(chain, k, uuid);
    NearestInBoth(chain, k, uuid);
    hide Childless, Nearest, Position, LastWins, UuidSet;
    KeysAre(chain);
    KeysAre(chain[k..]);
    var inWindow := Nearest(LastWins(chain[k..]), uuid);
    if inWindow.Some? { InBoth(chain, k, inWindow.value); }
  }

  /**
   * A suffix of the file that holds the leaf and its conversational record has the same leaf: and no other, as there is
   * one at most.
   */
  lemma {:induction false} SameLeaf(chain: seq<Record>, k: nat, leaf: Token)
    requires WellOrdered(chain) && k <= |chain| && Chosen(chain, LastWins(chain), leaf)
    requires k <= Position(chain, leaf) && FoundIn(chain, k, leaf)
    ensures Chosen(chain[k..], LastWins(chain[k..]), leaf)
    ensures forall other :: Chosen(chain[k..], LastWins(chain[k..]), other) ==> other == leaf
  {
    hide Candidate, Preferred, Nearest, LastWins, Position;
    var window := chain[k..];
    SuffixWellOrdered(chain, k);
    KeysAre(window);
    IsWritten(chain, leaf);
    assert window[Position(chain, leaf) - k] == chain[Position(chain, leaf)];
    assert leaf in UuidSet(window);
    CandidateInBoth(chain, k, leaf);
    InBoth(chain, k, leaf);
    if AnyPreferred(LastWins(window)) {
      var uuid :| uuid in LastWins(window) && Preferred(LastWins(window), uuid);
      CandidateInBoth(chain, k, uuid);
      InBoth(chain, k, uuid);
      KeysAre(chain);
    }
    forall other | Candidate(LastWins(window), other) && (AnyPreferred(LastWins(window)) ==> Preferred(LastWins(window), other)) && other in UuidSet(window)
      ensures Position(window, other) <= Position(window, leaf)
    {
      CandidateInBoth(chain, k, other);
      InBoth(chain, k, other);
    }
    forall other | Chosen(window, LastWins(window), other) ensures other == leaf {
      IsWritten(window, other);
      IsWritten(window, leaf);
    }
  }
}
