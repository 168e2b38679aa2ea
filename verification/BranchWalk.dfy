/**
 * The walk that selects the current branch (src/claude/native/history.ts 150-241): from the leaf up the parents, past
 * a compaction through the records as written. It ends on any graph, with cycles and repeated uuids.
 */
module BranchWalk {
  import opened Basics
  import opened Relink

  // ---- the records, by uuid and as written ----

  function UuidSet(chain: seq<Record>): set<Token> {
    set i | 0 <= i < |chain| :: chain[i].uuid
  }

  /** The last occurrence of a uuid before `limit`. */
  function WrittenBefore(chain: seq<Record>, uuid: Token, limit: nat): (r: Option<nat>)
    requires limit <= |chain|
    ensures r.Some? ==> r.value < limit && chain[r.value].uuid == uuid && forall i :: r.value < i < limit ==> chain[i].uuid != uuid
    ensures r.None? ==> forall i :: 0 <= i < limit ==> chain[i].uuid != uuid
  {
    if limit == 0 then None
    else if chain[limit - 1].uuid == uuid then Some(limit - 1)
    else WrittenBefore(chain, uuid, limit - 1)
  }

  function Position(chain: seq<Record>, uuid: Token): nat
    requires uuid in UuidSet(chain)
  {
    WrittenBefore(chain, uuid, |chain|).value
  }

  function LastWins(chain: seq<Record>): Records {
    map uuid | uuid in UuidSet(chain) :: chain[Position(chain, uuid)]
  }

  /** A table of all the chain's uuids. */
  ghost predicate TableOf(linked: Records, chain: seq<Record>) {
    linked.Keys == UuidSet(chain) && forall uuid :: uuid in linked ==> linked[uuid].uuid == uuid
  }

  // ---- up the parents ----

  /** The records up the parents, as far as one that is missing or was passed. */
  function PathUp(linked: Records, uuid: Token, passed: set<Token>): seq<Token>
    decreases |linked.Keys - passed|
  {
    if uuid in passed || uuid !in linked then []
    else
      assert linked.Keys - (passed + {uuid}) < linked.Keys - passed by { assert uuid in linked.Keys - passed; }
      Shrinks(linked.Keys - (passed + {uuid}), linked.Keys - passed);
      [uuid] + match linked[uuid].parent case Some(parent) => PathUp(linked, parent, passed + {uuid}) case None => []
  }

  lemma {:induction false} Shrinks<T>(a: set<T>, b: set<T>)
    requires a < b
    ensures |a| < |b|
  {
    var rest := b - a;
    assert b == a + rest && rest != {};
    assert |b| == |a| + |rest|;
  }

  predicate Conversational(record: Record) { record.kind.User? || record.kind.Assistant? }

  /** The nearest user or assistant record up a path. */
  function FirstConversational(linked: Records, path: seq<Token>): Option<Token> {
    if path == [] then None
    else if path[0] in linked && Conversational(linked[path[0]]) then Some(path[0])
    else FirstConversational(linked, path[1..])
  }

  // ---- the walk ----

  /** Where the walk is: at a record of the table, or at one as written. */
  datatype Cursor = Linked(uuid: Token) | Written(index: nat)

  ghost predicate CursorIn(cursor: Option<Cursor>, chain: seq<Record>, linked: Records, physical: bool) {
    match cursor
    case Some(Linked(uuid)) => uuid in linked && !physical
    case Some(Written(index)) => index < |chain| && physical
    case None => true
  }

  function RecordAt(chain: seq<Record>, linked: Records, cursor: Cursor): Record
    requires CursorIn(Some(cursor), chain, linked, cursor.Written?)
  {
    match cursor case Linked(uuid) => linked[uuid] case Written(index) => chain[index]
  }

  function WrittenCursor(chain: seq<Record>, uuid: Option<Token>, limit: nat): Option<Cursor>
    requires limit <= |chain|
  {
    match uuid
    case None => None
    case Some(uuid) => match WrittenBefore(chain, uuid, limit) case Some(i) => Some(Written(i)) case None => None
  }

  function LinkedCursor(linked: Records, uuid: Option<Token>): Option<Cursor> {
    if uuid.Some? && uuid.value in linked then Some(Linked(uuid.value)) else None
  }

  predicate Jumps(record: Record) { record.kind.Boundary? && record.kind.logicalParent.Some? }

  function UuidsOf(records: seq<Record>): seq<Token> {
    seq(|records|, i requires 0 <= i < |records| => records[i].uuid)
  }

  /** Each record's parent comes next, up to the first compaction that goes on elsewhere. */
  ghost predicate FollowsParents(linked: Records, walk: seq<Record>, until: nat) {
    && until <= |walk|
    && (forall k :: 0 <= k < until ==> walk[k].uuid in linked && walk[k] == linked[walk[k].uuid])
    && (forall k :: 0 <= k < until - 1 ==> !Jumps(walk[k]) && walk[k].parent == Some(walk[k + 1].uuid))
  }

  // ---- past a compaction ----

  /** Where the walk goes on from a record. */
  function Onward(record: Record): Option<Token> {
    if Jumps(record) then record.kind.logicalParent else record.parent
  }

  /** Records as written are read before the last compaction passed that goes on elsewhere: before its last occurrence. */
  function LimitAfter(chain: seq<Record>, walk: seq<Record>): (r: nat)
    ensures r <= |chain|
  {
    if walk == [] then |chain|
    else
      var last := walk[|walk| - 1];
      match if Jumps(last) then WrittenBefore(chain, last.uuid, |chain|) else None
      case Some(i) => i
      case None => LimitAfter(chain, walk[..|walk| - 1])
  }

  /** The last occurrence of a uuid before `limit`, or of the parent of that, and so on up. */
  function WrittenUp(chain: seq<Record>, uuid: Option<Token>, limit: nat, steps: nat): (r: Option<nat>)
    requires limit <= |chain|
    ensures r.Some? ==> r.value < limit
  {
    var from := if steps == 0 then uuid
                else match WrittenUp(chain, uuid, limit, steps - 1) case Some(i) => chain[i].parent case None => None;
    match from case Some(u) => WrittenBefore(chain, u, limit) case None => None
  }

  /** Where the walk comes to from its last record, so many steps on. */
  function StepAt(chain: seq<Record>, walk: seq<Record>, steps: nat): Option<nat>
    requires walk != []
  {
    WrittenUp(chain, Onward(walk[|walk| - 1]), LimitAfter(chain, walk), steps)
  }

  /** The steps that the walk passes over, as their uuids are in it. */
  ghost predicate PassesOver(chain: seq<Record>, walk: seq<Record>, steps: nat)
    requires walk != []
  {
    forall m: nat :: m < steps ==> var at := StepAt(chain, walk, m); at.Some? && at.value < |chain| && chain[at.value].uuid in UuidSet(walk)
  }

  ghost predicate PassedFrom(chain: seq<Record>, walk: seq<Record>, i: nat)
    requires walk != []
  {
    exists m: nat :: StepAt(chain, walk, m) == Some(i) && PassesOver(chain, walk, m + 1)
  }

  /** A record was passed over before: in the first steps on from the walk, or on from its first `start` records or more. */
  ghost predicate Passed(chain: seq<Record>, walk: seq<Record>, start: nat, steps: nat, i: nat)
    requires walk != []
  {
    || (exists m: nat :: m < steps && StepAt(chain, walk, m) == Some(i))
    || exists k: nat :: 0 < k && start <= k < |walk| && PassedFrom(chain, walk[..k], i)
  }

  /** So many steps on the walk comes to `at`, past records whose uuids it holds, each passed over for the first time. */
  ghost predicate Reads(chain: seq<Record>, walk: seq<Record>, start: nat, at: Option<nat>, steps: nat)
    requires walk != []
  {
    && at == StepAt(chain, walk, steps) && PassesOver(chain, walk, steps)
    && forall m: nat, i: nat :: m < steps && StepAt(chain, walk, m) == Some(i) ==> !Passed(chain, walk, start, m, i)
  }

  ghost predicate ReadsNext(chain: seq<Record>, walk: seq<Record>, start: nat, at: Option<nat>)
    requires walk != []
  {
    exists steps: nat :: Reads(chain, walk, start, at, steps)
  }

  /** The record after the first ones of the walk is the first one as written whose uuid is not among them. */
  ghost predicate NextWritten(chain: seq<Record>, walk: seq<Record>, start: nat, k: nat)
    requires 0 < k < |walk|
  {
    walk[k].uuid !in UuidSet(walk[..k]) && exists i: nat :: i < |chain| && walk[k] == chain[i] && ReadsNext(chain, walk[..k], start, Some(i))
  }

  ghost predicate AsWritten(chain: seq<Record>, walk: seq<Record>, start: nat) {
    forall k: nat :: 0 < k && start <= k < |walk| ==> NextWritten(chain, walk, start, k)
  }

  /** The walk went past the compaction at `b`, and read what came after it as written. */
  ghost predicate JumpsAt(chain: seq<Record>, linked: Records, walk: seq<Record>, from: Token, b: nat) {
    && b < |walk| && walk[b].uuid == from && Jumps(walk[b])
    && FollowsParents(linked, walk, b + 1)
    && AsWritten(chain, walk, b + 1)
  }

  /** The walk was as written from the leaf's last occurrence on. */
  ghost predicate WrittenFrom(chain: seq<Record>, walk: seq<Record>, leaf: Token) {
    && AsWritten(chain, walk, 1)
    && (walk != [] ==> var at := WrittenBefore(chain, leaf, |chain|); at.Some? && walk[0] == chain[at.value])
  }

  /** As written, nothing comes next, or a record the walk passed over before. */
  ghost predicate StopsWritten(chain: seq<Record>, walk: seq<Record>, start: nat)
    requires walk != []
  {
    exists at: Option<nat>, steps: nat :: Reads(chain, walk, start, at, steps) && (at.Some? ==> Passed(chain, walk, start, steps, at.value))
  }

  /** The path up the parents, as far as one that is missing or in it already; none of it a compaction to go past. */
  ghost predicate EndedPath(linked: Records, leaf: Token, walk: seq<Record>) {
    && walk != [] && walk[0].uuid == leaf && FollowsParents(linked, walk, |walk|) && Distinct(UuidsOf(walk))
    && var end := walk[|walk| - 1];
       && !Jumps(end) && (end.parent.None? || end.parent.value !in linked || end.parent.value in UuidSet(walk))
  }

  /** No uuid twice, all of the table's. */
  ghost predicate Selected(linked: Records, walk: seq<Record>, selected: set<Token>) {
    selected == UuidSet(walk) && selected <= linked.Keys && Distinct(UuidsOf(walk))
  }

  /** What the walk from the leaf gives. */
  ghost predicate Walked(chain: seq<Record>, linked: Records, leaf: Token, physical: bool, walk: seq<Record>, physicalFrom: Option<Token>) {
    && Selected(linked, walk, UuidSet(walk)) && walk != [] && walk[0].uuid == leaf
    && (physical ==> physicalFrom.None? && WrittenFrom(chain, walk, leaf) && StopsWritten(chain, walk, 1))
    && (!physical && physicalFrom.Some? ==> exists b: nat :: JumpsAt(chain, linked, walk, physicalFrom.value, b) && StopsWritten(chain, walk, b + 1))
    && (!physical && physicalFrom.None? ==> EndedPath(linked, leaf, walk) && UuidsOf(walk) == PathUp(linked, leaf, {}))
  }

  /** The walk among the relinked records, and where its cursor is. */
  ghost predicate Walking(linked: Records, leaf: Token, walk: seq<Record>, cursor: Option<Cursor>) {
    && FollowsParents(linked, walk, |walk|)
    && if walk == [] then cursor == Some(Linked(leaf))
       else walk[0].uuid == leaf && !Jumps(walk[|walk| - 1]) && cursor == LinkedCursor(linked, walk[|walk| - 1].parent)
  }

  /** Since which record the walk is as written, how many steps its cursor is on from its last record, and what it passed over. */
  datatype Reading = Reading(start: nat, steps: nat, seen: set<nat>)

  /** The walk among the records as written, and where its cursor is. */
  ghost predicate WalkingWritten(chain: seq<Record>, linked: Records, leaf: Token, walk: seq<Record>, physical: bool, from: Option<Token>, cursor: Option<Cursor>, w: Reading) {
    && (physical ==> w.start == 1 && from.None? && WrittenFrom(chain, walk, leaf))
    && (!physical ==> from.Some? && walk != [] && w.start > 0 && JumpsAt(chain, linked, walk, from.value, w.start - 1))
    && (cursor.Some? ==> cursor.value.Written?)
    && if walk == [] then cursor == WrittenCursor(chain, Some(leaf), |chain|) && cursor.Some? && w.steps == 0 && w.seen == {}
       else
         && walk[0].uuid == leaf && Reads(chain, walk, w.start, IndexOf(cursor), w.steps)
         && forall i: nat :: i in w.seen <==> Passed(chain, walk, w.start, w.steps, i)
  }

  function IndexOf(cursor: Option<Cursor>): Option<nat> {
    match cursor case Some(Written(index)) => Some(index) case _ => None
  }

  lemma {:induction false} OneSelected(linked: Records, walk: seq<Record>, selected: set<Token>, record: Record)
    requires Selected(linked, walk, selected) && record.uuid in linked && record.uuid !in selected
    ensures Selected(linked, walk + [record], selected + {record.uuid})
    ensures |selected| < |selected + {record.uuid}| <= |linked.Keys|
  {
    var longer := walk + [record];
    assert forall i :: 0 <= i < |walk| ==> longer[i] == walk[i];
    assert longer[|walk|] == record;
    forall uuid | uuid in UuidSet(longer) ensures uuid in selected + {record.uuid} {
      var i :| 0 <= i < |longer| && longer[i].uuid == uuid;
    }
    assert UuidSet(longer) == selected + {record.uuid};
    assert UuidsOf(longer) == UuidsOf(walk) + [record.uuid];
    forall i | 0 <= i < |walk| ensures UuidsOf(walk)[i] != record.uuid { assert walk[i].uuid in UuidSet(walk); }
    AtMost(selected + {record.uuid}, linked.Keys);
  }

  lemma {:induction false} AtMost<T>(a: set<T>, b: set<T>)
    requires a <= b
    ensures |a| <= |b|
  {
    if a != b { Shrinks(a, b); }
  }

  function Indices(n: nat): (r: set<nat>)
    ensures |r| == n && forall i :: i in r <==> 0 <= i < n
  {
    if n == 0 then {} else Indices(n - 1) + {n - 1}
  }

  lemma {:induction false} OneSeen(chain: seq<Record>, seen: set<nat>, i: nat)
    requires seen <= Indices(|chain|) && i < |chain| && i !in seen
    ensures |seen| < |seen + {i}| <= |chain| && seen + {i} <= Indices(|chain|)
  {
    AtMost(seen + {i}, Indices(|chain|));
  }

  /** A walk among the relinked records that ended is the path up the parents. */
  lemma {:induction false} WalkIsPath(linked: Records, walk: seq<Record>, k: nat)
    requires k < |walk| && EndedPath(linked, walk[0].uuid, walk)
    ensures PathUp(linked, walk[k].uuid, UuidSet(walk[..k])) == UuidsOf(walk[k..])
    decreases |walk| - k
  {
    var uuid, passed := walk[k].uuid, UuidSet(walk[..k]);
    forall i | 0 <= i < k ensures walk[i].uuid != uuid { assert UuidsOf(walk)[i] != UuidsOf(walk)[k]; }
    assert uuid !in passed;
    assert UuidSet(walk[..k + 1]) == passed + {uuid} by {
      assert walk[..k + 1] == walk[..k] + [walk[k]];
      forall i | 0 <= i <= k ensures walk[i].uuid in passed + {uuid} {
        if i < k { assert walk[..k][i] == walk[i]; }
      }
      forall u | u in passed + {uuid} ensures u in UuidSet(walk[..k + 1]) {
        if u == uuid { assert walk[..k + 1][k].uuid == u; }
        else { var i :| 0 <= i < k && walk[..k][i].uuid == u; assert walk[..k + 1][i].uuid == u; }
      }
    }
    assert linked[uuid] == walk[k];
    if k == |walk| - 1 {
      assert walk[..k + 1] == walk;
      assert UuidsOf(walk[k..]) == [uuid];
    } else {
      WalkIsPath(linked, walk, k + 1);
      assert UuidsOf(walk[k..]) == [uuid] + UuidsOf(walk[k + 1..]);
    }
  }

  /**
   * The walk from the leaf. It ends and selects no uuid twice. It follows the parents of the relinked records until the
   * first compaction with a logical parent: when there is none, it is the path up the parents. From there on, or from the
   * leaf when that lies past a compaction itself, each next record is the last occurrence of its parent's uuid (of a
   * compaction's logical parent's) before the last such compaction, or if that uuid was selected the first one up from
   * there that was not; it ends where there is none, or at a selected one it passed over before.
   */
  method Walk(chain: seq<Record>, linked: Records, leaf: Token, physical: bool)
    returns (walk: seq<Record>, physicalFrom: Option<Token>, missing: Option<Token>)
    requires TableOf(linked, chain) && leaf in linked
    ensures walk != [] && Walked(chain, linked, leaf, physical, walk, physicalFrom) && missing == Onward(walk[|walk| - 1])
    ensures (forall uuid :: uuid in linked ==> !Jumps(linked[uuid])) ==> physical || physicalFrom.None?
  {
    hide *;
    walk, physicalFrom, missing := [], None, None;
    var selected: set<Token> := {};
    var physicalWalk := physical;
    var limit: nat := |chain|;
    var cursor := if physical then WrittenCursor(chain, Some(leaf), limit) else Some(Linked(leaf));
    var seen: set<nat> := {};
    ghost var w := Reading(1, 0, {});
    Starts(chain, linked, leaf, physical, cursor);
    while cursor.Some?
      invariant limit <= |chain| && CursorIn(cursor, chain, linked, physicalWalk)
      invariant Selected(linked, walk, selected)
      invariant |selected| <= |linked.Keys| && |seen| <= |chain| && seen <= Indices(|chain|)
      invariant physical ==> physicalWalk
      invariant walk != [] ==> missing == Onward(walk[|walk| - 1])
      invariant !physicalWalk ==> physicalFrom.None? && Walking(linked, leaf, walk, cursor)
      invariant physicalWalk ==> WalkingWritten(chain, linked, leaf, walk, physical, physicalFrom, cursor, w) && limit == LimitAfter(chain, walk)
      invariant w.seen == seen && (!physicalWalk ==> seen == {})
      invariant physicalFrom.Some? ==> exists uuid :: uuid in linked && Jumps(linked[uuid])
      decreases |linked.Keys| - |selected|, |chain| - |seen|
    {
      AtItsKind(chain, linked, cursor.value, physicalWalk);
      var record := RecordAt(chain, linked, cursor.value);
      InTable(chain, linked, cursor.value, limit, physicalWalk);
      if physicalWalk && record.uuid in selected {
        if cursor.value.index in seen { break; }
        OneSeen(chain, seen, cursor.value.index);
        seen := seen + {cursor.value.index};
        GoesOnWritten(chain, linked, leaf, walk, selected, physical, physicalFrom, cursor.value.index, limit, w);
        w := w.(steps := w.steps + 1, seen := seen);
        cursor := WrittenCursor(chain, record.parent, limit);
        continue;
      }
      if record.uuid in selected { break; }
      OneSelected(linked, walk, selected, record);
      StepKeeps(chain, linked, leaf, walk, selected, physicalWalk, physical, physicalFrom, cursor.value, record, limit, w);
      w := w.(start := if physicalWalk then w.start else |walk| + 1, steps := 0);
      selected := selected + {record.uuid};
      walk := walk + [record];
      Onwards(record);
      if Jumps(record) {
        if !physicalWalk { physicalFrom := Some(record.uuid); }
        physicalWalk := true;
        limit := Position(chain, record.uuid);
        missing := record.kind.logicalParent;
        cursor := WrittenCursor(chain, missing, limit);
      } else {
        missing := record.parent;
        cursor := if physicalWalk then WrittenCursor(chain, missing, limit) else LinkedCursor(linked, missing);
      }
    }
    Ends(chain, linked, leaf, walk, selected, physicalWalk, physical, physicalFrom, cursor, w);
  }

  lemma {:induction false} Onwards(record: Record)
    ensures Onward(record) == if Jumps(record) && record.kind.Boundary? then record.kind.logicalParent else record.parent
  {}

  lemma {:induction false} AtItsKind(chain: seq<Record>, linked: Records, cursor: Cursor, physicalWalk: bool)
    requires CursorIn(Some(cursor), chain, linked, physicalWalk)
    ensures CursorIn(Some(cursor), chain, linked, cursor.Written?)
  {}

  /** The record at the cursor is one of the table's; where the walk may go from it. */
  lemma {:induction false} InTable(chain: seq<Record>, linked: Records, cursor: Cursor, limit: nat, physicalWalk: bool)
    requires TableOf(linked, chain) && CursorIn(Some(cursor), chain, linked, physicalWalk) && limit <= |chain|
    ensures (physicalWalk <==> cursor.Written?) && CursorIn(Some(cursor), chain, linked, cursor.Written?)
    ensures var record := RecordAt(chain, linked, cursor);
            && record.uuid in linked && record.uuid in UuidSet(chain) && Position(chain, record.uuid) < |chain|
            && (forall next :: CursorIn(WrittenCursor(chain, next, limit), chain, linked, true))
            && (forall next :: CursorIn(WrittenCursor(chain, next, Position(chain, record.uuid)), chain, linked, true))
            && CursorIn(LinkedCursor(linked, record.parent), chain, linked, false)
            && (Jumps(record) ==> record.kind.Boundary? && record.kind.logicalParent.Some?)
    ensures cursor.Written? ==> cursor.index < |chain| && RecordAt(chain, linked, cursor) == chain[cursor.index]
  {
    hide WrittenBefore;
    var record := RecordAt(chain, linked, cursor);
    assert record.uuid in UuidSet(chain);
    InFile(chain, record.uuid);
  }

  lemma {:induction false} InFile(chain: seq<Record>, uuid: Token)
    requires uuid in UuidSet(chain)
    ensures WrittenBefore(chain, uuid, |chain|).Some? && Position(chain, uuid) < |chain| && chain[Position(chain, uuid)].uuid == uuid
    ensures WrittenBefore(chain, uuid, |chain|) == Some(Position(chain, uuid))
  {
    var i :| 0 <= i < |chain| && chain[i].uuid == uuid;
  }

  lemma {:induction false} Starts(chain: seq<Record>, linked: Records, leaf: Token, physical: bool, cursor: Option<Cursor>)
    requires TableOf(linked, chain) && leaf in linked
    requires cursor == if physical then WrittenCursor(chain, Some(leaf), |chain|) else Some(Linked(leaf))
    ensures Selected(linked, [], {}) && CursorIn(cursor, chain, linked, physical) && cursor.Some?
    ensures if physical then WalkingWritten(chain, linked, leaf, [], physical, None, cursor, Reading(1, 0, {})) && LimitAfter(chain, []) == |chain|
            else Walking(linked, leaf, [], cursor)
  {}

  /** Past a record selected already, and not passed over before, the walk goes on up its parents. */
  lemma {:induction false} GoesOnWritten(chain: seq<Record>, linked: Records, leaf: Token, walk: seq<Record>, selected: set<Token>,
                                         physical: bool, from: Option<Token>, index: nat, limit: nat, w: Reading)
    requires WalkingWritten(chain, linked, leaf, walk, physical, from, Some(Written(index)), w) && Selected(linked, walk, selected)
    requires index < |chain| && chain[index].uuid in selected && index !in w.seen && limit == LimitAfter(chain, walk)
    ensures WalkingWritten(chain, linked, leaf, walk, physical, from, WrittenCursor(chain, chain[index].parent, limit),
                           w.(steps := w.steps + 1, seen := w.seen + {index}))
  {
    hide JumpsAt, WrittenFrom, LimitAfter, WrittenBefore, PassedFrom;
    var next := WrittenCursor(chain, chain[index].parent, limit);
    assert IndexOf(next) == StepAt(chain, walk, w.steps + 1);
    OneStep(chain, walk, w.start, w.steps, index);
  }

  lemma {:induction false} OneStep(chain: seq<Record>, walk: seq<Record>, start: nat, steps: nat, index: nat)
    requires walk != [] && Reads(chain, walk, start, Some(index), steps) && !Passed(chain, walk, start, steps, index)
    requires index < |chain| && chain[index].uuid in UuidSet(walk)
    ensures Reads(chain, walk, start, StepAt(chain, walk, steps + 1), steps + 1)
    ensures forall i: nat :: Passed(chain, walk, start, steps + 1, i) <==> i == index || Passed(chain, walk, start, steps, i)
  {
    hide StepAt, PassedFrom, UuidSet;
    forall i: nat ensures Passed(chain, walk, start, steps + 1, i) <==> i == index || Passed(chain, walk, start, steps, i) {
      if exists m: nat :: m < steps + 1 && StepAt(chain, walk, m) == Some(i) {
        var m: nat :| m < steps + 1 && StepAt(chain, walk, m) == Some(i);
        assert m == steps || m < steps;
      }
    }
    hide Passed;
  }

  lemma {:induction false} NextKept(chain: seq<Record>, walk: seq<Record>, record: Record, start: nat)
    requires AsWritten(chain, walk, start) && (0 < start <= |walk| || walk == [])
    requires |walk| >= start && walk != [] ==> NextWritten(chain, walk + [record], start, |walk|)
    ensures AsWritten(chain, walk + [record], start)
  {
    hide ReadsNext, UuidSet;
    var longer := walk + [record];
    forall k: nat | 0 < k && start <= k < |longer| ensures NextWritten(chain, longer, start, k) {
      if k < |walk| {
        assert NextWritten(chain, walk, start, k) && longer[..k] == walk[..k] && longer[k] == walk[k];
      }
    }
  }

  /** What the walk reads next, when its uuid is not selected, is the next record as written. */
  lemma {:induction false} ReadIsNext(chain: seq<Record>, walk: seq<Record>, start: nat, steps: nat, index: nat)
    requires walk != [] && Reads(chain, walk, start, Some(index), steps)
    requires index < |chain| && chain[index].uuid !in UuidSet(walk)
    ensures NextWritten(chain, walk + [chain[index]], start, |walk|)
  {
    hide Reads, UuidSet;
    assert (walk + [chain[index]])[..|walk|] == walk;
  }

  /** A record read next adds nothing to what was passed over. */
  lemma {:induction false} PassedKept(chain: seq<Record>, walk: seq<Record>, start: nat, steps: nat, index: nat)
    requires walk != [] && 0 < start <= |walk| && Reads(chain, walk, start, Some(index), steps)
    requires index < |chain| && chain[index].uuid !in UuidSet(walk)
    ensures forall i: nat :: Passed(chain, walk + [chain[index]], start, 0, i) <==> Passed(chain, walk, start, steps, i)
  {
    hide StepAt, UuidSet;
    var longer := walk + [chain[index]];
    assert longer[..|walk|] == walk;
    forall i: nat ensures Passed(chain, longer, start, 0, i) <==> Passed(chain, walk, start, steps, i) {
      PassedNow(chain, walk, start, steps, index, i);
      hide PassedFrom;
      assert forall k: nat :: k < |walk| ==> longer[..k] == walk[..k];
    }
  }

  lemma {:induction false} PassedNow(chain: seq<Record>, walk: seq<Record>, start: nat, steps: nat, index: nat, i: nat)
    requires walk != [] && Reads(chain, walk, start, Some(index), steps)
    requires index < |chain| && chain[index].uuid !in UuidSet(walk)
    ensures PassedFrom(chain, walk, i) <==> exists m: nat :: m < steps && StepAt(chain, walk, m) == Some(i)
  {
    hide StepAt, UuidSet, Passed;
    if PassedFrom(chain, walk, i) {
      var m: nat :| StepAt(chain, walk, m) == Some(i) && PassesOver(chain, walk, m + 1);
      assert m < steps;
    }
    if m: nat :| m < steps && StepAt(chain, walk, m) == Some(i) { assert PassesOver(chain, walk, m + 1); }
  }

  /** The limit after one record more. */
  lemma {:induction false} LimitOnce(chain: seq<Record>, walk: seq<Record>, record: Record)
    requires record.uuid in UuidSet(chain)
    ensures LimitAfter(chain, walk + [record]) == if Jumps(record) then Position(chain, record.uuid) else LimitAfter(chain, walk)
  {
    hide WrittenBefore;
    assert (walk + [record])[..|walk|] == walk;
    InFile(chain, record.uuid);
  }

  /** Right after a record, the walk reads on at its parent, or at its logical parent. */
  lemma {:induction false} ReadsOn(chain: seq<Record>, walk: seq<Record>, start: nat)
    requires walk != []
    ensures Reads(chain, walk, start, IndexOf(WrittenCursor(chain, Onward(walk[|walk| - 1]), LimitAfter(chain, walk))), 0)
  {
    hide LimitAfter, WrittenBefore, Passed;
    assert IndexOf(WrittenCursor(chain, Onward(walk[|walk| - 1]), LimitAfter(chain, walk))) == StepAt(chain, walk, 0);
  }

  /** One record more. */
  lemma {:induction false} StepKeeps(chain: seq<Record>, linked: Records, leaf: Token, walk: seq<Record>, selected: set<Token>, physicalWalk: bool, physical: bool,
                                     from: Option<Token>, cursor: Cursor, record: Record, limit: nat, w: Reading)
    requires TableOf(linked, chain) && CursorIn(Some(cursor), chain, linked, physicalWalk) && record == RecordAt(chain, linked, cursor)
    requires Selected(linked, walk, selected) && record.uuid !in selected && record.uuid in UuidSet(chain) && limit <= |chain|
    requires if physicalWalk then WalkingWritten(chain, linked, leaf, walk, physical, from, Some(cursor), w) && limit == LimitAfter(chain, walk)
             else !physical && from.None? && Walking(linked, leaf, walk, Some(cursor)) && w.seen == {}
    ensures var limitAfter := if Jumps(record) then Position(chain, record.uuid) else limit;
            var fromAfter := if Jumps(record) && !physicalWalk then Some(record.uuid) else from;
            physicalWalk || Jumps(record) ==>
              && limitAfter <= |chain| && limitAfter == LimitAfter(chain, walk + [record])
              && WalkingWritten(chain, linked, leaf, walk + [record], physical, fromAfter, WrittenCursor(chain, Onward(record), limitAfter),
                                w.(start := if physicalWalk then w.start else |walk| + 1, steps := 0))
    ensures !physicalWalk && !Jumps(record) ==> Walking(linked, leaf, walk + [record], LinkedCursor(linked, record.parent))
    ensures !physicalWalk && Jumps(record) ==> record.uuid in linked && Jumps(linked[record.uuid])
  {
    LimitOnce(chain, walk, record);
    ReadsOn(chain, walk + [record], if physicalWalk then w.start else |walk| + 1);
    if physicalWalk {
      WrittenStep(chain, linked, leaf, walk, selected, physical, from, cursor.index, w);
    } else {
      LinkedStep(chain, linked, leaf, walk, cursor.uuid);
    }
    hide *;
    StepsTo(chain, linked, leaf, walk, physicalWalk, physical, from, cursor, record, limit, w.(start := if physicalWalk then w.start else |walk| + 1, steps := 0));
  }

  lemma {:induction false} WrittenStep(chain: seq<Record>, linked: Records, leaf: Token, walk: seq<Record>, selected: set<Token>,
                                       physical: bool, from: Option<Token>, index: nat, w: Reading)
    requires WalkingWritten(chain, linked, leaf, walk, physical, from, Some(Written(index)), w) && Selected(linked, walk, selected)
    requires index < |chain| && chain[index].uuid !in selected
    ensures w.start > 0 && if physical then w.start == 1 && WrittenFrom(chain, walk + [chain[index]], leaf)
                           else JumpsAt(chain, linked, walk + [chain[index]], from.value, w.start - 1)
    ensures (walk + [chain[index]])[0].uuid == leaf
    ensures forall i: nat :: i in w.seen <==> Passed(chain, walk + [chain[index]], w.start, 0, i)
  {
    var longer := walk + [chain[index]];
    assert forall i :: 0 <= i < |walk| ==> longer[i] == walk[i];
    if walk != [] {
      ReadIsNext(chain, walk, w.start, w.steps, index);
      PassedKept(chain, walk, w.start, w.steps, index);
    }
    hide NextWritten, ReadsNext, Reads, WrittenBefore;
    NextKept(chain, walk, chain[index], w.start);
  }

  lemma {:induction false} LinkedStep(chain: seq<Record>, linked: Records, leaf: Token, walk: seq<Record>, uuid: Token)
    requires TableOf(linked, chain) && uuid in linked && Walking(linked, leaf, walk, Some(Linked(uuid)))
    ensures var record := linked[uuid]; var longer := walk + [record];
            && record.uuid == uuid
            && (!Jumps(record) ==> Walking(linked, leaf, longer, LinkedCursor(linked, record.parent)))
            && (Jumps(record) ==> longer[0].uuid == leaf && JumpsAt(chain, linked, longer, uuid, |walk|))
            && var start := |walk| + 1; forall i: nat :: !Passed(chain, longer, start, 0, i)
  {
    var longer := walk + [linked[uuid]];
    assert longer[|walk|] == linked[uuid] && forall i :: 0 <= i < |walk| ==> longer[i] == walk[i];
    assert FollowsParents(linked, longer, |longer|);
    hide FollowsParents;
    assert AsWritten(chain, longer, |walk| + 1);
  }

  lemma {:induction false} StepsTo(chain: seq<Record>, linked: Records, leaf: Token, walk: seq<Record>, physicalWalk: bool, physical: bool,
                                   from: Option<Token>, cursor: Cursor, record: Record, limit: nat, w: Reading)
    requires record.uuid in UuidSet(chain) && limit <= |chain| && CursorIn(Some(cursor), chain, linked, physicalWalk)
    requires var longer := walk + [record]; LimitAfter(chain, longer) == if Jumps(record) then Position(chain, record.uuid) else LimitAfter(chain, walk)
    requires w.steps == 0 && Reads(chain, walk + [record], w.start, IndexOf(WrittenCursor(chain, Onward(record), LimitAfter(chain, walk + [record]))), 0)
    requires physicalWalk || Jumps(record) ==> forall i: nat :: i in w.seen <==> Passed(chain, walk + [record], w.start, 0, i)
    requires physicalWalk ==>
               && limit == LimitAfter(chain, walk) && (walk + [record])[0].uuid == leaf
               && (physical ==> from.None? && w.start == 1 && WrittenFrom(chain, walk + [record], leaf))
               && (!physical ==> from.Some? && w.start > 0 && JumpsAt(chain, linked, walk + [record], from.value, w.start - 1))
    requires !physicalWalk ==>
               && !physical && from.None? && record.uuid in linked && record == linked[record.uuid] && w.start == |walk| + 1
               && (!Jumps(record) ==> Walking(linked, leaf, walk + [record], LinkedCursor(linked, record.parent)))
               && (Jumps(record) ==> (walk + [record])[0].uuid == leaf && JumpsAt(chain, linked, walk + [record], record.uuid, |walk|))
    ensures var limitAfter := if Jumps(record) then Position(chain, record.uuid) else limit;
            var fromAfter := if Jumps(record) && !physicalWalk then Some(record.uuid) else from;
            physicalWalk || Jumps(record) ==>
              && limitAfter <= |chain| && limitAfter == LimitAfter(chain, walk + [record])
              && WalkingWritten(chain, linked, leaf, walk + [record], physical, fromAfter, WrittenCursor(chain, Onward(record), limitAfter), w)
    ensures !physicalWalk && !Jumps(record) ==> Walking(linked, leaf, walk + [record], LinkedCursor(linked, record.parent))
    ensures !physicalWalk && Jumps(record) ==> record.uuid in linked && Jumps(linked[record.uuid])
  {
    hide JumpsAt, WrittenFrom, Reads, Passed, LimitAfter, Position, WrittenBefore, Walking, Onward, UuidSet;
  }

  lemma {:induction false} Ends(chain: seq<Record>, linked: Records, leaf: Token, walk: seq<Record>, selected: set<Token>, physicalWalk: bool,
                                physical: bool, from: Option<Token>, cursor: Option<Cursor>, w: Reading)
    requires Selected(linked, walk, selected) && CursorIn(cursor, chain, linked, physicalWalk)
    requires cursor.None? || if physicalWalk then cursor.value.Written? && cursor.value.index in w.seen else RecordAt(chain, linked, cursor.value).uuid in selected
    requires TableOf(linked, chain)
    requires if physicalWalk then WalkingWritten(chain, linked, leaf, walk, physical, from, cursor, w) else !physical && from.None? && Walking(linked, leaf, walk, cursor)
    ensures walk != [] && Walked(chain, linked, leaf, physical, walk, from)
  {
    hide JumpsAt, WrittenFrom, PathUp, WrittenBefore, Reads, Passed;
    if physicalWalk {
      assert StopsWritten(chain, walk, w.start);
    } else {
      WalkIsPath(linked, walk, 0);
      assert walk[..0] == [] && walk[0..] == walk && UuidSet([]) == {};
    }
  }
}
