/**
 * Claude's transcript graph and its compactions (src/claude/native/history.ts 32-66): relinking a compaction changes
 * parents only, and hangs what followed the anchor below the messages that were kept.
 */
module Relink {
  import opened Basics

  /** The messages a compaction kept, one by one, or as the ends of a range. */
  datatype Preserved = Preserved(anchor: Token, uuids: seq<Token>)
  datatype Range = Range(head: Token, anchor: Token, tail: Token)

  /** What a record is: of a user's, whether a tool result and whether another agent sent it; a compaction; other system records. */
  datatype Kind =
    | User(toolResult: bool, fromAgent: bool)
    | Assistant(messageId: Option<Token>, blockIndex: Option<int>)
    | Boundary(logicalParent: Option<Token>, messages: Option<Preserved>, segment: Option<Range>)
    | System
    | Attachment(queuedCommand: bool)

  datatype Record = Record(uuid: Token, parent: Option<Token>, kind: Kind, isMeta: bool, isSidechain: bool, inTeam: bool)

  type Records = map<Token, Record>

  // ---- one compaction ----

  function Reparented(linked: Records, uuid: Token, parent: Token): Records
    requires uuid in linked
  {
    linked[uuid := linked[uuid].(parent := Some(parent))]
  }

  /** Each uuid's parent is the one before it, the first one's is `parent`. */
  function LinkChain(linked: Records, uuids: seq<Token>, parent: Token): Records
    requires forall i :: 0 <= i < |uuids| ==> uuids[i] in linked
    decreases |uuids|
  {
    if uuids == [] then linked else LinkChain(Reparented(linked, uuids[0], parent), uuids[1..], uuids[0])
  }

  /** The anchor's children, but for one, go below another record. */
  function LinkChildren(linked: Records, anchor: Token, but: Token, below: Token): Records {
    map uuid | uuid in linked ::
      if linked[uuid].parent == Some(anchor) && uuid != but then linked[uuid].(parent := Some(below)) else linked[uuid]
  }

  predicate AllIn(uuids: seq<Token>, linked: Records) {
    forall i :: 0 <= i < |uuids| ==> uuids[i] in linked
  }

  function RelinkOne(linked: Records, kind: Kind): Records {
    if !kind.Boundary? then linked
    else if kind.messages.Some? then
      var kept := kind.messages.value;
      if kept.uuids == [] || !AllIn(kept.uuids, linked) then linked
      else LinkChildren(LinkChain(linked, kept.uuids, kept.anchor), kept.anchor, kept.uuids[0], kept.uuids[|kept.uuids| - 1])
    else if kind.segment.Some? then
      var kept := kind.segment.value;
      var headed := if kept.head in linked then Reparented(linked, kept.head, kept.anchor) else linked;
      LinkChildren(headed, kept.anchor, kept.head, kept.tail)
    else linked
  }

  /** All compactions, in the records' order. */
  function Relinked(linked: Records, order: seq<Token>): Records
    requires AllIn(order, linked)
    decreases |order|
  {
    if order == [] then linked
    else var next := RelinkOne(linked, linked[order[0]].kind);
         RelinkOneKeeps(linked, linked[order[0]].kind);
         Relinked(next, order[1..])
  }

  /** The compaction keeps messages that the records lack, though they hold its anchor. */
  predicate KeepsMissing(records: Records, kind: Kind) {
    && kind.Boundary?
    && (|| (kind.messages.Some? && kind.messages.value.anchor in records && !AllIn(kind.messages.value.uuids, records))
        || (kind.segment.Some? && kind.segment.value.anchor in records && (kind.segment.value.head !in records || kind.segment.value.tail !in records)))
  }

  // ---- only parents change ----

  ghost predicate OnlyParents(records: Records, linked: Records) {
    linked.Keys == records.Keys && forall uuid :: uuid in records ==> linked[uuid] == records[uuid].(parent := linked[uuid].parent)
  }

  lemma {:induction false} ChainKeeps(linked: Records, uuids: seq<Token>, parent: Token)
    requires AllIn(uuids, linked)
    ensures OnlyParents(linked, LinkChain(linked, uuids, parent))
    decreases |uuids|
  {
    if uuids != [] {
      var next := Reparented(linked, uuids[0], parent);
      ChainKeeps(next, uuids[1..], uuids[0]);
    }
  }

  lemma {:induction false} RelinkOneKeeps(linked: Records, kind: Kind)
    ensures OnlyParents(linked, RelinkOne(linked, kind))
  {
    if kind.Boundary? && kind.messages.Some? && AllIn(kind.messages.value.uuids, linked) {
      ChainKeeps(linked, kind.messages.value.uuids, kind.messages.value.anchor);
      hide LinkChain;
    }
  }

  /** Relinking any compactions keeps the records, and of each all but its parent. */
  lemma {:induction false} RelinkedKeeps(linked: Records, order: seq<Token>)
    requires AllIn(order, linked)
    ensures OnlyParents(linked, Relinked(linked, order))
    decreases |order|
  {
    if order != [] {
      RelinkOneKeeps(linked, linked[order[0]].kind);
      RelinkedKeeps(RelinkOne(linked, linked[order[0]].kind), order[1..]);
    }
  }

  // ---- where a kept message's chain runs ----

  /** The parent of a record, and so on up. */
  function Up(linked: Records, uuid: Token, steps: nat): Option<Token> {
    if steps == 0 then Some(uuid)
    else match Up(linked, uuid, steps - 1)
         case Some(at) => if at in linked then linked[at].parent else None
         case None => None
  }

  ghost predicate WellKept(linked: Records, kept: Preserved) {
    kept.uuids != [] && AllIn(kept.uuids, linked) && Distinct(kept.uuids) && kept.anchor !in kept.uuids
  }

  /** The one before in the chain. */
  function Before(uuids: seq<Token>, parent: Token, i: nat): Token
    requires i < |uuids|
  {
    if i == 0 then parent else uuids[i - 1]
  }

  lemma {:induction false} ChainParents(linked: Records, uuids: seq<Token>, parent: Token)
    requires AllIn(uuids, linked) && Distinct(uuids)
    ensures var chained := LinkChain(linked, uuids, parent);
            && chained.Keys == linked.Keys
            && (forall i :: 0 <= i < |uuids| ==> chained[uuids[i]].parent == Some(Before(uuids, parent, i)))
            && (forall uuid :: uuid in linked && uuid !in uuids ==> chained[uuid] == linked[uuid])
    decreases |uuids|
  {
    if uuids != [] {
      var next, rest := Reparented(linked, uuids[0], parent), uuids[1..];
      ChainParents(next, rest, uuids[0]);
      var chained := LinkChain(next, rest, uuids[0]);
      assert uuids[0] !in rest;
      assert chained[uuids[0]] == next[uuids[0]];
      forall i | 0 <= i < |uuids| ensures chained[uuids[i]].parent == Some(Before(uuids, parent, i)) {
        if i == 0 {
          assert next[uuids[0]].parent == Some(parent);
        } else {
          assert chained[rest[i - 1]].parent == Some(Before(rest, uuids[0], i - 1));
          assert uuids[i] == rest[i - 1];
          if i > 1 { assert uuids[i - 1] == rest[i - 2]; }
        }
      }
    }
  }

  /** Where each record hangs after a compaction's kept messages were relinked. */
  lemma {:induction false} RelinkedParents(linked: Records, kept: Preserved, kind: Kind, uuid: Token)
    requires WellKept(linked, kept) && kind.Boundary? && kind.messages == Some(kept) && uuid in linked
    ensures var relinked := RelinkOne(linked, kind);
            && relinked.Keys == linked.Keys
            && (uuid !in kept.uuids ==>
                  relinked[uuid].parent == (if linked[uuid].parent == Some(kept.anchor) then Some(kept.uuids[|kept.uuids| - 1]) else linked[uuid].parent))
            && (forall i :: 0 <= i < |kept.uuids| ==> relinked[kept.uuids[i]].parent == Some(Before(kept.uuids, kept.anchor, i)))
  {
    ChainParents(linked, kept.uuids, kept.anchor);
    hide LinkChain;
    var uuids, relinked := kept.uuids, RelinkOne(linked, kind);
    var chained := LinkChain(linked, uuids, kept.anchor);
    assert relinked == LinkChildren(chained, kept.anchor, uuids[0], uuids[|uuids| - 1]);
    hide RelinkOne;
    forall i | 0 <= i < |uuids| ensures relinked[uuids[i]].parent == Some(Before(uuids, kept.anchor, i)) {
      assert chained[uuids[i]].parent == Some(Before(uuids, kept.anchor, i));
      if i > 0 { assert uuids[i - 1] in uuids && uuids[i] != uuids[0]; }
    }
  }

  /**
   * From every other former child of the anchor the parents run through the kept messages, last to first, and then to
   * the anchor.
   */
  lemma {:induction false} RunsThroughKept(linked: Records, kept: Preserved, kind: Kind, child: Token, steps: nat)
    requires WellKept(linked, kept) && kind.Boundary? && kind.messages == Some(kept)
    requires child in linked && child !in kept.uuids && linked[child].parent == Some(kept.anchor)
    requires 1 <= steps <= |kept.uuids| + 1
    ensures Up(RelinkOne(linked, kind), child, steps)
         == Some(if steps <= |kept.uuids| then kept.uuids[|kept.uuids| - steps] else kept.anchor)
    decreases steps
  {
    hide RelinkOne;
    RelinkedParents(linked, kept, kind, child);
    if steps > 1 {
      RunsThroughKept(linked, kept, kind, child, steps - 1);
      assert kept.uuids[|kept.uuids| - (steps - 1)] in linked;
    } else {
      assert Up(RelinkOne(linked, kind), child, 0) == Some(child);
    }
  }

  /** A kept range: its head goes below the anchor, and the anchor's other children below its tail. */
  lemma {:induction false} RangeParents(linked: Records, kept: Range, kind: Kind, uuid: Token)
    requires kind.Boundary? && kind.messages.None? && kind.segment == Some(kept) && uuid in linked
    ensures var relinked := RelinkOne(linked, kind);
            && relinked.Keys == linked.Keys
            && relinked[uuid].parent ==
                 if uuid == kept.head then Some(kept.anchor)
                 else if linked[uuid].parent == Some(kept.anchor) then Some(kept.tail)
                 else linked[uuid].parent
  {
  }

  /** The kept range as a chain up from its tail to its head, none of it the anchor. */
  ghost predicate WellRanged(linked: Records, kept: Range, chain: seq<Token>) {
    && chain != [] && chain[0] == kept.head && chain[|chain| - 1] == kept.tail && AllIn(chain, linked) && Distinct(chain) && kept.anchor !in chain
    && forall i :: 0 < i < |chain| ==> linked[chain[i]].parent == Some(chain[i - 1])
  }

  /**
   * From every other former child of the anchor the parents run up through the kept range, tail to head, and then to the
   * anchor.
   */
  lemma {:induction false} RunsThroughRange(linked: Records, kept: Range, kind: Kind, chain: seq<Token>, child: Token, steps: nat)
    requires WellRanged(linked, kept, chain) && kind.Boundary? && kind.messages.None? && kind.segment == Some(kept)
    requires child in linked && child !in chain && linked[child].parent == Some(kept.anchor)
    requires 1 <= steps <= |chain| + 1
    ensures Up(RelinkOne(linked, kind), child, steps) == Some(if steps <= |chain| then chain[|chain| - steps] else kept.anchor)
    decreases steps
  {
    hide RelinkOne;
    assert child != kept.head;
    if steps > 1 {
      RunsThroughRange(linked, kept, kind, chain, child, steps - 1);
      var at := |chain| - (steps - 1);
      RangeParents(linked, kept, kind, chain[at]);
      if at > 0 { assert chain[at] != chain[0] && chain[at - 1] in chain; }
    } else {
      RangeParents(linked, kept, kind, child);
      assert Up(RelinkOne(linked, kind), child, 0) == Some(child);
    }
  }

  // ---- the loops ----

  method RelinkChildren(order: seq<Token>, linked: Records, anchor: Token, but: Token, below: Token) returns (r: Records)
    requires linked.Keys == set uuid | uuid in order
    ensures r == LinkChildren(linked, anchor, but, below)
  {
    r := linked;
    for n := 0 to |order|
      invariant r.Keys == linked.Keys
      invariant forall uuid :: uuid in linked ==>
                  r[uuid] == if uuid in order[..n] then LinkChildren(linked, anchor, but, below)[uuid] else linked[uuid]
    {
      var uuid := order[n];
      assert order[..n + 1] == order[..n] + [uuid];
      if r[uuid].parent == Some(anchor) && uuid != but { r := Reparented(r, uuid, below); }
    }
    assert order[..|order|] == order;
  }

  method RelinkBoundary(order: seq<Token>, linked: Records, kind: Kind) returns (r: Records)
    requires linked.Keys == set uuid | uuid in order
    ensures r == RelinkOne(linked, kind)
  {
    if kind.Boundary? && kind.messages.Some? {
      var kept := kind.messages.value;
      if kept.uuids == [] || !AllIn(kept.uuids, linked) { return linked; }
      r := LinkEach(linked, kept.uuids, kept.anchor);
      hide LinkChain;
      r := RelinkChildren(order, r, kept.anchor, kept.uuids[0], kept.uuids[|kept.uuids| - 1]);
    } else if kind.Boundary? && kind.segment.Some? {
      var kept := kind.segment.value;
      r := if kept.head in linked then Reparented(linked, kept.head, kept.anchor) else linked;
      r := RelinkChildren(order, r, kept.anchor, kept.head, kept.tail);
    } else {
      r := linked;
    }
  }

  lemma {:induction false} MissingFixed(records: Records, linked: Records, uuid: Token)
    requires OnlyParents(records, linked) && uuid in records
    ensures linked[uuid].kind == records[uuid].kind && KeepsMissing(records, records[uuid].kind) == KeepsMissing(linked, records[uuid].kind)
  {
    var kind := records[uuid].kind;
    assert linked[uuid] == records[uuid].(parent := linked[uuid].parent);
    if kind.Boundary? && kind.messages.Some? {
      assert AllIn(kind.messages.value.uuids, records) == AllIn(kind.messages.value.uuids, linked);
    }
  }

  lemma {:induction false} OnlyParentsChains(a: Records, b: Records, c: Records)
    requires OnlyParents(a, b) && OnlyParents(b, c)
    ensures OnlyParents(a, c)
  {}

  lemma {:induction false} RelinkedFirst(linked: Records, order: seq<Token>)
    requires AllIn(order, linked) && order != []
    ensures var next := RelinkOne(linked, linked[order[0]].kind);
            OnlyParents(linked, next) && AllIn(order[1..], next) && Relinked(linked, order) == Relinked(next, order[1..])
  {
    RelinkOneKeeps(linked, linked[order[0]].kind);
    hide RelinkOne;
  }

  /**
   * The loop over a Map's records, in its order, which sets their parents as it goes; and the compactions that keep
   * messages the records lack.
   */
  method RelinkCompactions(order: seq<Token>, records: Records) returns (linked: Records, partial: set<Token>)
    requires records.Keys == (set uuid | uuid in order)
    ensures AllIn(order, records) && linked == Relinked(records, order) && OnlyParents(records, linked)
    ensures partial == set uuid | uuid in order && KeepsMissing(records, records[uuid].kind)
  {
    hide Relinked, RelinkOne, KeepsMissing, OnlyParents;
    linked, partial := records, {};
    OnlyParentsOfSame(records);
    assert order[0..] == order;
    for n := 0 to |order|
      invariant AllIn(order, records) && OnlyParents(records, linked) && linked.Keys == records.Keys
      invariant AllIn(order[n..], linked) && Relinked(records, order) == Relinked(linked, order[n..])
      invariant partial == set uuid | uuid in order[..n] && KeepsMissing(records, records[uuid].kind)
    {
      var uuid := order[n];
      assert order[..n + 1] == order[..n] + [uuid] && order[n..][1..] == order[n + 1..];
      assert order[n..][0] == uuid;
      MissingFixed(records, linked, uuid);
      if KeepsMissing(linked, linked[uuid].kind) { partial := partial + {uuid}; }
      RelinkedFirst(linked, order[n..]);
      ghost var was := linked;
      linked := RelinkBoundary(order, linked, linked[uuid].kind);
      OnlyParentsChains(records, was, linked);
      SameKeys(was, linked);
    }
    assert order[..|order|] == order;
    NoneLeft(linked, order[|order|..]);
  }

  lemma {:induction false} OnlyParentsOfSame(records: Records)
    ensures OnlyParents(records, records)
  {}

  lemma {:induction false} SameKeys(records: Records, linked: Records)
    requires OnlyParents(records, linked)
    ensures linked.Keys == records.Keys
  {}

  lemma {:induction false} NoneLeft(linked: Records, order: seq<Token>)
    requires order == []
    ensures Relinked(linked, order) == linked
  {}

  method LinkEach(linked: Records, uuids: seq<Token>, anchor: Token) returns (r: Records)
    requires AllIn(uuids, linked)
    ensures r == LinkChain(linked, uuids, anchor) && r.Keys == linked.Keys
  {
    r := linked;
    var parent := anchor;
    for i := 0 to |uuids|
      invariant r.Keys == linked.Keys && AllIn(uuids[i..], r)
      invariant LinkChain(linked, uuids, anchor) == LinkChain(r, uuids[i..], parent)
    {
      assert uuids[i..][0] == uuids[i] && uuids[i..][1..] == uuids[i + 1..];
      r := Reparented(r, uuids[i], parent);
      parent := uuids[i];
    }
  }
}
