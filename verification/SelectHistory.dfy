/**
 * What a thread's history shows (src/claude/native/history.ts `selectHistory`, 142-241): the last record of each uuid,
 * relinked, the leaf, the walk from it, the walk's whole responses, and of these the visible records.
 */
module SelectHistory {
  import opened Basics
  import opened Relink
  import opened BranchWalk
  import opened WindowWalk
  import opened Siblings

  datatype History = History(records: seq<Record>, boundaries: set<Token>, leaf: Option<Token>, truncated: bool, partialCompaction: bool, physicalFrom: Option<Token>)

  /** Another agent's message, or one Claude folded into a running turn. */
  predicate Sent(record: Record) {
    (record.kind.User? && record.kind.fromAgent) || (record.kind.Attachment? && record.kind.queuedCommand)
  }

  predicate Visible(record: Record) {
    (!record.kind.Attachment? || Sent(record)) && (!record.isMeta || Sent(record)) && !record.isSidechain && !record.inTeam
  }

  // ---- the table of records ----

  /** The uuids in the order they first occur in. */
  function FirstOrder(chain: seq<Record>): seq<Token> {
    if chain == [] then []
    else
      var before, last := chain[..|chain| - 1], chain[|chain| - 1];
      FirstOrder(before) + if last.uuid in UuidSet(before) then [] else [last.uuid]
  }

  lemma {:induction false} OrderOf(chain: seq<Record>)
    ensures Distinct(FirstOrder(chain)) && (set uuid | uuid in FirstOrder(chain)) == UuidSet(chain)
  {
    if chain != [] {
      var before, last := chain[..|chain| - 1], chain[|chain| - 1];
      OrderOf(before);
      assert chain == before + [last];
      UuidSetOne(before, last);
      assert last.uuid in FirstOrder(before) <==> last.uuid in set uuid | uuid in FirstOrder(before);
    }
  }

  /** The records in the order their uuids first occur in. */
  function InOrderOf(order: seq<Token>, linked: Records): seq<Record>
    requires AllIn(order, linked)
  {
    seq(|order|, i requires 0 <= i < |order| => linked[order[i]])
  }

  /** The table lists the records, each once. */
  ghost predicate Lists(table: seq<Record>, linked: Records) {
    && Distinct(UuidsOf(table)) && UuidSet(table) == linked.Keys
    && forall i :: 0 <= i < |table| ==> table[i].uuid in linked && linked[table[i].uuid] == table[i]
  }

  lemma {:induction false} TableLists(order: seq<Token>, linked: Records)
    requires AllIn(order, linked) && Distinct(order) && linked.Keys == (set uuid | uuid in order) && forall uuid :: uuid in linked ==> linked[uuid].uuid == uuid
    ensures Lists(InOrderOf(order, linked), linked)
  {
    var table := InOrderOf(order, linked);
    assert UuidsOf(table) == order;
    forall uuid | uuid in linked ensures uuid in UuidSet(table) {
      assert uuid in order;
      var i :| 0 <= i < |order| && order[i] == uuid;
      assert table[i].uuid == uuid;
    }
  }

  /** Where the table has a record. */
  lemma {:induction false} TableAt(table: seq<Record>, linked: Records, uuid: Token)
    requires Lists(table, linked)
    ensures var at := WrittenBefore(table, uuid, |table|); if uuid in linked then at.Some? && table[at.value] == linked[uuid] else at.None?
    ensures uuid in linked ==> ResultParent(table, uuid) == if IsToolResult(linked[uuid]) then linked[uuid].parent else None
    ensures ResponseOf(table, uuid).Some? ==> uuid in linked && linked[uuid].kind.Assistant?
  {
    if uuid in linked { InFile(table, uuid); }
    hide WrittenBefore;
  }

  // ---- the selection ----

  ghost predicate Expands(table: seq<Record>, selected: seq<Record>, expanded: seq<Record>) {
    if AnyAssistant(selected) then Expansion(table, selected, expanded) else expanded == selected
  }

  /** The history is the visible part of the walk's expansion, and tells where it ended and what it passed. */
  ghost predicate IsHistory(chain: seq<Record>, linked: Records, table: seq<Record>, physical: bool, history: History, leaf: Token, walk: seq<Record>, expanded: seq<Record>) {
    && history.leaf == Some(leaf) && walk != [] && Walked(chain, linked, leaf, physical, walk, history.physicalFrom)
    && Expands(table, Reverse(walk), expanded) && history.records == Filter(Visible, expanded)
    && history.boundaries == (set record | record in history.records && record.kind.Boundary? :: record.uuid)
    && var missing := Onward(walk[|walk| - 1]);
       && (history.truncated <==> missing.Some? && missing.value !in UuidSet(chain))
       && (history.partialCompaction <==> exists uuid :: uuid in UuidSet(walk) && uuid in UuidSet(chain) && KeepsMissing(LastWins(chain), LastWins(chain)[uuid].kind))
  }

  /** The file's records by uuid, relinked, and listed. */
  function LinkedOf(chain: seq<Record>): Records
    requires AllIn(FirstOrder(chain), LastWins(chain))
  {
    Relinked(LastWins(chain), FirstOrder(chain))
  }

  lemma {:induction false} LinkedIs(chain: seq<Record>)
    ensures AllIn(FirstOrder(chain), LastWins(chain)) && LastWins(chain).Keys == UuidSet(chain) == set uuid | uuid in FirstOrder(chain)
    ensures TableOf(LinkedOf(chain), chain) && AllIn(FirstOrder(chain), LinkedOf(chain)) && LinkedOf(chain).Keys == UuidSet(chain)
    ensures Lists(InOrderOf(FirstOrder(chain), LinkedOf(chain)), LinkedOf(chain))
    ensures OnlyParents(LastWins(chain), LinkedOf(chain))
  {
    hide FirstOrder, Relinked;
    OrderOf(chain);
    TableOfLast(chain);
    forall i | 0 <= i < |FirstOrder(chain)| ensures FirstOrder(chain)[i] in LastWins(chain) { assert FirstOrder(chain)[i] in set uuid | uuid in FirstOrder(chain); }
    RelinkedKeeps(LastWins(chain), FirstOrder(chain));
    hide Position;
    var linked := LinkedOf(chain);
    assert forall uuid :: uuid in linked ==> linked[uuid].uuid == uuid;
    TableLists(FirstOrder(chain), linked);
  }

  /** The map of last records, and the order of its keys. */
  method ByUuid(chain: seq<Record>) returns (records: Records, order: seq<Token>)
    ensures records == LastWins(chain) && order == FirstOrder(chain)
  {
    hide *;
    records, order := map[], [];
    NothingByUuid();
    assert chain[..0] == [];
    for n := 0 to |chain|
      invariant records == LastWins(chain[..n]) && order == FirstOrder(chain[..n])
    {
      LastOnce(chain[..n], chain[n]);
      assert chain[..n + 1] == chain[..n] + [chain[n]];
      if chain[n].uuid !in records { order := order + [chain[n].uuid]; }
      records := records[chain[n].uuid := chain[n]];
    }
    assert chain[..|chain|] == chain;
  }

  lemma {:induction false} NothingByUuid()
    ensures LastWins([]) == map[] && FirstOrder([]) == []
  {}

  lemma {:induction false} LastOnce(chain: seq<Record>, record: Record)
    ensures LastWins(chain + [record]) == LastWins(chain)[record.uuid := record]
    ensures FirstOrder(chain + [record]) == FirstOrder(chain) + if record.uuid in LastWins(chain) then [] else [record.uuid]
  {
    var longer := chain + [record];
    assert longer[..|chain|] == chain;
    UuidSetOne(chain, record);
    forall uuid | uuid in LastWins(longer) ensures LastWins(longer)[uuid] == LastWins(chain)[record.uuid := record][uuid] {
      SameBefore(chain, record, uuid, |chain|);
      if uuid != record.uuid { InFile(chain, uuid); }
    }
    assert LastWins(longer).Keys == LastWins(chain)[record.uuid := record].Keys;
  }

  /**
   * A thread's history: empty without a candidate for the leaf, and otherwise from the given leaf, or the one chosen, the
   * visible part of the walk's expansion.
   */
  method Select(chain: seq<Record>, leafUuid: Option<Token>, physical: bool) returns (history: History)
    requires leafUuid.Some? ==> leafUuid.value in UuidSet(chain)
    ensures AllIn(FirstOrder(chain), LastWins(chain)) && AllIn(FirstOrder(chain), LinkedOf(chain))
    ensures leafUuid.Some? ==> history.leaf == leafUuid
    ensures leafUuid.None? && history.leaf.Some? ==> Chosen(chain, LinkedOf(chain), history.leaf.value)
    ensures history.leaf.None? ==> history == History([], {}, None, false, false, None) && forall uuid :: !Candidate(LinkedOf(chain), uuid)
    ensures history.leaf.Some? ==>
              exists walk, expanded ::
                IsHistory(chain, LinkedOf(chain), InOrderOf(FirstOrder(chain), LinkedOf(chain)), physical, history, history.leaf.value, walk, expanded)
  {
    hide *;
    LinkedIs(chain);
    var records, order := ByUuid(chain);
    var linked, partial := RelinkCompactions(order, records);
    LinkedOfIs(chain);
    var leaf := leafUuid;
    if leaf.None? {
      leaf := ChooseLeaf(chain, linked, order);
      if leaf.None? { return History([], {}, None, false, false, None); }
      ChosenIn(chain, linked, leaf.value);
    }
    var walk, physicalFrom, missing := Walk(chain, linked, leaf.value, physical);
    var table := InOrderOf(order, linked);
    ListsOnce(table, linked);
    var expanded := SiblingBlocks(table, Reverse(walk));
    var shown := Filter(Visible, expanded);
    history := History(shown, set record | record in shown && record.kind.Boundary? :: record.uuid, leaf, missing.Some? && missing.value !in UuidSet(chain),
                       exists i :: 0 <= i < |walk| && walk[i].uuid in partial, physicalFrom);
    HistoryIs(chain, linked, table, physical, history, leaf.value, walk, expanded, partial, order);
  }

  lemma {:induction false} LinkedOfIs(chain: seq<Record>)
    requires AllIn(FirstOrder(chain), LastWins(chain))
    ensures LinkedOf(chain) == Relinked(LastWins(chain), FirstOrder(chain))
  {}

  lemma {:induction false} ChosenIn(chain: seq<Record>, linked: Records, leaf: Token)
    requires Chosen(chain, linked, leaf)
    ensures leaf in linked
  {}

  lemma {:induction false} ListsOnce(table: seq<Record>, linked: Records)
    requires Lists(table, linked)
    ensures Distinct(UuidsOf(table))
  {}

  lemma {:induction false} HistoryIs(chain: seq<Record>, linked: Records, table: seq<Record>, physical: bool, history: History, leaf: Token, walk: seq<Record>,
                                     expanded: seq<Record>, partial: set<Token>, order: seq<Token>)
    requires history.leaf == Some(leaf) && walk != [] && Walked(chain, linked, leaf, physical, walk, history.physicalFrom)
    requires if AnyAssistant(Reverse(walk)) then Expansion(table, Reverse(walk), expanded) else expanded == Reverse(walk)
    requires LastWins(chain).Keys == UuidSet(chain) == set uuid | uuid in order
    requires partial == set uuid | uuid in order && KeepsMissing(LastWins(chain), LastWins(chain)[uuid].kind)
    requires history.records == Filter(Visible, expanded) && history.boundaries == set record | record in history.records && record.kind.Boundary? :: record.uuid
    requires var missing := Onward(walk[|walk| - 1]); history.truncated <==> missing.Some? && missing.value !in UuidSet(chain)
    requires history.partialCompaction <==> exists i :: 0 <= i < |walk| && walk[i].uuid in partial
    ensures IsHistory(chain, linked, table, physical, history, leaf, walk, expanded)
  {
    hide Walked, Expansion, Onward, Visible, LastWins, KeepsMissing, AnyAssistant, Filter, Reverse;
    assert forall uuid :: uuid in partial <==> uuid in UuidSet(chain) && KeepsMissing(LastWins(chain), LastWins(chain)[uuid].kind);
    if history.partialCompaction {
      var i :| 0 <= i < |walk| && walk[i].uuid in partial;
      assert walk[i].uuid in UuidSet(walk);
    }
  }

  // ---- without an assistant's record ----

  /** A selection that reaches no response is its own expansion. */
  lemma {:induction false} NothingToExpand(table: seq<Record>, selected: seq<Record>)
    requires Distinct(UuidsOf(selected)) && forall i :: 0 <= i < |selected| ==> ResponseOf(table, selected[i].uuid).None?
    ensures Expansion(table, selected, selected)
  {
    NoneReached(table, selected);
    ItselfWhole(table, selected);
    ItselfInOrder(table, selected);
    ItselfInTurn(table, selected);
    ItselfArranged(table, selected);
    OwnSelected(table, selected);
    hide *;
    ExpansionOf(table, selected, selected);
  }

  lemma {:induction false} NoneReached(table: seq<Record>, selected: seq<Record>)
    requires forall i :: 0 <= i < |selected| ==> ResponseOf(table, selected[i].uuid).None?
    ensures (forall response :: !Reached(table, selected, response)) && forall uuid :: Has(selected, uuid) ==> ResponseOf(table, uuid).None?
  {
    hide ResponseOf;
  }

  lemma {:induction false} ItselfWhole(table: seq<Record>, selected: seq<Record>)
    requires Distinct(UuidsOf(selected)) && (forall response :: !Reached(table, selected, response)) && forall uuid :: Has(selected, uuid) ==> ResponseOf(table, uuid).None?
    ensures Whole(table, selected, selected)
  {
    hide ResponseOf, ResultOf, Reached, Has, Distinct;
  }

  lemma {:induction false} ItselfInOrder(table: seq<Record>, selected: seq<Record>)
    requires forall i :: 0 <= i < |selected| ==> ResponseOf(table, selected[i].uuid).None?
    ensures InOrder(table, selected, selected)
  {
    hide ResponseOf, ResultOf, Early;
  }

  lemma {:induction false} ItselfInTurn(table: seq<Record>, selected: seq<Record>)
    requires Distinct(UuidsOf(selected)) && forall i :: 0 <= i < |selected| ==> ResponseOf(table, selected[i].uuid).None?
    ensures InTurn(table, selected, selected)
  {
    hide ResponseOf, ResultOf;
    forall p: nat, q: nat, i: nat | p < q < |selected| && i < |selected| && Brings(table, selected[i], selected[q].uuid)
      ensures Brought(table, selected, selected[p].uuid, i + 1)
    {
      assert UuidsOf(selected)[i] == UuidsOf(selected)[q];
      assert Brings(table, selected[p], selected[p].uuid);
    }
  }

  lemma {:induction false} ItselfArranged(table: seq<Record>, selected: seq<Record>)
    requires (forall response :: !Reached(table, selected, response)) && forall i :: 0 <= i < |selected| ==> ResponseOf(table, selected[i].uuid).None?
    ensures Arranged(table, selected, selected)
  {
    hide ResponseOf, ResultOf, Reached, Early, Comparable, StandsBefore, ByFile, FileOrder;
    forall p, q, response | 0 <= p < q < |selected| ensures Right(table, selected, selected[p], selected[q], response) {
      HasAt(selected, p);
      EarlyWhen(table, selected, selected[p].uuid, response);
    }
  }

  lemma {:induction false} OwnSelected(table: seq<Record>, selected: seq<Record>)
    requires forall i :: 0 <= i < |selected| ==> ResponseOf(table, selected[i].uuid).None?
    ensures AllOfTable(table, selected, selected)
  {
    hide ResponseOf;
  }

  lemma {:induction false} ExpansionOf(table: seq<Record>, selected: seq<Record>, expanded: seq<Record>)
    requires Whole(table, selected, expanded) && InOrder(table, selected, expanded) && InTurn(table, selected, expanded)
    requires AllOfTable(table, selected, expanded) && Arranged(table, selected, expanded)
    ensures Expansion(table, selected, expanded)
  {
    hide Whole, InOrder, InTurn, AllOfTable, Arranged;
  }

  // ---- the walk that passes no compaction ----

  lemma {:induction false} EndedPathAt(linked: Records, leaf: Token, walk: seq<Record>, k: nat)
    requires EndedPath(linked, leaf, walk) && k < |walk|
    ensures walk[k].uuid in linked && linked[walk[k].uuid] == walk[k] && Reverse(walk)[|walk| - 1 - k] == walk[k]
    ensures k < |walk| - 1 ==> walk[k].parent == Some(walk[k + 1].uuid)
  {}

  lemma {:induction false} ReverseDistinct(walk: seq<Record>)
    requires Distinct(UuidsOf(walk))
    ensures Distinct(UuidsOf(Reverse(walk)))
  {
    forall i, j | 0 <= i < j < |walk| ensures UuidsOf(Reverse(walk))[i] != UuidsOf(Reverse(walk))[j] {
      assert UuidsOf(walk)[|walk| - 1 - j] != UuidsOf(walk)[|walk| - 1 - i];
    }
  }

  /** Its expansion is the one of the selection, also without an assistant's record. */
  lemma {:induction false} PathExpansion(table: seq<Record>, linked: Records, leaf: Token, walk: seq<Record>, expanded: seq<Record>)
    requires Lists(table, linked) && EndedPath(linked, leaf, walk) && Expands(table, Reverse(walk), expanded)
    ensures Expansion(table, Reverse(walk), expanded)
  {
    var selected := Reverse(walk);
    if !AnyAssistant(selected) {
      ReverseDistinct(walk);
      forall i | 0 <= i < |selected| ensures ResponseOf(table, selected[i].uuid).None? {
        EndedPathAt(linked, leaf, walk, |walk| - 1 - i);
        TableAt(table, linked, selected[i].uuid);
        hide ResponseOf, ResultParent;
        assert !selected[i].kind.Assistant?;
      }
      hide *;
      NothingToExpand(table, selected);
    }
  }

  /** On the path each tool result comes right after its parent, but for the record the path ends at. */
  lemma {:induction false} AfterItsParent(table: seq<Record>, linked: Records, leaf: Token, walk: seq<Record>, j: nat, response: Response)
    requires Lists(table, linked) && EndedPath(linked, leaf, walk) && 0 < j < |walk|
    requires ResultOf(table, Reverse(walk)[j].uuid) == Some(response)
    ensures Reached(table, Reverse(walk)[..j], response)
  {
    var k := |walk| - 1 - j;
    EndedPathAt(linked, leaf, walk, k);
    EndedPathAt(linked, leaf, walk, k + 1);
    TableAt(table, linked, walk[k].uuid);
    hide ResponseOf, ResultParent, EndedPath, Lists;
    assert Reverse(walk)[..j][j - 1] == walk[k + 1];
  }

  /** Every block stands before its response's tool results. */
  ghost predicate BlocksFirst(table: seq<Record>, records: seq<Record>) {
    forall p, q, response ::
      0 <= p < |records| && 0 <= q < |records| && ResponseOf(table, records[p].uuid) == Some(response) && ResultOf(table, records[q].uuid) == Some(response)
      ==> p < q
  }

  lemma {:induction false} OnlyTheFirstEarly(table: seq<Record>, linked: Records, leaf: Token, walk: seq<Record>, uuid: Token, response: Response)
    requires Lists(table, linked) && EndedPath(linked, leaf, walk) && ResultOf(table, uuid) == Some(response)
    ensures Early(table, Reverse(walk), uuid, response) <==> uuid == walk[|walk| - 1].uuid
  {
    assert |walk| > 0;
    hide ResponseOf, ResultParent, EndedPath, Lists;
    var selected := Reverse(walk);
    assert selected[0] == walk[|walk| - 1];
    assert !Reached(table, selected[..0], response);
    forall j | 0 < j < |selected| && selected[j].uuid == uuid ensures Reached(table, selected[..j], response) { AfterItsParent(table, linked, leaf, walk, j, response); }
  }

  /**
   * A walk that passes no compaction: in its expansion every block stands before its response's tool results exactly when
   * the record the path ends at is no tool result of a block. So it is when that record has no parent, or one the file lacks.
   */
  lemma {:induction false} BlocksFirstOnPath(table: seq<Record>, linked: Records, leaf: Token, walk: seq<Record>, expanded: seq<Record>)
    requires Lists(table, linked) && EndedPath(linked, leaf, walk) && Expansion(table, Reverse(walk), expanded)
    ensures var root := walk[|walk| - 1];
            && (BlocksFirst(table, expanded) <==> ResultOf(table, root.uuid).None?)
            && (root.parent.None? || root.parent.value !in linked ==> ResultOf(table, root.uuid).None?)
  {
    var root := walk[|walk| - 1];
    EndedPathAt(linked, leaf, walk, |walk| - 1);
    TableAt(table, linked, root.uuid);
    if root.parent.Some? { TableAt(table, linked, root.parent.value); }
    if ResultOf(table, root.uuid).None? {
      hide ResponseOf, ResultOf, EndedPath, Lists, Early;
      forall p, q, response | 0 <= p < |expanded| && 0 <= q < |expanded| && ResponseOf(table, expanded[p].uuid) == Some(response) && ResultOf(table, expanded[q].uuid) == Some(response)
        ensures p < q
      {
        OnlyTheFirstEarly(table, linked, leaf, walk, expanded[q].uuid, response);
      }
    } else {
      RootsBlockAfter(table, linked, leaf, walk, expanded, ResultOf(table, root.uuid).value);
    }
  }

  lemma {:induction false} RootsBlockAfter(table: seq<Record>, linked: Records, leaf: Token, walk: seq<Record>, expanded: seq<Record>, response: Response)
    requires Lists(table, linked) && EndedPath(linked, leaf, walk) && Whole(table, Reverse(walk), expanded) && InOrder(table, Reverse(walk), expanded)
    requires ResultOf(table, walk[|walk| - 1].uuid) == Some(response)
    ensures !BlocksFirst(table, expanded)
  {
    var root, selected := walk[|walk| - 1], Reverse(walk);
    OnlyTheFirstEarly(table, linked, leaf, walk, root.uuid, response);
    EndedPathAt(linked, leaf, walk, |walk| - 1);
    TableAt(table, linked, root.uuid);
    var parent := root.parent.value;
    TableAt(table, linked, parent);
    var k :| 0 <= k < |walk| && walk[k].uuid == parent;
    EndedPathAt(linked, leaf, walk, k);
    hide ResponseOf, ResultParent, EndedPath, Lists, Early;
    assert selected[|walk| - 1 - k].uuid == parent;
    assert Reached(table, selected, response);
    HasAt(selected, 0);
    assert Has(expanded, parent) && Has(expanded, root.uuid);
    var p :| 0 <= p < |expanded| && expanded[p].uuid == parent;
    var q :| 0 <= q < |expanded| && expanded[q].uuid == root.uuid;
    assert !(p < q);
  }

  // ---- what is shown of it ----

  /** Where a list's members that pass are. */
  function KeptAt<T>(p: T -> bool, s: seq<T>): seq<nat> {
    if s == [] then [] else KeptAt(p, s[..|s| - 1]) + if p(s[|s| - 1]) then [|s| - 1] else []
  }

  ghost predicate Climbs(at: seq<nat>, below: nat) {
    (forall i :: 0 <= i < |at| ==> at[i] < below) && forall i, j :: 0 <= i < j < |at| ==> at[i] < at[j]
  }

  lemma {:induction false} KeptIs<T>(p: T -> bool, s: seq<T>)
    ensures var at := KeptAt(p, s); Climbs(at, |s|) && |at| == |Filter(p, s)| && forall i :: 0 <= i < |at| ==> at[i] < |s| && Filter(p, s)[i] == s[at[i]]
  {
    if s != [] {
      var before, last := s[..|s| - 1], s[|s| - 1];
      KeptIs(p, before);
      assert s == before + [last];
      FilterConcat(p, before, [last]);
      assert Filter(p, [last]) == if p(last) then [last] else [];
      hide Filter;
    }
  }

  /** What holds of the expansion's records in their order holds of the visible ones. */
  lemma {:induction false} VisibleInOrder(table: seq<Record>, selected: seq<Record>, expanded: seq<Record>)
    requires Expansion(table, selected, expanded)
    ensures var records := Filter(Visible, expanded);
            && Distinct(UuidsOf(records)) && InOrder(table, selected, records) && InTurn(table, selected, records) && Arranged(table, selected, records)
            && (BlocksFirst(table, expanded) ==> BlocksFirst(table, records))
  {
    KeptIs(Visible, expanded);
    assert Distinct(UuidsOf(expanded));
    var records, at := Filter(Visible, expanded), KeptAt(Visible, expanded);
    hide *;
    DistinctOf(expanded, records, at);
    InOrderOfSome(table, selected, expanded, records, at);
    InTurnOf(table, selected, expanded, records, at);
    ArrangedOf(table, selected, expanded, records, at);
    if BlocksFirst(table, expanded) { BlocksFirstOf(table, expanded, records, at); }
  }

  lemma {:induction false} DistinctOf(expanded: seq<Record>, records: seq<Record>, at: seq<nat>)
    requires Distinct(UuidsOf(expanded)) && Climbs(at, |expanded|) && |at| == |records| && forall i :: 0 <= i < |at| ==> at[i] < |expanded| && records[i] == expanded[at[i]]
    ensures Distinct(UuidsOf(records))
  {
    forall i, j | 0 <= i < j < |records| ensures UuidsOf(records)[i] != UuidsOf(records)[j] { assert UuidsOf(expanded)[at[i]] != UuidsOf(expanded)[at[j]]; }
  }

  lemma {:induction false} InOrderOfSome(table: seq<Record>, selected: seq<Record>, expanded: seq<Record>, records: seq<Record>, at: seq<nat>)
    requires InOrder(table, selected, expanded) && Climbs(at, |expanded|) && |at| == |records| && forall i :: 0 <= i < |at| ==> at[i] < |expanded| && records[i] == expanded[at[i]]
    ensures InOrder(table, selected, records)
  {
    hide ResponseOf, ResultOf, Early;
    forall p, q, response | 0 <= p < |records| && 0 <= q < |records| && ResponseOf(table, records[p].uuid) == Some(response) && ResultOf(table, records[q].uuid) == Some(response)
      ensures p < q <==> !Early(table, selected, records[q].uuid, response)
    {
      assert p < q ==> at[p] < at[q];
      assert q < p ==> at[q] < at[p];
    }
  }

  lemma {:induction false} ArrangedOf(table: seq<Record>, selected: seq<Record>, expanded: seq<Record>, records: seq<Record>, at: seq<nat>)
    requires Arranged(table, selected, expanded) && Climbs(at, |expanded|) && |at| == |records| && forall i :: 0 <= i < |at| ==> at[i] < |expanded| && records[i] == expanded[at[i]]
    ensures Arranged(table, selected, records)
  {
    hide Right;
    forall p, q, response | 0 <= p < q < |records| ensures Right(table, selected, records[p], records[q], response) { assert at[p] < at[q]; }
  }

  lemma {:induction false} InTurnOf(table: seq<Record>, selected: seq<Record>, expanded: seq<Record>, records: seq<Record>, at: seq<nat>)
    requires InTurn(table, selected, expanded) && Climbs(at, |expanded|) && |at| == |records| && forall i :: 0 <= i < |at| ==> at[i] < |expanded| && records[i] == expanded[at[i]]
    ensures InTurn(table, selected, records)
  {
    hide Brings, Brought;
    forall p: nat, q: nat, i: nat | p < q < |records| && i < |selected| && Brings(table, selected[i], records[q].uuid)
      ensures Brought(table, selected, records[p].uuid, i + 1)
    {
      assert at[p] < at[q];
      assert Brings(table, selected[i], expanded[at[q]].uuid);
    }
  }

  lemma {:induction false} BlocksFirstOf(table: seq<Record>, expanded: seq<Record>, records: seq<Record>, at: seq<nat>)
    requires BlocksFirst(table, expanded) && Climbs(at, |expanded|) && |at| == |records| && forall i :: 0 <= i < |at| ==> at[i] < |expanded| && records[i] == expanded[at[i]]
    ensures BlocksFirst(table, records)
  {
    hide ResponseOf, ResultOf;
    forall p, q, response | 0 <= p < |records| && 0 <= q < |records| && ResponseOf(table, records[p].uuid) == Some(response) && ResultOf(table, records[q].uuid) == Some(response)
      ensures p < q
    {
      assert at[p] < at[q];
    }
  }

  /** On the path, or a block or a tool result of a response with a block on it. */
  ghost predicate Told(table: seq<Record>, path: seq<Token>, uuid: Token) {
    uuid in path || exists k :: 0 <= k < |path| && OfOneResponse(table, path[k], uuid)
  }

  ghost predicate OfOneResponse(table: seq<Record>, block: Token, uuid: Token) {
    ResponseOf(table, block).Some? && (ResponseOf(table, uuid) == ResponseOf(table, block) || ResultOf(table, uuid) == ResponseOf(table, block))
  }

  /** The visible records of the path and its responses, each once, as relinked. */
  ghost predicate Shows(table: seq<Record>, linked: Records, path: seq<Token>, records: seq<Record>) {
    && Distinct(UuidsOf(records))
    && (forall p :: 0 <= p < |records| ==> records[p].uuid in linked && records[p] == linked[records[p].uuid])
    && forall uuid :: Has(records, uuid) <==> uuid in linked && Visible(linked[uuid]) && Told(table, path, uuid)
  }

  lemma {:induction false} BroughtIsTold(table: seq<Record>, walk: seq<Record>, uuid: Token)
    ensures Brought(table, Reverse(walk), uuid, |walk|) <==> Told(table, UuidsOf(walk), uuid)
  {
    var selected, path := Reverse(walk), UuidsOf(walk);
    hide ResponseOf, ResultOf;
    if Brought(table, selected, uuid, |walk|) {
      var i: nat :| i < |selected| && Brings(table, selected[i], uuid);
      assert path[|walk| - 1 - i] == selected[i].uuid;
      assert OfOneResponse(table, path[|walk| - 1 - i], uuid) || uuid == selected[i].uuid;
    }
    if Told(table, path, uuid) {
      var k :| 0 <= k < |path| && (path[k] == uuid || OfOneResponse(table, path[k], uuid));
      assert selected[|walk| - 1 - k] == walk[k] && walk[k].uuid == path[k];
      if path[k] != uuid {
        var response := ResponseOf(table, walk[k].uuid);
        assert OfOneResponse(table, path[k], uuid);
        assert response.Some? && response == Some(response.value);
        assert ResponseOf(table, uuid) == response || ResultOf(table, uuid) == response;
        assert Brings(table, walk[k], uuid);
      }
    }
  }

  /** Each record of the expansion is the table's. */
  lemma {:induction false} ExpandedIsLinked(table: seq<Record>, linked: Records, leaf: Token, walk: seq<Record>, expanded: seq<Record>, p: nat)
    requires Lists(table, linked) && EndedPath(linked, leaf, walk) && AllOfTable(table, Reverse(walk), expanded) && p < |expanded|
    ensures expanded[p].uuid in linked && linked[expanded[p].uuid] == expanded[p]
  {
    assert OfTable(table, Reverse(walk), expanded[p]);
    if expanded[p] in Reverse(walk) {
      var i :| 0 <= i < |walk| && Reverse(walk)[i] == expanded[p];
      EndedPathAt(linked, leaf, walk, |walk| - 1 - i);
    }
  }

  lemma {:induction false} VisibleAre(table: seq<Record>, linked: Records, leaf: Token, walk: seq<Record>, expanded: seq<Record>)
    requires Lists(table, linked) && EndedPath(linked, leaf, walk) && Expansion(table, Reverse(walk), expanded)
    ensures Shows(table, linked, UuidsOf(walk), Filter(Visible, expanded))
  {
    var records := Filter(Visible, expanded);
    VisibleInOrder(table, Reverse(walk), expanded);
    assert Whole(table, Reverse(walk), expanded) && AllOfTable(table, Reverse(walk), expanded);
    hide *;
    forall p | 0 <= p < |expanded| ensures expanded[p].uuid in linked && linked[expanded[p].uuid] == expanded[p] {
      ExpandedIsLinked(table, linked, leaf, walk, expanded, p);
    }
    forall record ensures record in records <==> record in expanded && Visible(record) { FilterMember(Visible, expanded, record); }
    forall uuid ensures Has(records, uuid) <==> uuid in linked && Visible(linked[uuid]) && Told(table, UuidsOf(walk), uuid) {
      HasIsBrought(table, Reverse(walk), expanded, uuid);
      BroughtIsTold(table, walk, uuid);
      HasVisible(linked, expanded, records, uuid);
    }
    ShowsWhen(table, linked, UuidsOf(walk), expanded, records);
  }

  lemma {:induction false} HasVisible(linked: Records, expanded: seq<Record>, records: seq<Record>, uuid: Token)
    requires forall p :: 0 <= p < |expanded| ==> expanded[p].uuid in linked && linked[expanded[p].uuid] == expanded[p]
    requires forall record :: record in records <==> record in expanded && Visible(record)
    ensures Has(records, uuid) <==> uuid in linked && Visible(linked[uuid]) && Has(expanded, uuid)
  {
    hide Visible;
    if Has(records, uuid) {
      var i :| 0 <= i < |records| && records[i].uuid == uuid;
      assert records[i] in expanded;
      var p :| 0 <= p < |expanded| && expanded[p] == records[i];
    }
    if uuid in linked && Visible(linked[uuid]) && Has(expanded, uuid) {
      var p :| 0 <= p < |expanded| && expanded[p].uuid == uuid;
      assert expanded[p] in records;
      var i :| 0 <= i < |records| && records[i] == expanded[p];
    }
  }

  lemma {:induction false} ShowsWhen(table: seq<Record>, linked: Records, path: seq<Token>, expanded: seq<Record>, records: seq<Record>)
    requires Distinct(UuidsOf(records))
    requires forall p :: 0 <= p < |expanded| ==> expanded[p].uuid in linked && linked[expanded[p].uuid] == expanded[p]
    requires forall record :: record in records <==> record in expanded && Visible(record)
    requires forall uuid :: Has(records, uuid) <==> uuid in linked && Visible(linked[uuid]) && Told(table, path, uuid)
    ensures Shows(table, linked, path, records)
  {
    hide Visible, Told, Has;
    forall p | 0 <= p < |records| ensures records[p].uuid in linked && records[p] == linked[records[p].uuid] {
      assert records[p] in expanded;
    }
  }

  /**
   * The history of a walk that passes no compaction: of the path up the relinked parents from the leaf, and of the whole
   * responses with a block on it, the visible records, each once. They stand in the path's order from its end to the leaf,
   * each response at its first block on the path; a response's blocks in their order before its tool results in the file's,
   * unless the record the path ends at is one of these. It is truncated when the path ends at a parent the file lacks.
   */
  lemma {:induction false} HistoryOfPath(chain: seq<Record>, linked: Records, table: seq<Record>, history: History, leaf: Token, walk: seq<Record>, expanded: seq<Record>)
    requires TableOf(linked, chain) && Lists(table, linked) && IsHistory(chain, linked, table, false, history, leaf, walk, expanded) && history.physicalFrom.None?
    ensures UuidsOf(walk) == PathUp(linked, leaf, {}) && Shows(table, linked, UuidsOf(walk), history.records)
    ensures InTurn(table, Reverse(walk), history.records) && InOrder(table, Reverse(walk), history.records) && Arranged(table, Reverse(walk), history.records)
    ensures var root := walk[|walk| - 1];
            && (history.truncated <==> root.parent.Some? && root.parent.value !in linked)
            && (ResultOf(table, root.uuid).None? ==> BlocksFirst(table, history.records))
            && (history.truncated ==> BlocksFirst(table, history.records))
  {
    assert EndedPath(linked, leaf, walk) && Expands(table, Reverse(walk), expanded) && history.records == Filter(Visible, expanded);
    assert history.truncated <==> walk[|walk| - 1].parent.Some? && walk[|walk| - 1].parent.value !in linked by { hide Filter, Visible, LastWins, KeepsMissing, Expands, PathUp; }
    hide *;
    PathExpansion(table, linked, leaf, walk, expanded);
    VisibleInOrder(table, Reverse(walk), expanded);
    VisibleAre(table, linked, leaf, walk, expanded);
    BlocksFirstOnPath(table, linked, leaf, walk, expanded);
  }

  // ---- which kinds of record are shown ----

  /**
   * Of the expansion exactly these are shown: records of no sidechain and no team; no attachment but a queued command's; no
   * meta record but another agent's user record or a queued command.
   */
  lemma {:induction false} ShownKinds(chain: seq<Record>, linked: Records, table: seq<Record>, physical: bool, history: History, leaf: Token, walk: seq<Record>,
                                      expanded: seq<Record>, record: Record)
    requires IsHistory(chain, linked, table, physical, history, leaf, walk, expanded)
    ensures record in history.records <==>
            && record in expanded && !record.isSidechain && !record.inTeam
            && (match record.kind
                case Attachment(queuedCommand) => queuedCommand
                case User(_, fromAgent) => record.isMeta ==> fromAgent
                case _ => !record.isMeta)
  {
    hide Walked, Expands, LastWins, KeepsMissing, Onward, Filter;
    FilterMember(Visible, expanded, record);
  }

  /** A compaction that follows its anchor in the file, and a message it kept is not there, or an end of the range it kept. */
  ghost predicate Lacks(kind: Kind, inFile: set<Token>) {
    match kind
    case Boundary(_, messages, segment) =>
      || (messages.Some? && messages.value.anchor in inFile && exists m :: 0 <= m < |messages.value.uuids| && messages.value.uuids[m] !in inFile)
      || (segment.Some? && segment.value.anchor in inFile && !({segment.value.head, segment.value.tail} <= inFile))
    case _ => false
  }

  /** A history lacks kept messages exactly when its walk passes such a compaction, as the file has it last. */
  lemma {:induction false} PartialTold(chain: seq<Record>, linked: Records, table: seq<Record>, physical: bool, history: History, leaf: Token, walk: seq<Record>, expanded: seq<Record>)
    requires IsHistory(chain, linked, table, physical, history, leaf, walk, expanded)
    ensures history.partialCompaction <==>
            exists i, k :: 0 <= i < |walk| && 0 <= k < |chain| && chain[k].uuid == walk[i].uuid && (forall l :: k < l < |chain| ==> chain[l].uuid != chain[k].uuid)
                           && Lacks(chain[k].kind, UuidSet(chain))
  {
    hide Walked, Expands, Filter, Visible, Onward, WrittenBefore, Reverse, KeepsMissing;
    forall k | 0 <= k < |chain| ensures KeepsMissing(LastWins(chain), chain[k].kind) <==> Lacks(chain[k].kind, UuidSet(chain)) {
      KeepsLacks(chain, chain[k].kind);
    }
    forall uuid | uuid in UuidSet(chain) ensures uuid in LastWins(chain) && exists k :: LastOf(chain, k, uuid) && LastWins(chain)[uuid] == chain[k] {
      InFile(chain, uuid);
      assert LastOf(chain, Position(chain, uuid), uuid);
    }
    hide Lacks;
    if history.partialCompaction {
      var uuid :| uuid in UuidSet(walk) && uuid in UuidSet(chain) && KeepsMissing(LastWins(chain), LastWins(chain)[uuid].kind);
      var k :| LastOf(chain, k, uuid) && LastWins(chain)[uuid] == chain[k];
      var i :| 0 <= i < |walk| && walk[i].uuid == uuid;
    }
    if i, k :| 0 <= i < |walk| && 0 <= k < |chain| && chain[k].uuid == walk[i].uuid && (forall l :: k < l < |chain| ==> chain[l].uuid != chain[k].uuid)
                           && Lacks(chain[k].kind, UuidSet(chain)) {
      var uuid := walk[i].uuid;
      assert uuid in UuidSet(chain) && uuid in UuidSet(walk);
      var last :| LastOf(chain, last, uuid) && LastWins(chain)[uuid] == chain[last];
      assert last == k;
    }
  }

  ghost predicate LastOf(chain: seq<Record>, k: int, uuid: Token) {
    0 <= k < |chain| && chain[k].uuid == uuid && forall l :: k < l < |chain| ==> chain[l].uuid != uuid
  }

  lemma {:induction false} KeepsLacks(chain: seq<Record>, kind: Kind)
    ensures KeepsMissing(LastWins(chain), kind) <==> Lacks(kind, UuidSet(chain))
  {
    hide Position;
  }

  /** On a path that passes no compaction every other user, assistant or system record is shown, and so is every message another agent sent. */
  lemma {:induction false} PathShown(chain: seq<Record>, linked: Records, table: seq<Record>, history: History, leaf: Token, walk: seq<Record>, expanded: seq<Record>, uuid: Token)
    requires TableOf(linked, chain) && Lists(table, linked) && IsHistory(chain, linked, table, false, history, leaf, walk, expanded) && history.physicalFrom.None?
    requires uuid in PathUp(linked, leaf, {}) && uuid in linked
    ensures var record := linked[uuid];
            Has(history.records, uuid) <==>
            && !record.isSidechain && !record.inTeam
            && if record.kind.Attachment? then record.kind.queuedCommand
               else record.isMeta ==> record.kind.User? && record.kind.fromAgent
  {
    HistoryOfPath(chain, linked, table, history, leaf, walk, expanded);
    hide IsHistory, Lists, TableOf, InTurn, InOrder, Arranged, BlocksFirst, PathUp, Has;
    assert Told(table, UuidsOf(walk), uuid);
  }

  /** Each record below the one before it, each uuid once, and no compaction. */
  ghost predicate Straight(chain: seq<Record>) {
    && chain != [] && Distinct(UuidsOf(chain)) && chain[0].parent.None?
    && (forall i :: 0 < i < |chain| ==> chain[i].parent == Some(chain[i - 1].uuid)) && forall i :: 0 <= i < |chain| ==> !chain[i].kind.Boundary?
  }

  lemma {:induction false} StraightTable(chain: seq<Record>)
    requires Straight(chain)
    ensures AllIn(FirstOrder(chain), LastWins(chain)) && LinkedOf(chain) == LastWins(chain)
    ensures forall i :: 0 <= i < |chain| ==> chain[i].uuid in LastWins(chain) && LastWins(chain)[chain[i].uuid] == chain[i]
    ensures forall uuid :: uuid in LastWins(chain) ==> !LastWins(chain)[uuid].kind.Boundary?
  {
    StraightLast(chain);
    LinkedIs(chain);
    hide FirstOrder, Relinked, LastWins, WrittenBefore;
    NothingRelinked(LastWins(chain), FirstOrder(chain));
  }

  lemma {:induction false} StraightLast(chain: seq<Record>)
    requires Straight(chain)
    ensures forall i :: 0 <= i < |chain| ==> chain[i].uuid in LastWins(chain) && LastWins(chain)[chain[i].uuid] == chain[i]
    ensures forall uuid :: uuid in LastWins(chain) ==> !LastWins(chain)[uuid].kind.Boundary?
  {
    hide WrittenBefore;
    forall i | 0 <= i < |chain| ensures chain[i].uuid in LastWins(chain) && LastWins(chain)[chain[i].uuid] == chain[i] {
      assert chain[i].uuid in UuidSet(chain);
      InFile(chain, chain[i].uuid);
      var p := Position(chain, chain[i].uuid);
      assert UuidsOf(chain)[p] == UuidsOf(chain)[i];
    }
    forall uuid | uuid in LastWins(chain) ensures !LastWins(chain)[uuid].kind.Boundary? { InFile(chain, uuid); }
  }

  lemma {:induction false} StraightPath(chain: seq<Record>)
    requires Straight(chain)
    ensures PathUp(LastWins(chain), chain[|chain| - 1].uuid, {}) == UuidsOf(Reverse(chain))
  {
    StraightTable(chain);
    hide FirstOrder, LastWins, LinkedOf;
    var walk := Reverse(chain);
    ReverseDistinct(chain);
    StraightEnds(chain, LastWins(chain));
    hide EndedPath, PathUp, Straight;
    WalkIsPath(LastWins(chain), walk, 0);
    assert walk[..0] == [] && walk[0..] == walk && UuidSet([]) == {};
  }

  lemma {:induction false} StraightEnds(chain: seq<Record>, linked: Records)
    requires Straight(chain) && Distinct(UuidsOf(Reverse(chain)))
    requires forall i :: 0 <= i < |chain| ==> chain[i].uuid in linked && linked[chain[i].uuid] == chain[i]
    ensures EndedPath(linked, chain[|chain| - 1].uuid, Reverse(chain))
  {
    hide Distinct, UuidsOf, UuidSet;
    var walk := Reverse(chain);
    assert forall k :: 0 <= k < |walk| ==> walk[k] == chain[|chain| - 1 - k];
  }

  /** The history of such a file from its last record: which of its records it shows. */
  lemma {:induction false} StraightShows(chain: seq<Record>, history: History, walk: seq<Record>, expanded: seq<Record>, i: nat)
    requires Straight(chain) && i < |chain| && AllIn(FirstOrder(chain), LastWins(chain)) && AllIn(FirstOrder(chain), LinkedOf(chain))
    requires IsHistory(chain, LinkedOf(chain), InOrderOf(FirstOrder(chain), LinkedOf(chain)), false, history, chain[|chain| - 1].uuid, walk, expanded)
    ensures Has(history.records, chain[i].uuid) <==>
            && !chain[i].isSidechain && !chain[i].inTeam
            && if chain[i].kind.Attachment? then chain[i].kind.queuedCommand
               else chain[i].isMeta ==> chain[i].kind.User? && chain[i].kind.fromAgent
  {
    var linked, table, leaf := LinkedOf(chain), InOrderOf(FirstOrder(chain), LinkedOf(chain)), chain[|chain| - 1].uuid;
    LinkedIs(chain);
    StraightTable(chain);
    StraightPath(chain);
    OnTheWay(chain, i);
    NoJump(chain, linked, leaf, walk, history.physicalFrom) by { hide LastWins, LinkedOf, FirstOrder, InOrderOf, Expands, Filter, Visible, KeepsMissing; }
    hide *;
    PathShown(chain, linked, table, history, leaf, walk, expanded, chain[i].uuid);
  }

  lemma {:induction false} OnTheWay(chain: seq<Record>, i: nat)
    requires i < |chain|
    ensures chain[i].uuid in UuidsOf(Reverse(chain))
  {
    assert UuidsOf(Reverse(chain))[|chain| - 1 - i] == chain[i].uuid;
  }

  lemma {:induction false} NoJump(chain: seq<Record>, linked: Records, leaf: Token, walk: seq<Record>, physicalFrom: Option<Token>)
    requires Walked(chain, linked, leaf, false, walk, physicalFrom) && forall uuid :: uuid in linked ==> !linked[uuid].kind.Boundary?
    ensures physicalFrom.None?
  {
    hide StopsWritten, EndedPath, PathUp, AsWritten;
  }

  /** A record of each kind: a prompt; a meta record; a sidechain's; a team's; an attachment; a queued command; another agent's message; an answer. */
  function KindsFile(u: seq<Token>): seq<Record>
    requires |u| == 8
  {
    [Record(u[0], None, User(false, false), false, false, false), Record(u[1], Some(u[0]), User(false, false), true, false, false),
     Record(u[2], Some(u[1]), Assistant(None, None), false, true, false), Record(u[3], Some(u[2]), Assistant(None, None), false, false, true),
     Record(u[4], Some(u[3]), Attachment(false), false, false, false), Record(u[5], Some(u[4]), Attachment(true), true, false, false),
     Record(u[6], Some(u[5]), User(false, true), true, false, false), Record(u[7], Some(u[6]), Assistant(None, None), false, false, false)]
  }

  lemma {:induction false} KindsStraight(u: seq<Token>)
    requires |u| == 8 && Distinct(u)
    ensures Straight(KindsFile(u))
  {
    assert UuidsOf(KindsFile(u)) == u;
    hide Distinct, UuidsOf;
  }

  lemma {:induction false} KindsShown(u: seq<Token>, history: History, walk: seq<Record>, expanded: seq<Record>)
    requires |u| == 8 && Distinct(u)
    requires var chain := KindsFile(u);
             && AllIn(FirstOrder(chain), LastWins(chain)) && AllIn(FirstOrder(chain), LinkedOf(chain))
             && IsHistory(chain, LinkedOf(chain), InOrderOf(FirstOrder(chain), LinkedOf(chain)), false, history, u[7], walk, expanded)
    ensures forall i :: 0 <= i < 8 ==> (Has(history.records, u[i]) <==> i in {0, 5, 6, 7})
  {
    var chain := KindsFile(u);
    hide IsHistory, LinkedOf, LastWins, FirstOrder, InOrderOf, Has;
    KindsStraight(u);
    hide Straight;
    forall i | 0 <= i < 8 ensures Has(history.records, u[i]) <==> i in {0, 5, 6, 7} { StraightShows(chain, history, walk, expanded, i); }
  }

  // ---- a file in order ----

  /** Up the path the records stand earlier and earlier in the file. */
  lemma {:induction false} PathGoesBack(chain: seq<Record>, leaf: Token, walk: seq<Record>, i: nat, k: nat)
    requires WellOrdered(chain) && EndedPath(LastWins(chain), leaf, walk) && i <= k < |walk|
    ensures walk[i].uuid in UuidSet(chain) && walk[k].uuid in UuidSet(chain) && Position(chain, walk[k].uuid) <= Position(chain, walk[i].uuid)
    decreases k - i
  {
    EndedPathAt(LastWins(chain), leaf, walk, k);
    if i < k {
      PathGoesBack(chain, leaf, walk, i, k - 1);
      EndedPathAt(LastWins(chain), leaf, walk, k - 1);
      ParentBefore(chain, walk[k - 1].uuid, walk[k].uuid);
    }
  }

  lemma {:induction false} ParentBefore(chain: seq<Record>, child: Token, parent: Token)
    requires WellOrdered(chain) && child in UuidSet(chain) && parent in UuidSet(chain) && LastWins(chain)[child].parent == Some(parent)
    ensures Position(chain, parent) < Position(chain, child)
  {
    InFile(chain, child);
    InFile(chain, parent);
    hide WrittenBefore;
    assert chain[Position(chain, child)].parent == Some(chain[Position(chain, parent)].uuid);
  }

  /** In a file of distinct uuids, parents before their children and no compactions, every block stands before its results. */
  lemma {:induction false} OrderedFileBlocksFirst(chain: seq<Record>, table: seq<Record>, leaf: Token, walk: seq<Record>, expanded: seq<Record>)
    requires WellOrdered(chain) && Lists(table, LastWins(chain)) && EndedPath(LastWins(chain), leaf, walk) && Expansion(table, Reverse(walk), expanded)
    ensures BlocksFirst(table, expanded)
  {
    var linked, root := LastWins(chain), walk[|walk| - 1];
    hide LastWins, Position, WellOrdered, Lists, Expansion, BlocksFirst, ResultOf, ResponseOf;
    EndedPathAt(linked, leaf, walk, |walk| - 1);
    if root.parent.Some? && root.parent.value in linked {
      var i :| 0 <= i < |walk| && walk[i].uuid == root.parent.value;
      PathGoesBack(chain, leaf, walk, i, |walk| - 1);
      ParentBefore(chain, root.uuid, root.parent.value);
      assert false;
    }
    BlocksFirstOnPath(table, linked, leaf, walk, expanded);
  }

  // ---- where a tool result comes first ----

  /** A response's one block below its own tool result: parents in a cycle. */
  function Cycle(block: Token, result: Token, message: Token): seq<Record> {
    [Record(block, Some(result), Assistant(Some(message), None), false, false, false), Record(result, Some(block), User(true, false), false, false, false)]
  }

  lemma {:induction false} CycleLinked(block: Token, result: Token, message: Token)
    requires block != result
    ensures var chain := Cycle(block, result, message);
            && AllIn(FirstOrder(chain), LastWins(chain)) && LinkedOf(chain) == LastWins(chain) && UuidSet(chain) == {block, result}
            && LastWins(chain)[block] == chain[0] && LastWins(chain)[result] == chain[1]
  {
    var chain := Cycle(block, result, message);
    LinkedIs(chain);
    assert chain[0].uuid == block && chain[1].uuid == result;
    assert UuidSet(chain) == {block, result} by { hide FirstOrder, LastWins, Relinked; }
    InFile(chain, block);
    InFile(chain, result);
    hide FirstOrder, Relinked;
    assert WrittenBefore(chain, block, 2).value == 0;
    NothingRelinked(LastWins(chain), FirstOrder(chain));
  }

  /** Its history from the block shows the tool result before the block. */
  lemma {:induction false} ResultComesFirst(block: Token, result: Token, message: Token, expanded: seq<Record>)
    requires block != result
    requires var chain := Cycle(block, result, message); AllIn(FirstOrder(chain), LastWins(chain)) && Expansion(chain, Reverse(chain), expanded)
    ensures var chain := Cycle(block, result, message); Lists(chain, LinkedOf(chain)) && EndedPath(LinkedOf(chain), block, chain) && !BlocksFirst(chain, expanded)
  {
    var chain := Cycle(block, result, message);
    CycleLinked(block, result, message);
    hide FirstOrder, LastWins, Relinked, LinkedOf, Expansion;
    var linked := LinkedOf(chain);
    assert UuidsOf(chain)[0] != UuidsOf(chain)[1];
    assert Lists(chain, linked) && EndedPath(linked, block, chain);
    assert ResultOf(chain, result) == Some(Response(0, message)) by { CycleResponse(block, result, message); }
    hide *;
    BlocksFirstOnPath(chain, linked, block, chain, expanded);
    CycleEnd(block, result, message);
  }

  lemma {:induction false} CycleEnd(block: Token, result: Token, message: Token)
    ensures var chain := Cycle(block, result, message); |chain| == 2 && chain[|chain| - 1].uuid == result
  {}

  lemma {:induction false} CycleResponse(block: Token, result: Token, message: Token)
    requires block != result
    ensures ResultOf(Cycle(block, result, message), result) == Some(Response(0, message))
  {
    var chain := Cycle(block, result, message);
    assert WrittenBefore(chain, block, 2) == Some(0) && WrittenBefore(chain, result, 2) == Some(1);
    assert chain[..0] == [];
  }
}
