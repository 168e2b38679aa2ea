/**
 * Expanding the walk's records to their whole responses (src/claude/native/history.ts `siblingBlocks`, 68-134): every
 * selected uuid once, in the order of the selected records that bring it, and each response's blocks in their order before
 * its tool results in the file's, but for those selected before all of them.
 */
module Siblings {
  import opened Basics
  import opened Relink
  import opened BranchWalk
  import opened Sorting

  /** An API message's records, as written: one message never spans a prompt. */
  datatype Response = Response(prompts: nat, messageId: Token)

  predicate IsToolResult(record: Record) { record.kind.User? && record.kind.toolResult && record.parent.Some? }

  predicate IsPrompt(record: Record) { record.kind.User? && !record.isMeta && !IsToolResult(record) }

  function Prompts(table: seq<Record>): nat {
    if table == [] then 0 else Prompts(table[..|table| - 1]) + if IsPrompt(table[|table| - 1]) then 1 else 0
  }

  function ResponseAt(table: seq<Record>, i: nat): Option<Response>
    requires i < |table|
  {
    if table[i].kind.Assistant? && table[i].kind.messageId.Some? then Some(Response(Prompts(table[..i]), table[i].kind.messageId.value)) else None
  }

  /** The response whose block a record is. */
  function ResponseOf(table: seq<Record>, uuid: Token): Option<Response> {
    match WrittenBefore(table, uuid, |table|) case Some(i) => ResponseAt(table, i) case None => None
  }

  /** The parent a record is a tool result of. */
  function ResultParent(table: seq<Record>, uuid: Token): Option<Token> {
    match WrittenBefore(table, uuid, |table|)
    case Some(i) => if IsToolResult(table[i]) then table[i].parent else None
    case None => None
  }

  /** The response that a record is a tool result of. */
  function ResultOf(table: seq<Record>, uuid: Token): Option<Response> {
    match ResultParent(table, uuid) case Some(parent) => ResponseOf(table, parent) case None => None
  }

  lemma {:induction false} BlockIsNoResult(table: seq<Record>, uuid: Token)
    requires ResponseOf(table, uuid).Some?
    ensures ResultParent(table, uuid).None? && uuid in UuidSet(table)
  {}

  // ---- grouping the records ----

  /** A response's blocks, in the file's order. */
  function BlocksOf(table: seq<Record>, response: Response): seq<Record> {
    if table == [] then []
    else BlocksOf(table[..|table| - 1], response) + if ResponseAt(table, |table| - 1) == Some(response) then [table[|table| - 1]] else []
  }

  /** The tool results below a record, in the file's order. */
  function ResultsBelow(table: seq<Record>, parent: Token): seq<Record> {
    if table == [] then []
    else
      var last := table[|table| - 1];
      ResultsBelow(table[..|table| - 1], parent) + if IsToolResult(last) && last.parent == Some(parent) then [last] else []
  }

  function FileOrder(table: seq<Record>): map<Token, nat> {
    map uuid | uuid in UuidSet(table) :: Position(table, uuid)
  }

  ghost predicate BlocksTold(table: seq<Record>, blocks: map<Response, seq<Record>>, response: Response) {
    (response in blocks <==> BlocksOf(table, response) != []) && (response in blocks ==> blocks[response] == BlocksOf(table, response))
  }

  ghost predicate ResultsTold(table: seq<Record>, results: map<Token, seq<Record>>, parent: Token) {
    (parent in results <==> ResultsBelow(table, parent) != []) && (parent in results ==> results[parent] == ResultsBelow(table, parent))
  }

  ghost predicate ResponseTold(table: seq<Record>, responseOf: map<Token, Response>, uuid: Token) {
    ResponseOf(table, uuid) == if uuid in responseOf then Some(responseOf[uuid]) else None
  }

  /** What the maps hold: the response of each block, each response's blocks, each parent's tool results, the file's order. */
  ghost predicate Grouped(table: seq<Record>, responseOf: map<Token, Response>, blocks: map<Response, seq<Record>>, results: map<Token, seq<Record>>,
                          fileOrder: map<Token, nat>) {
    && (forall uuid :: ResponseTold(table, responseOf, uuid))
    && (forall response :: BlocksTold(table, blocks, response))
    && (forall parent :: ResultsTold(table, results, parent))
    && fileOrder == FileOrder(table)
  }

  lemma {:induction false} OneMoreRecord(table: seq<Record>, record: Record, uuid: Token)
    requires Distinct(UuidsOf(table + [record]))
    ensures ResponseOf(table + [record], uuid)
         == if uuid == record.uuid then ResponseAt(table + [record], |table|) else ResponseOf(table, uuid)
    ensures ResultParent(table + [record], uuid)
         == if uuid == record.uuid then (if IsToolResult(record) then record.parent else None) else ResultParent(table, uuid)
    ensures record.uuid !in UuidSet(table)
    ensures WrittenBefore(table + [record], uuid, |table| + 1) == if uuid == record.uuid then Some(|table|) else WrittenBefore(table, uuid, |table|)
  {
    var longer := table + [record];
    assert longer[..|table|] == table;
    forall i | 0 <= i < |table| ensures table[i].uuid != record.uuid { assert UuidsOf(longer)[i] != UuidsOf(longer)[|table|]; }
    SameBefore(table, record, uuid, |table|);
    var at := WrittenBefore(table, uuid, |table|);
    if at.Some? { assert longer[..at.value] == table[..at.value]; }
  }

  lemma {:induction false} SameBefore(table: seq<Record>, record: Record, uuid: Token, limit: nat)
    requires limit <= |table|
    ensures WrittenBefore(table + [record], uuid, limit) == WrittenBefore(table, uuid, limit)
  {
    if limit > 0 { SameBefore(table, record, uuid, limit - 1); }
  }

  lemma {:induction false} OrderOnce(table: seq<Record>, record: Record)
    requires Distinct(UuidsOf(table + [record]))
    ensures FileOrder(table + [record]) == FileOrder(table)[record.uuid := |table|]
  {
    var longer, more := FileOrder(table + [record]), FileOrder(table)[record.uuid := |table|];
    UuidSetOne(table, record);
    forall uuid | uuid in longer ensures longer[uuid] == more[uuid] {
      OneMoreRecord(table, record, uuid);
      hide WrittenBefore;
    }
    assert longer.Keys == more.Keys;
  }

  lemma {:induction false} ListsOnce(table: seq<Record>, record: Record)
    ensures forall response :: BlocksOf(table + [record], response)
                            == BlocksOf(table, response) + if ResponseAt(table + [record], |table|) == Some(response) then [record] else []
    ensures forall parent :: ResultsBelow(table + [record], parent)
                          == ResultsBelow(table, parent) + if IsToolResult(record) && record.parent == Some(parent) then [record] else []
  {
    hide ResponseAt;
    assert (table + [record])[..|table|] == table;
  }

  method Group(table: seq<Record>)
    returns (responseOf: map<Token, Response>, blocks: map<Response, seq<Record>>, results: map<Token, seq<Record>>, fileOrder: map<Token, nat>)
    requires Distinct(UuidsOf(table))
    ensures Grouped(table, responseOf, blocks, results, fileOrder)
  {
    responseOf, blocks, results, fileOrder := map[], map[], map[], map[];
    var prompts := 0;
    assert table[..0] == [];
    assert FileOrder([]) == map[];
    for n := 0 to |table|
      invariant prompts == Prompts(table[..n])
      invariant Grouped(table[..n], responseOf, blocks, results, fileOrder)
    {
      hide *;
      var record := table[n];
      PrefixDistinct(table, n);
      PromptsOnce(table, n);
      KindOf(record);
      ghost var wasOf, wasBlocks, wasResults, wasOrder := responseOf, blocks, results, fileOrder;
      fileOrder := fileOrder[record.uuid := n];
      if record.kind.Assistant? && record.kind.messageId.Some? {
        var response := Response(prompts, record.kind.messageId.value);
        var values := if response in blocks then blocks[response] else [];
        responseOf := responseOf[record.uuid := response];
        blocks := blocks[response := values + [record]];
      } else if IsPrompt(record) {
        prompts := prompts + 1;
      } else if IsToolResult(record) {
        var values := if record.parent.value in results then results[record.parent.value] else [];
        results := results[record.parent.value := values + [record]];
      }
      GroupOnce(table[..n], record, wasOf, wasBlocks, wasResults, wasOrder, responseOf, blocks, results);
    }
    assert table[..|table|] == table;
  }

  lemma {:induction false} KindOf(record: Record)
    ensures IsPrompt(record) ==> record.kind.User? && !IsToolResult(record)
    ensures IsToolResult(record) ==> record.kind.User? && record.parent.Some?
  {}

  lemma {:induction false} PrefixDistinct(table: seq<Record>, n: nat)
    requires Distinct(UuidsOf(table)) && n < |table|
    ensures table[..n + 1] == table[..n] + [table[n]] && Distinct(UuidsOf(table[..n] + [table[n]])) && table[..n + 1][..n] == table[..n]
    ensures Distinct(UuidsOf(table[..n]))
  {
    var shorter := table[..n] + [table[n]];
    forall i, j | 0 <= i < j < |shorter| ensures UuidsOf(shorter)[i] != UuidsOf(shorter)[j] {
      assert UuidsOf(table)[i] != UuidsOf(table)[j];
    }
    forall i, j | 0 <= i < j < n ensures UuidsOf(table[..n])[i] != UuidsOf(table[..n])[j] {
      assert UuidsOf(table)[i] != UuidsOf(table)[j];
    }
  }

  lemma {:induction false} PromptsOnce(table: seq<Record>, n: nat)
    requires n < |table|
    ensures Prompts(table[..n + 1]) == Prompts(table[..n]) + if IsPrompt(table[n]) then 1 else 0
  {
    assert table[..n + 1][..n] == table[..n];
  }

  lemma {:induction false} UuidSetOne(records: seq<Record>, record: Record)
    ensures UuidSet(records + [record]) == UuidSet(records) + {record.uuid}
  {
    var longer := records + [record];
    assert longer[|records|] == record;
    forall uuid | uuid in UuidSet(records) ensures uuid in UuidSet(longer) {
      var i :| 0 <= i < |records| && records[i].uuid == uuid;
      assert longer[i] == records[i];
    }
    forall uuid | uuid in UuidSet(longer) ensures uuid in UuidSet(records) + {record.uuid} {
      var i :| 0 <= i < |longer| && longer[i].uuid == uuid;
      if i < |records| { assert records[i].uuid == uuid; }
    }
  }

  lemma {:induction false} Unwritten(table: seq<Record>, uuid: Token)
    requires uuid !in UuidSet(table)
    ensures ResponseOf(table, uuid).None? && ResultParent(table, uuid).None?
  {}

  /** One record more: its response, and the responses of the others as before. */
  lemma {:induction false} ResponseOnce(table: seq<Record>, record: Record)
    requires Distinct(UuidsOf(table + [record]))
    ensures forall uuid :: ResponseOf(table + [record], uuid) == if uuid == record.uuid then ResponseAt(table + [record], |table|) else ResponseOf(table, uuid)
    ensures ResponseOf(table, record.uuid).None?
    ensures ResponseAt(table + [record], |table|)
         == if record.kind.Assistant? && record.kind.messageId.Some? then Some(Response(Prompts(table), record.kind.messageId.value)) else None
  {
    forall uuid
      ensures ResponseOf(table + [record], uuid) == if uuid == record.uuid then ResponseAt(table + [record], |table|) else ResponseOf(table, uuid)
    {
      OneMoreRecord(table, record, uuid);
    }
    OneMoreRecord(table, record, record.uuid);
    Unwritten(table, record.uuid);
    assert (table + [record])[..|table|] == table;
  }

  lemma {:induction false} ResponsesTold(table: seq<Record>, record: Record, responseOf: map<Token, Response>, after: map<Token, Response>)
    requires Distinct(UuidsOf(table + [record])) && forall uuid :: ResponseTold(table, responseOf, uuid)
    requires after == if record.kind.Assistant? && record.kind.messageId.Some? then responseOf[record.uuid := Response(Prompts(table), record.kind.messageId.value)] else responseOf
    ensures forall uuid :: ResponseTold(table + [record], after, uuid)
  {
    ResponseOnce(table, record);
    hide ResponseOf, ResponseAt, Prompts, Distinct, UuidsOf;
    forall uuid ensures ResponseTold(table + [record], after, uuid) { assert ResponseTold(table, responseOf, uuid); }
  }

  lemma {:induction false} BlocksToldOnce(table: seq<Record>, record: Record, blocks: map<Response, seq<Record>>, after: map<Response, seq<Record>>)
    requires Distinct(UuidsOf(table + [record])) && forall response :: BlocksTold(table, blocks, response)
    requires if record.kind.Assistant? && record.kind.messageId.Some?
             then var response := Response(Prompts(table), record.kind.messageId.value);
                  after == blocks[response := (if response in blocks then blocks[response] else []) + [record]]
             else after == blocks
    ensures forall response :: BlocksTold(table + [record], after, response)
  {
    ResponseOnce(table, record);
    ListsOnce(table, record);
    hide ResponseOf, ResponseAt, BlocksOf, ResultsBelow, Prompts, Distinct, UuidsOf;
    forall response ensures BlocksTold(table + [record], after, response) { assert BlocksTold(table, blocks, response); }
  }

  lemma {:induction false} ResultsToldOnce(table: seq<Record>, record: Record, results: map<Token, seq<Record>>, after: map<Token, seq<Record>>)
    requires forall parent :: ResultsTold(table, results, parent)
    requires if IsToolResult(record) then after == results[record.parent.value := (if record.parent.value in results then results[record.parent.value] else []) + [record]]
             else after == results
    ensures forall parent :: ResultsTold(table + [record], after, parent)
  {
    ListsOnce(table, record);
    hide BlocksOf, ResultsBelow, ResponseAt;
    forall parent ensures ResultsTold(table + [record], after, parent) { assert ResultsTold(table, results, parent); }
  }

  /** One record more in the maps. */
  lemma {:induction false} GroupOnce(table: seq<Record>, record: Record, responseOf: map<Token, Response>, blocks: map<Response, seq<Record>>, results: map<Token, seq<Record>>,
                                     fileOrder: map<Token, nat>, responseOf': map<Token, Response>, blocks': map<Response, seq<Record>>, results': map<Token, seq<Record>>)
    requires Distinct(UuidsOf(table + [record])) && Grouped(table, responseOf, blocks, results, fileOrder)
    requires if record.kind.Assistant? && record.kind.messageId.Some?
             then var response := Response(Prompts(table), record.kind.messageId.value);
                  && responseOf' == responseOf[record.uuid := response]
                  && blocks' == blocks[response := (if response in blocks then blocks[response] else []) + [record]]
             else responseOf' == responseOf && blocks' == blocks
    requires if IsToolResult(record) then results' == results[record.parent.value := (if record.parent.value in results then results[record.parent.value] else []) + [record]]
             else results' == results
    ensures Grouped(table + [record], responseOf', blocks', results', fileOrder[record.uuid := |table|])
  {
    GroupedParts(table, responseOf, blocks, results, fileOrder);
    hide Grouped;
    ResponsesTold(table, record, responseOf, responseOf');
    BlocksToldOnce(table, record, blocks, blocks');
    ResultsToldOnce(table, record, results, results');
    OrderOnce(table, record);
    hide *;
    GroupedWhen(table + [record], responseOf', blocks', results', fileOrder[record.uuid := |table|]);
  }

  lemma {:induction false} GroupedParts(table: seq<Record>, responseOf: map<Token, Response>, blocks: map<Response, seq<Record>>, results: map<Token, seq<Record>>,
                                        fileOrder: map<Token, nat>)
    requires Grouped(table, responseOf, blocks, results, fileOrder)
    ensures (forall uuid :: ResponseTold(table, responseOf, uuid)) && (forall response :: BlocksTold(table, blocks, response))
    ensures (forall parent :: ResultsTold(table, results, parent)) && fileOrder == FileOrder(table)
  {
    hide ResponseTold, BlocksTold, ResultsTold, FileOrder;
  }

  lemma {:induction false} GroupedWhen(table: seq<Record>, responseOf: map<Token, Response>, blocks: map<Response, seq<Record>>, results: map<Token, seq<Record>>,
                                       fileOrder: map<Token, nat>)
    requires (forall uuid :: ResponseTold(table, responseOf, uuid)) && (forall response :: BlocksTold(table, blocks, response))
    requires (forall parent :: ResultsTold(table, results, parent)) && fileOrder == FileOrder(table)
    ensures Grouped(table, responseOf, blocks, results, fileOrder)
  {
    hide ResponseTold, BlocksTold, ResultsTold, FileOrder;
  }

  /**
   * Two assistant records are blocks of one response exactly when they name the same message and no prompt was written between
   * them: a user record that is no meta record and no tool result with a parent.
   */
  lemma {:induction false} OneResponse(table: seq<Record>, i: nat, j: nat)
    requires i <= j < |table|
    ensures ResponseAt(table, i).Some? && ResponseAt(table, i) == ResponseAt(table, j) <==>
            && table[i].kind.Assistant? && table[j].kind.Assistant? && table[i].kind.messageId.Some? && table[i].kind.messageId == table[j].kind.messageId
            && forall k :: i <= k < j && table[k].kind.User? && !table[k].isMeta ==> table[k].kind.toolResult && table[k].parent.Some?
  {
    PromptsBetween(table, i, j);
    hide Prompts;
  }

  lemma {:induction false} PromptsBetween(table: seq<Record>, i: nat, j: nat)
    requires i <= j < |table|
    ensures Prompts(table[..i]) <= Prompts(table[..j])
    ensures Prompts(table[..i]) == Prompts(table[..j]) <==>
            forall k :: i <= k < j && table[k].kind.User? && !table[k].isMeta ==> table[k].kind.toolResult && table[k].parent.Some?
    decreases j
  {
    if i < j {
      PromptsBetween(table, i, j - 1);
      PromptsOnce(table, j - 1);
      hide Prompts;
    }
  }

  /** A record belongs to a response's tool results exactly when it is a user record with a tool result, its parent a block of that response. */
  lemma {:induction false} ResultsOfResponse(table: seq<Record>, response: Response, i: nat)
    requires Distinct(UuidsOf(table)) && i < |table|
    ensures ResultOf(table, table[i].uuid) == Some(response) <==>
            && table[i].kind.User? && table[i].kind.toolResult && table[i].parent.Some?
            && exists j :: 0 <= j < |table| && table[j].uuid == table[i].parent.value && ResponseAt(table, j) == Some(response)
  {
    hide ResponseAt;
    OnlyOne(table, i);
    if table[i].parent.Some? {
      var at := WrittenBefore(table, table[i].parent.value, |table|);
      if at.Some? { OnlyOne(table, at.value); }
    }
  }

  lemma {:induction false} OnlyOne(table: seq<Record>, i: nat)
    requires Distinct(UuidsOf(table)) && i < |table|
    ensures WrittenBefore(table, table[i].uuid, |table|) == Some(i)
    ensures forall j :: 0 <= j < |table| && table[j].uuid == table[i].uuid ==> j == i
  {
    hide WrittenBefore;
    forall j | 0 <= j < |table| && table[j].uuid == table[i].uuid ensures j == i {
      assert UuidsOf(table)[j] == UuidsOf(table)[i];
    }
  }

  /** A response's blocks are the records whose response it is, in the file's order. */
  lemma {:induction false} BlocksAre(table: seq<Record>, response: Response)
    requires Distinct(UuidsOf(table))
    ensures forall uuid :: Has(BlocksOf(table, response), uuid) <==> ResponseOf(table, uuid) == Some(response)
    ensures Ordered(Earlier(FileOrder(table)), BlocksOf(table, response))
    ensures forall block :: block in BlocksOf(table, response) ==> block in table
  {
    if table == [] {
    } else {
      var before, record := table[..|table| - 1], table[|table| - 1];
      PrefixDistinct(table, |table| - 1);
      assert table == before + [record];
      BlocksAre(before, response);
      hide *;
      BlockMore(before, record, response);
    }
  }

  lemma {:induction false} BlockMore(table: seq<Record>, record: Record, response: Response)
    requires Distinct(UuidsOf(table + [record]))
    requires forall uuid :: Has(BlocksOf(table, response), uuid) <==> ResponseOf(table, uuid) == Some(response)
    requires Ordered(Earlier(FileOrder(table)), BlocksOf(table, response))
    requires forall block :: block in BlocksOf(table, response) ==> block in table
    ensures forall uuid :: Has(BlocksOf(table + [record], response), uuid) <==> ResponseOf(table + [record], uuid) == Some(response)
    ensures Ordered(Earlier(FileOrder(table + [record])), BlocksOf(table + [record], response))
    ensures forall block :: block in BlocksOf(table + [record], response) ==> block in table + [record]
  {
    hide *;
    ResponseOnce(table, record);
    ListsOnce(table, record);
    OrderOnce(table, record);
    OneMoreRecord(table, record, record.uuid);
    LaterInFile(table, BlocksOf(table, response), record);
    var blocks := BlocksOf(table, response);
    forall uuid ensures Has(blocks + [record], uuid) <==> Has(blocks, uuid) || record.uuid == uuid { HasOne(blocks, record, uuid); }
    assert BlocksOf(table + [record], response) == blocks || BlocksOf(table + [record], response) == blocks + [record];
  }

  lemma {:induction false} LaterInFile(table: seq<Record>, records: seq<Record>, record: Record)
    requires record.uuid !in UuidSet(table) && Ordered(Earlier(FileOrder(table)), records) && forall each :: each in records ==> each in table
    ensures Ordered(Earlier(FileOrder(table)[record.uuid := |table|]), records)
    ensures Ordered(Earlier(FileOrder(table)[record.uuid := |table|]), records + [record])
  {
    hide WrittenBefore;
    var before, after := FileOrder(table), FileOrder(table)[record.uuid := |table|];
    forall i | 0 <= i < |records| ensures PlaceOf(after, records[i]) == PlaceOf(before, records[i]) < |table| {
      assert records[i] in table;
      var k :| 0 <= k < |table| && table[k] == records[i];
      InFile(table, table[k].uuid);
    }
    forall i, j | 0 <= i < j < |records + [record]| ensures Earlier(after)((records + [record])[i], (records + [record])[j]) {
      if j < |records| { assert Earlier(before)(records[i], records[j]); }
    }
    forall i, j | 0 <= i < j < |records| ensures Earlier(after)(records[i], records[j]) { assert Earlier(before)(records[i], records[j]); }
  }

  /** The tool results below a record are the ones whose parent it is. */
  lemma {:induction false} ResultsAre(table: seq<Record>, parent: Token)
    requires Distinct(UuidsOf(table))
    ensures forall uuid :: Has(ResultsBelow(table, parent), uuid) <==> ResultParent(table, uuid) == Some(parent)
    ensures forall result :: result in ResultsBelow(table, parent) ==> result in table
  {
    if table == [] {
    } else {
      var before, record := table[..|table| - 1], table[|table| - 1];
      PrefixDistinct(table, |table| - 1);
      assert table == before + [record];
      ResultsAre(before, parent);
      hide *;
      ResultMore(before, record, parent);
    }
  }

  lemma {:induction false} ResultMore(table: seq<Record>, record: Record, parent: Token)
    requires Distinct(UuidsOf(table + [record]))
    requires forall uuid :: Has(ResultsBelow(table, parent), uuid) <==> ResultParent(table, uuid) == Some(parent)
    requires forall result :: result in ResultsBelow(table, parent) ==> result in table
    ensures forall uuid :: Has(ResultsBelow(table + [record], parent), uuid) <==> ResultParent(table + [record], uuid) == Some(parent)
    ensures forall result :: result in ResultsBelow(table + [record], parent) ==> result in table + [record]
  {
    hide *;
    ListsOnce(table, record);
    OneMoreRecord(table, record, record.uuid);
    Unwritten(table, record.uuid);
    KindOf(record);
    var results := ResultsBelow(table, parent);
    assert ResultsBelow(table + [record], parent) == if IsToolResult(record) && record.parent == Some(parent) then results + [record] else results;
    forall uuid ensures Has(ResultsBelow(table + [record], parent), uuid) <==> ResultParent(table + [record], uuid) == Some(parent) {
      OneMoreRecord(table, record, uuid);
      HasOne(ResultsBelow(table, parent), record, uuid);
    }
  }

  // ---- order ----

  function PlaceOf(order: map<Token, nat>, record: Record): nat {
    if record.uuid in order then order[record.uuid] else 0
  }

  function Earlier(order: map<Token, nat>): (Record, Record) -> bool {
    (a: Record, b: Record) => PlaceOf(order, a) < PlaceOf(order, b)
  }

  /** The file's order. */
  function ByFile(order: map<Token, nat>): (Record, Record) -> bool {
    (a: Record, b: Record) => PlaceOf(order, a) <= PlaceOf(order, b)
  }

  predicate Indexed(record: Record) { record.kind.Assistant? && record.kind.blockIndex.Some? }

  /** By the blocks' own indexes, or the file's order where one has none. */
  function ByResponse(order: map<Token, nat>): (Record, Record) -> bool {
    (a: Record, b: Record) =>
      if Indexed(a) && Indexed(b) then a.kind.blockIndex.value <= b.kind.blockIndex.value
      else PlaceOf(order, a) <= PlaceOf(order, b)
  }

  /** How a response's blocks stand: by their indexes, and among equal ones in the file's order. */
  function StandsBefore(order: map<Token, nat>): (Record, Record) -> bool {
    (a: Record, b: Record) => ByResponse(order)(a, b) && (ByResponse(order)(b, a) ==> Earlier(order)(a, b))
  }

  /** The comparison is consistent on a response's blocks: always when all have an index, or none has. */
  ghost predicate Comparable(table: seq<Record>, response: Response) {
    Transitive(ByResponse(FileOrder(table)), BlocksOf(table, response))
  }

  lemma {:induction false} BlocksSorted(table: seq<Record>, response: Response)
    requires Distinct(UuidsOf(table)) && Comparable(table, response)
    ensures Ordered(StandsBefore(FileOrder(table)), Sort(ByResponse(FileOrder(table)), BlocksOf(table, response)))
  {
    var order, blocks := FileOrder(table), BlocksOf(table, response);
    BlocksAre(table, response);
    hide FileOrder, BlocksOf, Has, ResponseOf;
    assert Total(ByResponse(order), blocks);
    SortSorts(ByResponse(order), Earlier(order), blocks, blocks);
    hide Sort;
  }

  /** Of two blocks in the order a response is shown in, the first has the smaller index, or, the indexes being equal or one missing, was written first. */
  lemma {:induction false} BlocksStand(table: seq<Record>, response: Response, i: nat, j: nat, k: nat, l: nat)
    requires Distinct(UuidsOf(table)) && Comparable(table, response)
    requires var sorted := Sort(ByResponse(FileOrder(table)), BlocksOf(table, response));
             i < j < |sorted| && k < |table| && l < |table| && sorted[i] == table[k] && sorted[j] == table[l]
    ensures table[k].kind.Assistant? && table[k].kind.blockIndex.Some? && table[l].kind.Assistant? && table[l].kind.blockIndex.Some? ==>
              var m, n := table[k].kind.blockIndex.value, table[l].kind.blockIndex.value; m < n || (m == n && k < l)
    ensures !(table[k].kind.Assistant? && table[k].kind.blockIndex.Some? && table[l].kind.Assistant? && table[l].kind.blockIndex.Some?) ==> k < l
  {
    BlocksSorted(table, response);
    hide Sort, BlocksOf, Comparable, Distinct;
    OnlyOne(table, k);
    OnlyOne(table, l);
    var sorted := Sort(ByResponse(FileOrder(table)), BlocksOf(table, response));
    assert StandsBefore(FileOrder(table))(sorted[i], sorted[j]);
  }

  lemma {:induction false} AllIndexedOrNone(table: seq<Record>, response: Response)
    requires (forall block :: block in BlocksOf(table, response) ==> Indexed(block)) || forall block :: block in BlocksOf(table, response) ==> !Indexed(block)
    ensures Comparable(table, response)
  {
    hide FileOrder, BlocksOf;
    var blocks, le := BlocksOf(table, response), ByResponse(FileOrder(table));
    forall i, j, k | 0 <= i < |blocks| && 0 <= j < |blocks| && 0 <= k < |blocks| && le(blocks[i], blocks[j]) && le(blocks[j], blocks[k])
      ensures le(blocks[i], blocks[k])
    {
      assert blocks[i] in blocks && blocks[j] in blocks && blocks[k] in blocks;
    }
  }

  lemma {:induction false} FileSorted(order: map<Token, nat>, records: seq<Record>)
    ensures Ordered(ByFile(order), Sort(ByFile(order), records))
  {
    var any := (a: Record, b: Record) => true;
    SortSorts(ByFile(order), any, records, records);
    hide Sort;
  }

  // ---- expanding ----

  ghost predicate Has(records: seq<Record>, uuid: Token) {
    exists i :: 0 <= i < |records| && records[i].uuid == uuid
  }

  /** A record of this response was selected. */
  ghost predicate Reached(table: seq<Record>, selected: seq<Record>, response: Response) {
    exists i :: 0 <= i < |selected| && ResponseOf(table, selected[i].uuid) == Some(response)
  }

  /** A tool result was selected before every block of its response. */
  ghost predicate Early(table: seq<Record>, selected: seq<Record>, uuid: Token, response: Response) {
    exists j :: 0 <= j < |selected| && selected[j].uuid == uuid && !Reached(table, selected[..j], response)
  }

  /** What is expanded: the selected records, and all blocks and tool results of the responses reached. */
  ghost predicate Whole(table: seq<Record>, selected: seq<Record>, expanded: seq<Record>) {
    && Distinct(UuidsOf(expanded))
    && (forall uuid :: Has(selected, uuid) ==> Has(expanded, uuid))
    && (forall uuid, response :: ResponseOf(table, uuid) == Some(response) ==> (Has(expanded, uuid) <==> Reached(table, selected, response)))
    && (forall uuid, response :: ResultOf(table, uuid) == Some(response) ==> (Has(expanded, uuid) <==> Reached(table, selected, response) || Has(selected, uuid)))
    && (forall uuid :: ResponseOf(table, uuid).None? && ResultOf(table, uuid).None? && Has(expanded, uuid) ==> Has(selected, uuid))
  }

  /** A block stands before a tool result of its response exactly when the result was not selected before all of its blocks. */
  ghost predicate InOrder(table: seq<Record>, selected: seq<Record>, expanded: seq<Record>) {
    forall p, q, response ::
      0 <= p < |expanded| && 0 <= q < |expanded| && ResponseOf(table, expanded[p].uuid) == Some(response) && ResultOf(table, expanded[q].uuid) == Some(response)
      ==> (p < q <==> !Early(table, selected, expanded[q].uuid, response))
  }

  /** The values not there yet, appended. */
  ghost function PushedOnto(expanded: seq<Record>, values: seq<Record>): seq<Record> {
    if values == [] then expanded
    else
      var before, last := PushedOnto(expanded, values[..|values| - 1]), values[|values| - 1];
      if Has(before, last.uuid) then before else before + [last]
  }

  /** Appends the values not there yet. */
  method PushNew(expanded: seq<Record>, uuids: set<Token>, values: seq<Record>) returns (more: seq<Record>, all: set<Token>)
    requires Distinct(UuidsOf(expanded)) && forall uuid :: uuid in uuids <==> Has(expanded, uuid)
    ensures expanded <= more && Distinct(UuidsOf(more)) && forall uuid :: uuid in all <==> Has(more, uuid)
    ensures forall uuid :: Has(more, uuid) <==> Has(expanded, uuid) || Has(values, uuid)
    ensures forall i :: |expanded| <= i < |more| ==> Has(values, more[i].uuid) && !Has(expanded, more[i].uuid)
    ensures more == PushedOnto(expanded, values)
  {
    more, all := expanded, uuids;
    assert values[..0] == [];
    for n := 0 to |values|
      invariant expanded <= more && Distinct(UuidsOf(more)) && forall uuid :: uuid in all <==> Has(more, uuid)
      invariant forall uuid :: Has(more, uuid) <==> Has(expanded, uuid) || Has(values[..n], uuid)
      invariant forall i :: |expanded| <= i < |more| ==> Has(values, more[i].uuid) && !Has(expanded, more[i].uuid)
      invariant more == PushedOnto(expanded, values[..n])
    {
      hide Has, Distinct;
      var value := values[n];
      assert values[..n + 1] == values[..n] + [value] && values[..n + 1][..n] == values[..n];
      forall uuid ensures Has(values[..n + 1], uuid) <==> Has(values[..n], uuid) || value.uuid == uuid { HasOne(values[..n], value, uuid); }
      if value.uuid in all { continue; }
      HasAt(values, n);
      forall uuid ensures Has(more + [value], uuid) <==> Has(more, uuid) || value.uuid == uuid { HasOne(more, value, uuid); }
      DistinctOne(more, value);
      all := all + {value.uuid};
      more := more + [value];
    }
    assert values[..|values|] == values;
  }

  /** What is appended keeps the values' order. */
  lemma {:induction false} PushedInOrder(before: (Record, Record) -> bool, expanded: seq<Record>, values: seq<Record>)
    requires Ordered(before, values)
    ensures var more := PushedOnto(expanded, values);
            && expanded <= more && Ordered(before, more[|expanded|..]) && forall i :: |expanded| <= i < |more| ==> more[i] in values
  {
    hide Has;
    if values != [] {
      var n := |values| - 1;
      PushedInOrder(before, expanded, values[..n]);
    }
  }

  lemma {:induction false} PushedFrom(expanded: seq<Record>, values: seq<Record>)
    ensures var more := PushedOnto(expanded, values); expanded <= more && forall i :: |expanded| <= i < |more| ==> more[i] in values
  {
    PushedInOrder((a: Record, b: Record) => true, expanded, values);
  }

  lemma {:induction false} HasAt(records: seq<Record>, i: nat)
    requires i < |records|
    ensures Has(records, records[i].uuid)
  {}

  lemma {:induction false} HasOne(records: seq<Record>, record: Record, uuid: Token)
    ensures Has(records + [record], uuid) <==> Has(records, uuid) || record.uuid == uuid
  {
    var longer := records + [record];
    assert longer[|records|] == record;
    if Has(records, uuid) {
      var i :| 0 <= i < |records| && records[i].uuid == uuid;
      assert longer[i].uuid == uuid;
    }
  }

  lemma {:induction false} DistinctOne(records: seq<Record>, record: Record)
    requires Distinct(UuidsOf(records)) && !Has(records, record.uuid)
    ensures Distinct(UuidsOf(records + [record]))
  {
    assert UuidsOf(records + [record]) == UuidsOf(records) + [record.uuid];
  }

  /** Everything the loop keeps after the first records of the selection. */
  ghost predicate Expanding(table: seq<Record>, selected: seq<Record>, expanded: seq<Record>, uuids: set<Token>, responses: set<Response>) {
    && (forall uuid :: uuid in uuids <==> Has(expanded, uuid))
    && (forall response :: response in responses <==> Reached(table, selected, response))
    && Whole(table, selected, expanded) && InOrder(table, selected, expanded)
  }

  lemma {:induction false} ReachedOne(table: seq<Record>, selected: seq<Record>, record: Record, response: Response)
    ensures Reached(table, selected + [record], response) <==> Reached(table, selected, response) || ResponseOf(table, record.uuid) == Some(response)
  {
    hide ResponseOf;
    var longer := selected + [record];
    assert longer[|selected|] == record;
    if Reached(table, selected, response) {
      var i :| 0 <= i < |selected| && ResponseOf(table, selected[i].uuid) == Some(response);
      assert longer[i] == selected[i];
    }
  }

  lemma {:induction false} EarlyOne(table: seq<Record>, selected: seq<Record>, record: Record, uuid: Token, response: Response)
    ensures Early(table, selected + [record], uuid, response) <==>
            Early(table, selected, uuid, response) || (record.uuid == uuid && !Reached(table, selected, response))
  {
    hide Reached;
    var longer := selected + [record];
    assert longer[|selected|] == record && longer[..|selected|] == selected;
    if Early(table, selected, uuid, response) {
      var j :| 0 <= j < |selected| && selected[j].uuid == uuid && !Reached(table, selected[..j], response);
      assert longer[j].uuid == uuid && longer[..j] == selected[..j];
    }
    if Early(table, longer, uuid, response) {
      var j :| 0 <= j < |longer| && longer[j].uuid == uuid && !Reached(table, longer[..j], response);
      if j < |selected| { assert selected[j].uuid == uuid && longer[..j] == selected[..j]; }
    }
  }

  /** A result not selected is not early; while its response is not reached, a selected one is. */
  lemma {:induction false} EarlyWhen(table: seq<Record>, selected: seq<Record>, uuid: Token, response: Response)
    ensures Early(table, selected, uuid, response) ==> Has(selected, uuid)
    ensures Has(selected, uuid) && !Reached(table, selected, response) ==> Early(table, selected, uuid, response)
  {
    hide ResponseOf;
    if Has(selected, uuid) && !Reached(table, selected, response) {
      var j :| 0 <= j < |selected| && selected[j].uuid == uuid;
      assert !Reached(table, selected[..j], response);
    }
  }

  /** What the steps of the loop do to the expansion. */
  ghost predicate Steps(table: seq<Record>, record: Record, expanded: seq<Record>, more: seq<Record>) {
    && expanded <= more && Distinct(UuidsOf(more))
    && match ResponseOf(table, record.uuid)
       case None => forall i :: |expanded| <= i < |more| ==> more[i] == record && !Has(expanded, record.uuid)
       case Some(response) =>
         exists m :: BlocksThenResults(table, response, expanded, more, m)
  }

  ghost predicate BlocksThenResults(table: seq<Record>, response: Response, expanded: seq<Record>, more: seq<Record>, m: int) {
    && |expanded| <= m <= |more|
    && (forall i :: |expanded| <= i < m ==> ResponseOf(table, more[i].uuid) == Some(response))
    && (forall i :: m <= i < |more| ==> ResultOf(table, more[i].uuid) == Some(response) && !Has(expanded, more[i].uuid))
  }

  lemma {:induction false} OrderKept(table: seq<Record>, selected: seq<Record>, record: Record, expanded: seq<Record>, more: seq<Record>)
    requires Whole(table, selected, expanded) && InOrder(table, selected, expanded)
    requires Steps(table, record, expanded, more)
    requires |more| > |expanded| ==> match ResponseOf(table, record.uuid) case Some(response) => !Reached(table, selected, response) case None => true
    requires |more| == |expanded| ==> Has(expanded, record.uuid)
    ensures InOrder(table, selected + [record], more)
  {
    hide ResponseOf, ResultParent, Has, Reached, Early;
    forall p, q, response | 0 <= p < |more| && 0 <= q < |more| && ResponseOf(table, more[p].uuid) == Some(response) && ResultOf(table, more[q].uuid) == Some(response)
      ensures p < q <==> !Early(table, selected + [record], more[q].uuid, response)
    {
      OnePair(table, selected, record, expanded, more, p, q, response);
    }
  }

  lemma {:induction false} OnePair(table: seq<Record>, selected: seq<Record>, record: Record, expanded: seq<Record>, more: seq<Record>, p: nat, q: nat, response: Response)
    requires Whole(table, selected, expanded) && InOrder(table, selected, expanded)
    requires Steps(table, record, expanded, more)
    requires |more| > |expanded| ==> match ResponseOf(table, record.uuid) case Some(response) => !Reached(table, selected, response) case None => true
    requires |more| == |expanded| ==> Has(expanded, record.uuid)
    requires p < |more| && q < |more| && ResponseOf(table, more[p].uuid) == Some(response) && ResultOf(table, more[q].uuid) == Some(response)
    ensures p < q <==> !Early(table, selected + [record], more[q].uuid, response)
  {
    var uuid := more[q].uuid;
    EarlyOne(table, selected, record, uuid, response);
    EarlyWhen(table, selected, uuid, response);
    BlockIsNoResult(table, more[p].uuid);
    if ResponseOf(table, record.uuid).Some? { BlockIsNoResult(table, record.uuid); }
    if ResponseOf(table, uuid).Some? { BlockIsNoResult(table, uuid); }
    if p < |expanded| { HasAt(expanded, p); assert more[p] == expanded[p]; }
    if q < |expanded| { HasAt(expanded, q); assert more[q] == expanded[q]; }
    hide ResponseOf, ResultParent, Has, Reached, Early, Distinct, UuidSet;
    assert ResultParent(table, uuid).Some?;
  }

  /** What a selected record brings into the expansion. */
  ghost predicate Brings(table: seq<Record>, record: Record, uuid: Token) {
    match ResponseOf(table, record.uuid)
    case None => uuid == record.uuid
    case Some(response) => ResponseOf(table, uuid) == Some(response) || ResultOf(table, uuid) == Some(response)
  }

  lemma {:induction false} WholeKept(table: seq<Record>, selected: seq<Record>, record: Record, expanded: seq<Record>, more: seq<Record>)
    requires Whole(table, selected, expanded) && Distinct(UuidsOf(more))
    requires forall uuid :: Has(more, uuid) <==> Has(expanded, uuid) || Brings(table, record, uuid)
    ensures Whole(table, selected + [record], more)
  {
    forall uuid ensures Has(selected + [record], uuid) <==> Has(selected, uuid) || record.uuid == uuid { HasOne(selected, record, uuid); }
    forall response ensures Reached(table, selected + [record], response) <==> Reached(table, selected, response) || ResponseOf(table, record.uuid) == Some(response) {
      ReachedOne(table, selected, record, response);
    }
    forall uuid ensures ResponseOf(table, uuid).Some? ==> ResultOf(table, uuid).None? {
      if ResponseOf(table, uuid).Some? { BlockIsNoResult(table, uuid); }
    }
    hide Has, Reached, ResponseOf, ResultOf;
  }

  /** A selected record that is in the expansion already, or whose response was reached, brings nothing. */
  lemma {:induction false} BringsNothing(table: seq<Record>, selected: seq<Record>, record: Record, expanded: seq<Record>)
    requires Whole(table, selected, expanded)
    requires Has(expanded, record.uuid) || (ResponseOf(table, record.uuid).Some? && Reached(table, selected, ResponseOf(table, record.uuid).value))
    ensures forall uuid :: Brings(table, record, uuid) ==> Has(expanded, uuid)
    ensures Has(expanded, record.uuid)
  {
    hide Has, Reached, ResponseOf, ResultOf;
  }

  lemma {:induction false} NothingExpanded(table: seq<Record>)
    ensures Expanding(table, [], [], {}, {}) && Placed(table, [], [])
  {}

  /** The tool results of a response's blocks, block by block. */
  method ResultsFor(results: map<Token, seq<Record>>, blocks: seq<Record>) returns (r: seq<Record>)
    ensures forall uuid :: Has(r, uuid) <==> exists i :: 0 <= i < |blocks| && blocks[i].uuid in results && Has(results[blocks[i].uuid], uuid)
    ensures forall record :: record in r <==> exists i :: 0 <= i < |blocks| && blocks[i].uuid in results && record in results[blocks[i].uuid]
  {
    r := [];
    for n := 0 to |blocks|
      invariant forall uuid :: Has(r, uuid) <==> exists i :: 0 <= i < n && blocks[i].uuid in results && Has(results[blocks[i].uuid], uuid)
      invariant forall record :: record in r <==> exists i :: 0 <= i < n && blocks[i].uuid in results && record in results[blocks[i].uuid]
    {
      hide Has;
      if blocks[n].uuid in results {
        forall uuid ensures Has(r + results[blocks[n].uuid], uuid) <==> Has(r, uuid) || Has(results[blocks[n].uuid], uuid) {
          HasEither(r, results[blocks[n].uuid], uuid);
        }
        r := r + results[blocks[n].uuid];
      }
    }
  }

  lemma {:induction false} HasEither(a: seq<Record>, b: seq<Record>, uuid: Token)
    ensures Has(a + b, uuid) <==> Has(a, uuid) || Has(b, uuid)
  {
    if Has(a, uuid) { var i :| 0 <= i < |a| && a[i].uuid == uuid; assert (a + b)[i].uuid == uuid; }
    if Has(b, uuid) { var i :| 0 <= i < |b| && b[i].uuid == uuid; assert (a + b)[|a| + i].uuid == uuid; }
  }

  lemma {:induction false} HasMember(records: seq<Record>, others: seq<Record>)
    requires forall record :: record in records <==> record in others
    ensures forall uuid :: Has(records, uuid) <==> Has(others, uuid)
  {
    forall uuid ensures Has(records, uuid) <==> Has(others, uuid) {
      if Has(records, uuid) {
        var i :| 0 <= i < |records| && records[i].uuid == uuid;
        assert records[i] in others;
      }
      if Has(others, uuid) {
        var i :| 0 <= i < |others| && others[i].uuid == uuid;
        assert others[i] in records;
      }
    }
  }

  lemma {:induction false} HasSorted(le: (Record, Record) -> bool, records: seq<Record>)
    ensures forall uuid :: Has(Sort(le, records), uuid) <==> Has(records, uuid)
    ensures forall record :: record in Sort(le, records) <==> record in records
  {
    forall record ensures record in Sort(le, records) <==> record in records { SortMember(le, records, record); }
    HasMember(Sort(le, records), records);
  }

  /** The blocks of the response and their results are what the grouping tells. */
  lemma {:induction false} GroupTells(table: seq<Record>, blocks: map<Response, seq<Record>>, results: map<Token, seq<Record>>,
                                      response: Response, members: seq<Record>, found: seq<Record>)
    requires Distinct(UuidsOf(table)) && response in blocks && BlocksTold(table, blocks, response) && forall parent :: ResultsTold(table, results, parent)
    requires members == Sort(ByResponse(FileOrder(table)), blocks[response])
    requires forall uuid :: Has(found, uuid) <==> exists i :: 0 <= i < |members| && members[i].uuid in results && Has(results[members[i].uuid], uuid)
    requires forall record :: record in found <==> exists i :: 0 <= i < |members| && members[i].uuid in results && record in results[members[i].uuid]
    ensures forall uuid :: Has(members, uuid) <==> ResponseOf(table, uuid) == Some(response)
    ensures forall uuid :: Has(found, uuid) <==> ResultOf(table, uuid) == Some(response)
    ensures (forall record :: record in members ==> record in table) && forall record :: record in found ==> record in table
    ensures Comparable(table, response) ==> Ordered(StandsBefore(FileOrder(table)), members)
  {
    BlocksAre(table, response);
    HasSorted(ByResponse(FileOrder(table)), blocks[response]);
    if Comparable(table, response) { BlocksSorted(table, response); }
    hide ResponseOf, ResultParent, BlocksOf, FileOrder, Sort, Comparable, ByResponse, StandsBefore, Ordered, Distinct;
    forall record | record in found ensures record in table {
      var i :| 0 <= i < |members| && members[i].uuid in results && record in results[members[i].uuid];
      ResultsAre(table, members[i].uuid);
      assert ResultsTold(table, results, members[i].uuid);
    }
    forall uuid ensures Has(found, uuid) <==> ResultOf(table, uuid) == Some(response) { FoundTells(table, results, response, members, found, uuid); }
  }

  lemma {:induction false} FoundTells(table: seq<Record>, results: map<Token, seq<Record>>, response: Response, members: seq<Record>, found: seq<Record>, uuid: Token)
    requires Distinct(UuidsOf(table)) && forall parent :: ResultsTold(table, results, parent)
    requires forall uuid :: Has(members, uuid) <==> ResponseOf(table, uuid) == Some(response)
    requires forall uuid :: Has(found, uuid) <==> exists i :: 0 <= i < |members| && members[i].uuid in results && Has(results[members[i].uuid], uuid)
    ensures Has(found, uuid) <==> ResultOf(table, uuid) == Some(response)
  {
    hide ResponseOf, ResultParent, Distinct;
    if Has(found, uuid) {
      var i :| 0 <= i < |members| && members[i].uuid in results && Has(results[members[i].uuid], uuid);
      ResultsAre(table, members[i].uuid);
      assert ResultsTold(table, results, members[i].uuid);
      HasAt(members, i);
    }
    if ResultOf(table, uuid) == Some(response) {
      var parent := ResultParent(table, uuid).value;
      ResultsAre(table, parent);
      assert ResultsTold(table, results, parent);
      assert ResultsBelow(table, parent) != [];
      assert Has(members, parent);
      var i :| 0 <= i < |members| && members[i].uuid == parent;
    }
  }

  predicate AnyAssistant(selected: seq<Record>) {
    exists i :: 0 <= i < |selected| && selected[i].kind.Assistant?
  }

  // ---- the order of the whole ----

  /** One of the first selected records brings this one. */
  ghost predicate Brought(table: seq<Record>, selected: seq<Record>, uuid: Token, until: nat) {
    exists i: nat :: i < until && i < |selected| && Brings(table, selected[i], uuid)
  }

  /** What stands before a record was brought no later than it. */
  ghost predicate InTurn(table: seq<Record>, selected: seq<Record>, expanded: seq<Record>) {
    forall p: nat, q: nat, i: nat :: p < q < |expanded| && i < |selected| && Brings(table, selected[i], expanded[q].uuid)
      ==> Brought(table, selected, expanded[p].uuid, i + 1)
  }

  /** Blocks are the table's records, and so are the other records unless they are selected themselves. */
  ghost predicate OfTable(table: seq<Record>, selected: seq<Record>, record: Record) {
    (record in table || record in selected) && (ResponseOf(table, record.uuid).Some? ==> record in table)
  }

  ghost predicate AllOfTable(table: seq<Record>, selected: seq<Record>, expanded: seq<Record>) {
    forall p :: 0 <= p < |expanded| ==> OfTable(table, selected, expanded[p])
  }

  /** Two results of a response that were not selected before all of its blocks. */
  ghost predicate Results(table: seq<Record>, selected: seq<Record>, a: Record, b: Record, response: Response) {
    && ResultOf(table, a.uuid) == Some(response) && ResultOf(table, b.uuid) == Some(response)
    && !Early(table, selected, a.uuid, response) && !Early(table, selected, b.uuid, response)
  }

  /** Two of a response stand right: blocks in the response's order, results not selected early in the file's. */
  ghost predicate Right(table: seq<Record>, selected: seq<Record>, a: Record, b: Record, response: Response) {
    && (ResponseOf(table, a.uuid) == Some(response) && ResponseOf(table, b.uuid) == Some(response) && Comparable(table, response) ==> StandsBefore(FileOrder(table))(a, b))
    && (Results(table, selected, a, b, response) ==> ByFile(FileOrder(table))(a, b))
  }

  ghost predicate Arranged(table: seq<Record>, selected: seq<Record>, expanded: seq<Record>) {
    forall p, q, response :: 0 <= p < q < |expanded| ==> Right(table, selected, expanded[p], expanded[q], response)
  }

  /** The whole expansion: what it holds, and in which order. */
  ghost predicate Expansion(table: seq<Record>, selected: seq<Record>, expanded: seq<Record>) {
    && Whole(table, selected, expanded) && InOrder(table, selected, expanded)
    && InTurn(table, selected, expanded) && AllOfTable(table, selected, expanded) && Arranged(table, selected, expanded)
  }

  /** The expansion's records are those some selected record brings. */
  lemma {:induction false} HasIsBrought(table: seq<Record>, selected: seq<Record>, expanded: seq<Record>, uuid: Token)
    requires Whole(table, selected, expanded)
    ensures Has(expanded, uuid) <==> Brought(table, selected, uuid, |selected|)
  {
    if Brought(table, selected, uuid, |selected|) {
      var i: nat :| i < |selected| && Brings(table, selected[i], uuid);
      BroughtIsThere(table, selected, expanded, i, uuid);
    }
    if Has(expanded, uuid) { ThereIsBrought(table, selected, expanded, uuid); }
  }

  lemma {:induction false} BroughtIsThere(table: seq<Record>, selected: seq<Record>, expanded: seq<Record>, i: nat, uuid: Token)
    requires Whole(table, selected, expanded) && i < |selected| && Brings(table, selected[i], uuid)
    ensures Has(expanded, uuid)
  {
    HasAt(selected, i);
    if ResponseOf(table, selected[i].uuid).Some? { assert Reached(table, selected, ResponseOf(table, selected[i].uuid).value); }
    hide Reached, Has, ResponseOf, ResultOf;
  }

  lemma {:induction false} ThereIsBrought(table: seq<Record>, selected: seq<Record>, expanded: seq<Record>, uuid: Token)
    requires Whole(table, selected, expanded) && Has(expanded, uuid)
    ensures Brought(table, selected, uuid, |selected|)
  {
    hide ResponseOf, ResultParent;
    var response := if ResponseOf(table, uuid).Some? then ResponseOf(table, uuid) else ResultOf(table, uuid);
    if response.Some? && Reached(table, selected, response.value) {
      var i :| 0 <= i < |selected| && ResponseOf(table, selected[i].uuid) == response;
      assert Brings(table, selected[i], uuid);
    } else {
      assert ResponseOf(table, uuid).None?;
      assert Has(selected, uuid);
      var i :| 0 <= i < |selected| && selected[i].uuid == uuid;
      assert Brings(table, selected[i], uuid);
    }
  }

  lemma {:induction false} BroughtOne(table: seq<Record>, selected: seq<Record>, record: Record, uuid: Token, until: nat)
    requires Brought(table, selected, uuid, until)
    ensures Brought(table, selected + [record], uuid, until)
  {
    hide Brings;
    var i: nat :| i < until && i < |selected| && Brings(table, selected[i], uuid);
    assert (selected + [record])[i] == selected[i];
  }

  lemma {:induction false} InTurnKept(table: seq<Record>, selected: seq<Record>, record: Record, expanded: seq<Record>, more: seq<Record>)
    requires Whole(table, selected, expanded) && InTurn(table, selected, expanded) && expanded <= more && Distinct(UuidsOf(more))
    requires forall uuid :: Has(more, uuid) <==> Has(expanded, uuid) || Brings(table, record, uuid)
    ensures InTurn(table, selected + [record], more)
  {
    hide *;
    var longer := selected + [record];
    NewOnes(expanded, more);
    forall p: nat, q: nat, i: nat | p < q < |more| && i < |longer| && Brings(table, longer[i], more[q].uuid)
      ensures Brought(table, longer, more[p].uuid, i + 1)
    {
      TurnOfPair(table, selected, record, expanded, more, p, q, i);
    }
    InTurnIs(table, longer, more);
  }

  lemma {:induction false} InTurnIs(table: seq<Record>, selected: seq<Record>, expanded: seq<Record>)
    requires forall p: nat, q: nat, i: nat :: p < q < |expanded| && i < |selected| && Brings(table, selected[i], expanded[q].uuid)
               ==> Brought(table, selected, expanded[p].uuid, i + 1)
    ensures InTurn(table, selected, expanded)
  {
    hide Brings, Brought;
  }

  lemma {:induction false} NewOnes(expanded: seq<Record>, more: seq<Record>)
    requires expanded <= more && Distinct(UuidsOf(more))
    ensures forall p :: 0 <= p < |more| ==> Has(more, more[p].uuid) && (Has(expanded, more[p].uuid) <==> p < |expanded|)
    ensures forall p :: 0 <= p < |expanded| ==> more[p] == expanded[p]
  {
    forall p | 0 <= p < |more| ensures Has(expanded, more[p].uuid) <==> p < |expanded| {
      if p < |expanded| { assert expanded[p] == more[p]; }
      if Has(expanded, more[p].uuid) {
        var k :| 0 <= k < |expanded| && expanded[k].uuid == more[p].uuid;
        assert more[k] == expanded[k];
        assert UuidsOf(more)[k] == UuidsOf(more)[p];
      }
    }
  }

  lemma {:induction false} TurnOfPair(table: seq<Record>, selected: seq<Record>, record: Record, expanded: seq<Record>, more: seq<Record>, p: nat, q: nat, i: nat)
    requires Whole(table, selected, expanded) && InTurn(table, selected, expanded) && expanded <= more
    requires forall uuid :: Has(more, uuid) <==> Has(expanded, uuid) || Brings(table, record, uuid)
    requires forall p :: 0 <= p < |more| ==> Has(more, more[p].uuid) && (Has(expanded, more[p].uuid) <==> p < |expanded|)
    requires forall p :: 0 <= p < |expanded| ==> more[p] == expanded[p]
    requires p < q < |more| && i <= |selected| && Brings(table, (selected + [record])[i], more[q].uuid)
    ensures Brought(table, selected + [record], more[p].uuid, i + 1)
  {
    hide Whole, Has, Brings;
    var longer := selected + [record];
    assert longer[|selected|] == record;
    if i < |selected| {
      assert longer[i] == selected[i];
      HasIsBrought(table, selected, expanded, more[q].uuid);
      assert Brought(table, selected, more[q].uuid, |selected|);
      assert Brought(table, selected, expanded[p].uuid, i + 1);
      BroughtOne(table, selected, record, more[p].uuid, i + 1);
    } else if p < |expanded| {
      HasIsBrought(table, selected, expanded, more[p].uuid);
      BroughtOne(table, selected, record, more[p].uuid, |selected|);
      var k: nat :| k < |selected| && k < |longer| && Brings(table, longer[k], more[p].uuid);
      assert k < i + 1;
    } else {
      assert Brings(table, longer[|selected|], more[p].uuid);
    }
  }

  // ---- the loop ----

  /**
   * The expansion of a walk. It holds every selected uuid once, and besides them all blocks and tool results of the
   * responses the walk reached. Records stand in the order of the selected ones that bring them; of one response the blocks
   * in its own order, then the results in the file's, but for a result selected before all of the response's blocks. With
   * no assistant's record selected, it is the selection.
   */
  method SiblingBlocks(table: seq<Record>, selected: seq<Record>) returns (expanded: seq<Record>)
    requires Distinct(UuidsOf(table))
    ensures if AnyAssistant(selected) then Expansion(table, selected, expanded) else expanded == selected
  {
    hide *;
    if !AnyAssistant(selected) { return selected; }
    var responseOf, blocks, results, fileOrder := Group(table);
    expanded := [];
    var expandedUuids: set<Token> := {};
    var expandedMessages: set<Response> := {};
    NothingExpanded(table);
    assert selected[..0] == [];
    for n := 0 to |selected|
      invariant Expanding(table, selected[..n], expanded, expandedUuids, expandedMessages)
      invariant Placed(table, selected[..n], expanded)
    {
      var record := selected[n];
      assert selected[..n + 1] == selected[..n] + [record];
      Known(table, selected[..n], record, expanded, expandedUuids, expandedMessages, responseOf, blocks, results, fileOrder);
      if record.uuid in expandedUuids {
        Skips(table, selected[..n], record, expanded, expandedUuids, expandedMessages);
        continue;
      }
      if record.uuid !in responseOf {
        PlainKeeps(table, selected[..n], record, expanded, expandedUuids, expandedMessages);
        expandedUuids := expandedUuids + {record.uuid};
        expanded := expanded + [record];
        continue;
      }
      var response := responseOf[record.uuid];
      if response in expandedMessages {
        Skips(table, selected[..n], record, expanded, expandedUuids, expandedMessages);
        continue;
      }
      var responseRecords := Sort(ByResponse(fileOrder), blocks[response]);
      var found := ResultsFor(results, responseRecords);
      var toolResults := Sort(ByFile(fileOrder), found);
      var withBlocks, someUuids := PushNew(expanded, expandedUuids, responseRecords);
      var more, allUuids := PushNew(withBlocks, someUuids, toolResults);
      ResponseKeeps(table, selected[..n], record, expanded, expandedUuids, expandedMessages, blocks, results, fileOrder, response, responseRecords, found, withBlocks, more, allUuids);
      expandedMessages := expandedMessages + {response};
      expanded, expandedUuids := more, allUuids;
    }
    assert selected[..|selected|] == selected;
    Expanded(table, selected, expanded, expandedUuids, expandedMessages);
    ExpansionIs(table, selected, expanded);
  }

  ghost predicate Placed(table: seq<Record>, selected: seq<Record>, expanded: seq<Record>) {
    InTurn(table, selected, expanded) && AllOfTable(table, selected, expanded) && Arranged(table, selected, expanded)
  }

  lemma {:induction false} ExpansionIs(table: seq<Record>, selected: seq<Record>, expanded: seq<Record>)
    requires Whole(table, selected, expanded) && InOrder(table, selected, expanded) && Placed(table, selected, expanded)
    ensures Expansion(table, selected, expanded)
  {
    hide Whole, InOrder, InTurn, AllOfTable, Arranged;
  }

  lemma {:induction false} Known(table: seq<Record>, selected: seq<Record>, record: Record, expanded: seq<Record>, uuids: set<Token>, responses: set<Response>,
                                 responseOf: map<Token, Response>, blocks: map<Response, seq<Record>>, results: map<Token, seq<Record>>, fileOrder: map<Token, nat>)
    requires Distinct(UuidsOf(table)) && Expanding(table, selected, expanded, uuids, responses) && Grouped(table, responseOf, blocks, results, fileOrder)
    ensures Distinct(UuidsOf(expanded)) && (forall uuid :: uuid in uuids <==> Has(expanded, uuid))
    ensures record.uuid in responseOf <==> ResponseOf(table, record.uuid).Some?
    ensures record.uuid in responseOf ==> ResponseOf(table, record.uuid) == Some(responseOf[record.uuid]) && responseOf[record.uuid] in blocks
    ensures (forall response :: BlocksTold(table, blocks, response)) && (forall parent :: ResultsTold(table, results, parent)) && fileOrder == FileOrder(table)
  {
    assert ResponseTold(table, responseOf, record.uuid);
    if record.uuid in responseOf {
      BlocksAre(table, responseOf[record.uuid]);
      assert BlocksTold(table, blocks, responseOf[record.uuid]);
      assert Has(BlocksOf(table, responseOf[record.uuid]), record.uuid);
      assert BlocksOf(table, responseOf[record.uuid]) != [];
    }
    hide Has, Reached, ResponseOf, ResultOf, InOrder, BlocksOf, FileOrder, Whole;
  }

  lemma {:induction false} Expanded(table: seq<Record>, selected: seq<Record>, expanded: seq<Record>, uuids: set<Token>, responses: set<Response>)
    requires Expanding(table, selected, expanded, uuids, responses)
    ensures Whole(table, selected, expanded) && InOrder(table, selected, expanded)
  {
    hide Whole, InOrder;
  }

  lemma {:induction false} Skips(table: seq<Record>, selected: seq<Record>, record: Record, expanded: seq<Record>, uuids: set<Token>, responses: set<Response>)
    requires Expanding(table, selected, expanded, uuids, responses)
    requires record.uuid in uuids || (ResponseOf(table, record.uuid).Some? && ResponseOf(table, record.uuid).value in responses)
    requires Placed(table, selected, expanded)
    ensures Expanding(table, selected + [record], expanded, uuids, responses) && Placed(table, selected + [record], expanded)
  {
    hide Placed, InTurn, AllOfTable, Arranged;
    BringsNothing(table, selected, record, expanded);
    WholeKept(table, selected, record, expanded, expanded);
    ReachedAlready(table, selected, record, expanded);
    assert Distinct(UuidsOf(expanded));
    NoSteps(table, record, expanded);
    hide *;
    OrderKept(table, selected, record, expanded, expanded) by { Expanded(table, selected, expanded, uuids, responses); }
    PlacedKept(table, selected, record, expanded, expanded) by { Expanded(table, selected, expanded, uuids, responses); }
    Again(table, selected, record, expanded, uuids, responses);
  }

  // ---- keeping the order of the whole ----

  lemma {:induction false} PlacedKept(table: seq<Record>, selected: seq<Record>, record: Record, expanded: seq<Record>, more: seq<Record>)
    requires Whole(table, selected, expanded) && Placed(table, selected, expanded) && Steps(table, record, expanded, more)
    requires |more| > |expanded| ==> match ResponseOf(table, record.uuid) case Some(response) => !Reached(table, selected, response) case None => true
    requires forall uuid :: Has(more, uuid) <==> Has(expanded, uuid) || Brings(table, record, uuid)
    requires forall p :: |expanded| <= p < |more| ==> OfTable(table, selected + [record], more[p])
    requires forall p, q, response :: |expanded| <= p < q < |more| ==> Right(table, selected + [record], more[p], more[q], response)
    ensures Placed(table, selected + [record], more)
  {
    assert InTurn(table, selected, expanded) && AllOfTable(table, selected, expanded) && Arranged(table, selected, expanded);
    assert expanded <= more && Distinct(UuidsOf(more));
    hide *;
    InTurnKept(table, selected, record, expanded, more);
    OfTableKept(table, selected, record, expanded, more);
    ArrangedKept(table, selected, record, expanded, more);
    PlacedIs(table, selected + [record], more);
  }

  lemma {:induction false} PlacedIs(table: seq<Record>, selected: seq<Record>, expanded: seq<Record>)
    requires InTurn(table, selected, expanded) && AllOfTable(table, selected, expanded) && Arranged(table, selected, expanded)
    ensures Placed(table, selected, expanded)
  {
    hide InTurn, AllOfTable, Arranged;
  }

  lemma {:induction false} OfTableKept(table: seq<Record>, selected: seq<Record>, record: Record, expanded: seq<Record>, more: seq<Record>)
    requires AllOfTable(table, selected, expanded) && expanded <= more
    requires forall p :: |expanded| <= p < |more| ==> OfTable(table, selected + [record], more[p])
    ensures AllOfTable(table, selected + [record], more)
  {
    hide ResponseOf;
    forall p | 0 <= p < |more| ensures OfTable(table, selected + [record], more[p]) {
      if p < |expanded| { assert more[p] == expanded[p] && OfTable(table, selected, expanded[p]); }
    }
  }

  lemma {:induction false} ArrangedKept(table: seq<Record>, selected: seq<Record>, record: Record, expanded: seq<Record>, more: seq<Record>)
    requires Whole(table, selected, expanded) && Arranged(table, selected, expanded) && Steps(table, record, expanded, more)
    requires |more| > |expanded| ==> match ResponseOf(table, record.uuid) case Some(response) => !Reached(table, selected, response) case None => true
    requires forall p, q, response :: |expanded| <= p < q < |more| ==> Right(table, selected + [record], more[p], more[q], response)
    ensures Arranged(table, selected + [record], more)
  {
    hide Whole, Steps, Right, ResponseOf, Reached;
    forall p, q, response | 0 <= p < q < |more| ensures Right(table, selected + [record], more[p], more[q], response) {
      if p < |expanded| { RightPair(table, selected, record, expanded, more, p, q, response); }
    }
  }

  lemma {:induction false} RightPair(table: seq<Record>, selected: seq<Record>, record: Record, expanded: seq<Record>, more: seq<Record>, p: nat, q: nat, response: Response)
    requires Whole(table, selected, expanded) && Arranged(table, selected, expanded) && Steps(table, record, expanded, more)
    requires |more| > |expanded| ==> match ResponseOf(table, record.uuid) case Some(response) => !Reached(table, selected, response) case None => true
    requires p < |expanded| && p < q < |more|
    ensures Right(table, selected + [record], more[p], more[q], response)
  {
    var a, b := more[p], more[q];
    assert expanded <= more && Distinct(UuidsOf(more));
    NewOnes(expanded, more);
    EarlyOne(table, selected, record, a.uuid, response);
    EarlyOne(table, selected, record, b.uuid, response);
    EarlyWhen(table, selected, a.uuid, response);
    hide FileOrder, ByFile, StandsBefore, Comparable, Distinct;
    if q < |expanded| {
      hide Whole, Steps, ResponseOf, ResultOf, Reached, Has, Early;
      assert Right(table, selected, expanded[p], expanded[q], response);
    } else {
      RightWithNew(table, selected, record, expanded, more, p, q, response);
    }
  }

  lemma {:induction false} RightWithNew(table: seq<Record>, selected: seq<Record>, record: Record, expanded: seq<Record>, more: seq<Record>, p: nat, q: nat, response: Response)
    requires Whole(table, selected, expanded) && Steps(table, record, expanded, more)
    requires |more| > |expanded| ==> match ResponseOf(table, record.uuid) case Some(response) => !Reached(table, selected, response) case None => true
    requires p < |expanded| <= q < |more| && Has(expanded, more[p].uuid) && !Has(expanded, more[q].uuid)
    requires Early(table, selected + [record], more[p].uuid, response) <==> Early(table, selected, more[p].uuid, response) || (record.uuid == more[p].uuid && !Reached(table, selected, response))
    requires Early(table, selected + [record], more[q].uuid, response) <==> Early(table, selected, more[q].uuid, response) || (record.uuid == more[q].uuid && !Reached(table, selected, response))
    requires Has(selected, more[p].uuid) && !Reached(table, selected, response) ==> Early(table, selected, more[p].uuid, response)
    ensures Right(table, selected + [record], more[p], more[q], response)
  {
    if ResponseOf(table, more[q].uuid).Some? { BlockIsNoResult(table, more[q].uuid); }
    if ResponseOf(table, record.uuid).Some? { BlockIsNoResult(table, record.uuid); }
    hide ResponseOf, ResultParent, Has, Reached, Early, Distinct, UuidSet, FileOrder, ByFile, StandsBefore, Comparable, UuidsOf;
  }


  lemma {:induction false} NoSteps(table: seq<Record>, record: Record, expanded: seq<Record>)
    requires Distinct(UuidsOf(expanded))
    ensures Steps(table, record, expanded, expanded)
  {
    if ResponseOf(table, record.uuid).Some? { assert BlocksThenResults(table, ResponseOf(table, record.uuid).value, expanded, expanded, |expanded|); }
  }

  lemma {:induction false} ReachedAlready(table: seq<Record>, selected: seq<Record>, record: Record, expanded: seq<Record>)
    requires Whole(table, selected, expanded) && Has(expanded, record.uuid)
    ensures forall response :: Reached(table, selected + [record], response) <==> Reached(table, selected, response)
  {
    forall response ensures Reached(table, selected + [record], response) <==> Reached(table, selected, response) { ReachedOne(table, selected, record, response); }
  }

  lemma {:induction false} Again(table: seq<Record>, selected: seq<Record>, record: Record, expanded: seq<Record>, uuids: set<Token>, responses: set<Response>)
    requires Expanding(table, selected, expanded, uuids, responses)
    requires Whole(table, selected + [record], expanded) && InOrder(table, selected + [record], expanded)
    requires forall response :: Reached(table, selected + [record], response) <==> Reached(table, selected, response)
    ensures Expanding(table, selected + [record], expanded, uuids, responses)
  {
    hide Whole, InOrder, Reached, Has;
  }

  lemma {:induction false} PlainKeeps(table: seq<Record>, selected: seq<Record>, record: Record, expanded: seq<Record>, uuids: set<Token>, responses: set<Response>)
    requires Expanding(table, selected, expanded, uuids, responses) && record.uuid !in uuids && ResponseOf(table, record.uuid).None?
    requires Placed(table, selected, expanded)
    ensures Expanding(table, selected + [record], expanded + [record], uuids + {record.uuid}, responses)
    ensures Placed(table, selected + [record], expanded + [record])
  {
    hide Placed;
    var more := expanded + [record];
    forall uuid ensures Has(more, uuid) <==> Has(expanded, uuid) || record.uuid == uuid { HasOne(expanded, record, uuid); }
    forall response ensures Reached(table, selected + [record], response) <==> Reached(table, selected, response) { ReachedOne(table, selected, record, response); }
    DistinctOne(expanded, record);
    assert forall uuid :: Brings(table, record, uuid) <==> uuid == record.uuid;
    assert Steps(table, record, expanded, more);
    assert OfTable(table, selected + [record], record);
    hide Has, Reached, Early, ResponseOf, ResultOf, Distinct, Right, OfTable;
    WholeKept(table, selected, record, expanded, more);
    OrderKept(table, selected, record, expanded, more);
    PlacedKept(table, selected, record, expanded, more);
  }

  lemma {:induction false} ResponseKeeps(table: seq<Record>, selected: seq<Record>, record: Record, expanded: seq<Record>, uuids: set<Token>, responses: set<Response>,
                                         blocks: map<Response, seq<Record>>, results: map<Token, seq<Record>>, fileOrder: map<Token, nat>, response: Response,
                                         members: seq<Record>, found: seq<Record>, withBlocks: seq<Record>, more: seq<Record>, allUuids: set<Token>)
    requires Distinct(UuidsOf(table)) && Expanding(table, selected, expanded, uuids, responses) && Placed(table, selected, expanded)
    requires (forall response :: BlocksTold(table, blocks, response)) && (forall parent :: ResultsTold(table, results, parent)) && fileOrder == FileOrder(table)
    requires ResponseOf(table, record.uuid) == Some(response) && response in blocks && response !in responses
    requires members == Sort(ByResponse(fileOrder), blocks[response])
    requires forall uuid :: Has(found, uuid) <==> exists i :: 0 <= i < |members| && members[i].uuid in results && Has(results[members[i].uuid], uuid)
    requires forall record :: record in found <==> exists i :: 0 <= i < |members| && members[i].uuid in results && record in results[members[i].uuid]
    requires var sorted := Sort(ByFile(fileOrder), found);
             && expanded <= withBlocks <= more && Distinct(UuidsOf(more)) && (forall uuid :: uuid in allUuids <==> Has(more, uuid))
             && (forall uuid :: Has(withBlocks, uuid) <==> Has(expanded, uuid) || Has(members, uuid))
             && (forall i :: |expanded| <= i < |withBlocks| ==> Has(members, withBlocks[i].uuid))
             && (forall uuid :: Has(more, uuid) <==> Has(withBlocks, uuid) || Has(sorted, uuid))
             && (forall i :: |withBlocks| <= i < |more| ==> Has(sorted, more[i].uuid) && !Has(withBlocks, more[i].uuid))
             && withBlocks == PushedOnto(expanded, members) && more == PushedOnto(withBlocks, sorted)
    ensures Expanding(table, selected + [record], more, allUuids, responses + {response}) && Placed(table, selected + [record], more)
  {
    hide *;
    var sorted := Sort(ByFile(fileOrder), found);
    GroupTells(table, blocks, results, response, members, found);
    HasSorted(ByFile(fileOrder), found);
    forall other ensures Reached(table, selected + [record], other) <==> Reached(table, selected, other) || other == response { ReachedOne(table, selected, record, other); }
    ResponseSteps(table, record, expanded, response, withBlocks, more, members, sorted);
    NotReached(table, selected, expanded, uuids, responses, response);
    WholeKept(table, selected, record, expanded, more);
    Longer(table, selected, record, expanded, more, response);
    OrderKept(table, selected, record, expanded, more);
    NewRight(table, selected + [record], record, response, expanded, members, sorted, withBlocks, more) by { FileSorted(fileOrder, found); }
    PlacedKept(table, selected, record, expanded, more);
    Reaches(table, selected, record, more, allUuids, responses, response);
  }

  /** The blocks and results of one response stand right among themselves. */
  lemma {:induction false} NewRight(table: seq<Record>, selected: seq<Record>, record: Record, response: Response, expanded: seq<Record>, members: seq<Record>,
                                    sorted: seq<Record>, withBlocks: seq<Record>, more: seq<Record>)
    requires withBlocks == PushedOnto(expanded, members) && more == PushedOnto(withBlocks, sorted) && |expanded| <= |withBlocks| <= |more|
    requires (forall uuid :: Has(members, uuid) <==> ResponseOf(table, uuid) == Some(response)) && forall uuid :: Has(sorted, uuid) <==> ResultOf(table, uuid) == Some(response)
    requires (forall record :: record in members ==> record in table) && forall record :: record in sorted ==> record in table
    requires Comparable(table, response) ==> Ordered(StandsBefore(FileOrder(table)), members)
    requires Ordered(ByFile(FileOrder(table)), sorted)
    ensures forall p :: |expanded| <= p < |more| ==> OfTable(table, selected, more[p])
    ensures forall p, q, other :: |expanded| <= p < q < |more| ==> Right(table, selected, more[p], more[q], other)
  {
    hide *;
    PushedFrom(expanded, members);
    PushedInOrder(ByFile(FileOrder(table)), withBlocks, sorted);
    forall p | |expanded| <= p < |more|
      ensures more[p] in table && if p < |withBlocks| then ResponseOf(table, more[p].uuid) == Some(response) else ResultOf(table, more[p].uuid) == Some(response)
      ensures OfTable(table, selected, more[p])
    {
      NewFrom(table, response, members, sorted, withBlocks, more, p, expanded);
      OfTableIs(table, selected, more[p]);
    }
    forall p, q, other | |expanded| <= p < q < |more| ensures Right(table, selected, more[p], more[q], other) {
      if q < |withBlocks| {
        if Comparable(table, response) {
          PushedInOrder(StandsBefore(FileOrder(table)), expanded, members);
          OrderedAt(StandsBefore(FileOrder(table)), withBlocks, |expanded|, p, q);
        }
        assert more[p] == withBlocks[p] && more[q] == withBlocks[q];
        RightBlocks(table, selected, more[p], more[q], response, other);
      } else if p >= |withBlocks| {
        OrderedAt(ByFile(FileOrder(table)), more, |withBlocks|, p, q);
        RightResults(table, selected, more[p], more[q], response, other);
      } else {
        RightApart(table, selected, more[p], more[q], response, other);
      }
    }
  }

  lemma {:induction false} OrderedAt(before: (Record, Record) -> bool, records: seq<Record>, from: nat, p: nat, q: nat)
    requires from <= p < q < |records| && Ordered(before, records[from..])
    ensures before(records[p], records[q])
  {
    assert records[from..][p - from] == records[p] && records[from..][q - from] == records[q];
  }

  lemma {:induction false} NewFrom(table: seq<Record>, response: Response, members: seq<Record>, sorted: seq<Record>, withBlocks: seq<Record>, more: seq<Record>, p: nat, expanded: seq<Record>)
    requires expanded <= withBlocks <= more && |expanded| <= p < |more|
    requires forall i :: |expanded| <= i < |withBlocks| ==> withBlocks[i] in members
    requires forall i :: |withBlocks| <= i < |more| ==> more[i] in sorted
    requires (forall uuid :: Has(members, uuid) <==> ResponseOf(table, uuid) == Some(response)) && forall uuid :: Has(sorted, uuid) <==> ResultOf(table, uuid) == Some(response)
    requires (forall record :: record in members ==> record in table) && forall record :: record in sorted ==> record in table
    ensures more[p] in table && if p < |withBlocks| then ResponseOf(table, more[p].uuid) == Some(response) else ResultOf(table, more[p].uuid) == Some(response)
  {
    hide ResponseOf, ResultOf;
    var from := if p < |withBlocks| then members else sorted;
    assert p < |withBlocks| ==> more[p] == withBlocks[p];
    assert more[p] in from;
    var k :| 0 <= k < |from| && from[k] == more[p];
    HasAt(from, k);
    hide Has;
  }

  lemma {:induction false} OfTableIs(table: seq<Record>, selected: seq<Record>, record: Record)
    requires record in table
    ensures OfTable(table, selected, record)
  {
    hide ResponseOf;
  }

  lemma {:induction false} RightBlocks(table: seq<Record>, selected: seq<Record>, a: Record, b: Record, response: Response, other: Response)
    requires ResponseOf(table, a.uuid) == Some(response) && ResponseOf(table, b.uuid) == Some(response)
    requires Comparable(table, response) ==> StandsBefore(FileOrder(table))(a, b)
    ensures Right(table, selected, a, b, other)
  {
    BlockIsNoResult(table, a.uuid);
    hide ResponseOf, ResultParent, Comparable, StandsBefore, ByFile, FileOrder, Early;
  }

  lemma {:induction false} RightResults(table: seq<Record>, selected: seq<Record>, a: Record, b: Record, response: Response, other: Response)
    requires ResultOf(table, a.uuid) == Some(response) && ResultOf(table, b.uuid) == Some(response) && ByFile(FileOrder(table))(a, b)
    ensures Right(table, selected, a, b, other)
  {
    if ResponseOf(table, a.uuid).Some? { BlockIsNoResult(table, a.uuid); }
    hide ResponseOf, ResultParent, Comparable, StandsBefore, ByFile, FileOrder, Early;
  }

  lemma {:induction false} RightApart(table: seq<Record>, selected: seq<Record>, a: Record, b: Record, response: Response, other: Response)
    requires ResponseOf(table, a.uuid) == Some(response) && ResultOf(table, b.uuid) == Some(response)
    ensures Right(table, selected, a, b, other)
  {
    BlockIsNoResult(table, a.uuid);
    if ResponseOf(table, b.uuid).Some? { BlockIsNoResult(table, b.uuid); }
    hide ResponseOf, ResultParent, Comparable, StandsBefore, ByFile, FileOrder, Early;
  }

  lemma {:induction false} NotReached(table: seq<Record>, selected: seq<Record>, expanded: seq<Record>, uuids: set<Token>, responses: set<Response>, response: Response)
    requires Expanding(table, selected, expanded, uuids, responses) && response !in responses
    ensures !Reached(table, selected, response) && Whole(table, selected, expanded) && InOrder(table, selected, expanded)
    ensures forall other :: other in responses <==> Reached(table, selected, other)
  {
    hide Whole, InOrder, Reached, Has;
  }

  lemma {:induction false} ResponseSteps(table: seq<Record>, record: Record, expanded: seq<Record>, response: Response, withBlocks: seq<Record>, more: seq<Record>,
                                         members: seq<Record>, found: seq<Record>)
    requires ResponseOf(table, record.uuid) == Some(response) && expanded <= withBlocks <= more && Distinct(UuidsOf(more))
    requires forall uuid :: Has(members, uuid) <==> ResponseOf(table, uuid) == Some(response)
    requires forall uuid :: Has(found, uuid) <==> ResultOf(table, uuid) == Some(response)
    requires forall uuid :: Has(withBlocks, uuid) <==> Has(expanded, uuid) || Has(members, uuid)
    requires forall i :: |expanded| <= i < |withBlocks| ==> Has(members, withBlocks[i].uuid)
    requires forall uuid :: Has(more, uuid) <==> Has(withBlocks, uuid) || Has(found, uuid)
    requires forall i :: |withBlocks| <= i < |more| ==> Has(found, more[i].uuid) && !Has(withBlocks, more[i].uuid)
    ensures Steps(table, record, expanded, more)
    ensures forall uuid :: Has(more, uuid) <==> Has(expanded, uuid) || Brings(table, record, uuid)
  {
    hide Has, ResponseOf, ResultOf, Distinct;
    assert forall i :: 0 <= i < |withBlocks| ==> more[i] == withBlocks[i];
    assert BlocksThenResults(table, response, expanded, more, |withBlocks|);
  }

  lemma {:induction false} Longer(table: seq<Record>, selected: seq<Record>, record: Record, expanded: seq<Record>, more: seq<Record>, response: Response)
    requires Whole(table, selected, expanded) && ResponseOf(table, record.uuid) == Some(response) && !Reached(table, selected, response)
    requires expanded <= more && forall uuid :: Has(more, uuid) <==> Has(expanded, uuid) || Brings(table, record, uuid)
    ensures |more| > |expanded|
  {
    hide ResponseOf, ResultOf, Reached;
    assert Brings(table, record, record.uuid);
    assert Has(more, record.uuid) && !Has(expanded, record.uuid);
    assert |more| == |expanded| ==> more == expanded;
  }

  lemma {:induction false} Reaches(table: seq<Record>, selected: seq<Record>, record: Record, more: seq<Record>, uuids: set<Token>, responses: set<Response>, response: Response)
    requires Whole(table, selected + [record], more) && InOrder(table, selected + [record], more)
    requires forall uuid :: uuid in uuids <==> Has(more, uuid)
    requires forall other :: other in responses <==> Reached(table, selected, other)
    requires forall other :: Reached(table, selected + [record], other) <==> Reached(table, selected, other) || other == response
    ensures Expanding(table, selected + [record], more, uuids, responses + {response})
  {
    hide Whole, InOrder, Reached, Has;
  }
}
