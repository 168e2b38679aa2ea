/** `Meta` of src/meta.ts, and the steps of src/gateway/lineage.ts that update it and the backends in place. */
module MetaStore {
  import opened Basics
  import opened Segments
  import opened LineageTable

  ghost predicate NonEmpty(lineages: Table) {
    forall k :: k in lineages ==> lineages[k] != []
  }

  ghost predicate IsHidden(lineages: Table, hidden: set<Id>) {
    forall id :: id in hidden <==> Hidden(lineages, id)
  }

  ghost predicate Seen(lineages: Table, todo: set<Id>, id: Id) {
    exists k :: k in lineages && k !in todo && Lists(lineages[k], id)
  }

  class Meta {
    var lineages: Table
    var idRewrites: map<Id, Id>
    var hiddenIds: set<Id>

    ghost predicate Valid()
      reads this
    {
      && NonEmpty(lineages) && Ownership(lineages)
      && IsRewrites(lineages, idRewrites) && IsHidden(lineages, hiddenIds)
    }

    constructor ()
      ensures Valid() && lineages == map[]
    {
      lineages, idRewrites, hiddenIds := map[], map[], {};
    }

    /** Rebuilds both indexes. Forks share segments: a segment is hidden unless it is some lineage's own. */
    method Reindex()
      requires NonEmpty(lineages) && Ownership(lineages)
      modifies this
      ensures Valid() && lineages == old(lineages)
    {
      idRewrites, hiddenIds := map[], {};
      var todo := lineages.Keys;
      while todo != {}
        invariant todo <= lineages.Keys && lineages == old(lineages)
        invariant forall b :: b in idRewrites ==>
                    idRewrites[b] in lineages && idRewrites[b] != b && Current(lineages[idRewrites[b]]).threadId == b
        invariant forall k :: k in lineages && k !in todo && Current(lineages[k]).threadId != k ==> Current(lineages[k]).threadId in idRewrites
        invariant forall id :: id in hiddenIds <==> Seen(lineages, todo, id) && id !in lineages
        decreases |todo|
      {
        var publicId :| publicId in todo;
        var segments := lineages[publicId];
        ghost var before := todo;
        todo := todo - {publicId};
        var current := Current(segments);
        if current.threadId != publicId { idRewrites := idRewrites[current.threadId := publicId]; }
        HideSegments(segments);
        SeenStep(lineages, before, publicId);
      }
      forall id ensures Hidden(lineages, id) <==> Seen(lineages, {}, id) && id !in lineages {}
    }

    /** Hides the backends of a lineage that are no lineage's own. */
    method HideSegments(segments: seq<Segment>)
      modifies this`hiddenIds
      ensures forall id :: id in hiddenIds <==> id in old(hiddenIds) || (id !in lineages && Lists(segments, id))
    {
      for i := 0 to |segments|
        invariant forall id :: id in hiddenIds <==> id in old(hiddenIds) || (id !in lineages && Lists(segments[..i], id))
      {
        ListsStep(segments, i);
        if segments[i].threadId !in lineages { hiddenIds := hiddenIds + {segments[i].threadId}; }
      }
      assert segments[..|segments|] == segments;
    }

    method SetLineage(publicId: Id, segments: seq<Segment>)
      requires segments != [] && NonEmpty(lineages) && Ownership(lineages[publicId := segments])
      modifies this
      ensures Valid() && lineages == old(lineages)[publicId := segments]
    {
      lineages := lineages[publicId := segments];
      Reindex();
    }

    method DeleteLineage(publicId: Id)
      requires NonEmpty(lineages) && Ownership(lineages)
      modifies this
      ensures Valid() && lineages == old(lineages) - {publicId}
    {
      Removed(lineages, publicId);
      lineages := lineages - {publicId};
      Reindex();
    }

    /** The segment whose backend carries the lineage's row: the public id's own. */
    method Row(publicId: Id) returns (row: nat)
      requires Valid() && publicId in lineages
      ensures row < |lineages[publicId]| && lineages[publicId][row].threadId == publicId
      ensures forall i :: 0 <= i < |lineages[publicId]| && lineages[publicId][i].threadId == publicId ==> i == row
    {
      var segments := lineages[publicId];
      row := 0;
      while segments[row].threadId != publicId
        invariant row < |segments| && forall i :: 0 <= i < row ==> segments[i].threadId != publicId
        decreases |segments| - row
      {
        row := row + 1;
      }
    }
  }

  lemma {:induction false} ListsStep(segments: seq<Segment>, i: nat)
    requires i < |segments|
    ensures forall id :: Lists(segments[..i + 1], id) <==> Lists(segments[..i], id) || id == segments[i].threadId
  {
    assert segments[..i + 1][i] == segments[i];
    assert forall j :: 0 <= j < i ==> segments[..i + 1][j] == segments[..i][j];
  }

  lemma {:induction false} SeenStep(lineages: Table, todo: set<Id>, publicId: Id)
    requires publicId in todo && publicId in lineages
    ensures forall id :: Seen(lineages, todo - {publicId}, id) <==> Seen(lineages, todo, id) || Lists(lineages[publicId], id)
  {
    forall id ensures Seen(lineages, todo - {publicId}, id) <==> Seen(lineages, todo, id) || Lists(lineages[publicId], id) {
      if Seen(lineages, todo, id) {
        var k :| k in lineages && k !in todo && Lists(lineages[k], id);
        assert k !in todo - {publicId};
      }
      if Lists(lineages[publicId], id) { assert publicId !in todo - {publicId}; }
    }
  }

  /** The gateway's lineages: the table, and the backends that exist in the two providers. */
  class Gateway {
    const meta: Meta
    var alive: set<Id>

    ghost predicate Valid()
      reads this, meta
    {
      meta.Valid()
    }

    ghost function Now(): State
      reads this, meta
    {
      State(meta.lineages, alive)
    }

    constructor (threads: set<Id>)
      ensures Valid() && fresh(meta) && Now() == State(map[], threads)
    {
      meta := new Meta();
      alive := threads;
    }

    /** The `setLineage` step of a switch, towards either provider. */
    method SwitchProvider(publicId: Id, lastTurnId: Option<Id>, provider: Provider, backendId: Id)
      requires Valid() && Enabled(Now(), Step.Switch(publicId, lastTurnId, provider, backendId))
      modifies this, meta
      ensures Valid() && Now() == Next(old(Now()), Step.Switch(publicId, lastTurnId, provider, backendId))
    {
      StepKeeps(Now(), Step.Switch(publicId, lastTurnId, provider, backendId));
      var segments := SegmentsOf(meta.lineages, publicId, if provider.Claude? then Codex else Claude);
      alive := alive + {backendId};
      meta.SetLineage(publicId, Switched(segments, lastTurnId, provider, backendId));
    }

    method Fork(publicId: Id, index: nat, forkedId: Id)
      requires Valid() && Enabled(Now(), Step.Fork(publicId, index, forkedId))
      modifies this, meta
      ensures Valid() && Now() == Next(old(Now()), Step.Fork(publicId, index, forkedId))
    {
      StepKeeps(Now(), Step.Fork(publicId, index, forkedId));
      alive := alive + {forkedId};
      if publicId in meta.lineages && |meta.lineages[publicId]| > 1 && index > 0 {
        var segments := meta.lineages[publicId];
        meta.SetLineage(forkedId, segments[..index] + [Segment(segments[index].provider, forkedId, None)]);
      }
    }

    /** The table steps of a revert that keeps the first `keep` segments, and the backends it drops. */
    method Revert(publicId: Id, keep: nat)
      requires Valid() && Enabled(Now(), Step.Revert(publicId, keep))
      modifies this, meta
      ensures Valid() && Now() == Next(old(Now()), Step.Revert(publicId, keep))
    {
      if publicId !in meta.lineages || |meta.lineages[publicId]| == 1 { return; }
      StepKeeps(Now(), Step.Revert(publicId, keep));
      var segments := meta.lineages[publicId];
      var dropped := segments[keep..];
      var row := meta.Row(publicId);
      if row >= keep {
        assert dropped[row - keep].threadId == publicId;
        return;
      }
      assert !Lists(dropped, publicId) by {
        forall i | 0 <= i < |dropped| ensures dropped[i].threadId != publicId { assert dropped[i] == segments[keep + i]; }
      }
      var kept := Kept(segments, keep);
      var shared := Shared(meta.lineages, publicId, publicId);
      if keep == 1 && kept[0].threadId == publicId && !shared { meta.DeleteLineage(publicId); }
      else { meta.SetLineage(publicId, kept); }
      for i := 0 to |dropped|
        invariant Valid() && meta.lineages == Reverted(old(meta.lineages), publicId, keep)
        invariant alive == old(alive) - Unlisted(dropped[..i], meta.lineages)
      {
        UnlistedStep(dropped, i, meta.lineages);
        if !Listed(meta.lineages, dropped[i].threadId) { alive := alive - {dropped[i].threadId}; }
      }
      assert dropped[..|dropped|] == dropped;
    }

    method Delete(publicId: Id)
      requires Valid() && Enabled(Now(), Step.Delete(publicId))
      modifies this, meta
      ensures Valid() && Now() == Next(old(Now()), Step.Delete(publicId))
    {
      if publicId !in meta.lineages { alive := alive - {publicId}; return; }
      var segments := meta.lineages[publicId];
      if |segments| == 1 { alive := alive - {segments[0].threadId}; return; }
      ListedRemoved(meta.lineages, publicId);
      for i := 0 to |segments|
        invariant Valid() && meta.lineages == old(meta.lineages)
        invariant alive == old(alive) - Unlisted(segments[..i], meta.lineages - {publicId})
      {
        UnlistedStep(segments, i, meta.lineages - {publicId});
        if !Shared(meta.lineages, publicId, segments[i].threadId) { alive := alive - {segments[i].threadId}; }
      }
      assert segments[..|segments|] == segments;
      meta.DeleteLineage(publicId);
    }
  }

  lemma {:induction false} UnlistedStep(segments: seq<Segment>, i: nat, lineages: Table)
    requires i < |segments|
    ensures Unlisted(segments[..i + 1], lineages)
         == Unlisted(segments[..i], lineages) + if Listed(lineages, segments[i].threadId) then {} else {segments[i].threadId}
  {
    var one, next := segments[..i], segments[..i + 1];
    assert next[i] == segments[i];
    assert forall j :: 0 <= j < i ==> next[j] == one[j];
    forall id ensures id in Unlisted(next, lineages) <==>
                      id in Unlisted(one, lineages) || (id == segments[i].threadId && !Listed(lineages, id)) {
      if id in Unlisted(one, lineages) {
        var j :| 0 <= j < |one| && one[j].threadId == id && !Listed(lineages, one[j].threadId);
        assert next[j].threadId == id;
      }
    }
  }
}
