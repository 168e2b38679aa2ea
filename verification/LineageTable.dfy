/**
 * The lineage table of src/meta.ts and the steps src/gateway/lineage.ts takes on it: who owns which backend over
 * every run of switches, forks, reverts and deletes.
 */
module LineageTable {
  import opened Basics
  import opened Segments

  type Table = map<Id, seq<Segment>>

  /** The table, and the backends that exist in the two providers. */
  datatype State = State(lineages: Table, alive: set<Id>)

  datatype Step =
    | Switch(publicId: Id, lastTurnId: Option<Id>, provider: Provider, backendId: Id)
    | Fork(publicId: Id, index: nat, forkedId: Id)
    | Revert(publicId: Id, keep: nat)
    | Delete(publicId: Id)

  predicate Lists(segments: seq<Segment>, id: Id) {
    exists i :: 0 <= i < |segments| && segments[i].threadId == id
  }

  /** Whether some lineage lists a backend. */
  predicate Listed(lineages: Table, id: Id) {
    exists k :: k in lineages && Lists(lineages[k], id)
  }

  /** Whether a lineage other than `publicId`'s lists a backend. */
  predicate Shared(lineages: Table, publicId: Id, id: Id) {
    exists k :: k in lineages && k != publicId && Lists(lineages[k], id)
  }

  /** A backend that only exists as a part of some lineage. */
  predicate Hidden(lineages: Table, id: Id) { Listed(lineages, id) && id !in lineages }

  function Current(segments: seq<Segment>): Segment
    requires segments != []
  {
    segments[|segments| - 1]
  }

  function SegmentsOf(lineages: Table, publicId: Id, provider: Provider): seq<Segment> {
    if publicId in lineages then lineages[publicId] else [Segment(provider, publicId, None)]
  }

  // ---- the steps ----

  /** Switching provider: the current segment is cut at its last turn, a new backend becomes current. */
  function Switched(segments: seq<Segment>, lastTurnId: Option<Id>, provider: Provider, backendId: Id): seq<Segment>
    requires segments != []
  {
    segments[..|segments| - 1] + [Current(segments).(lastTurnId := lastTurnId), Segment(provider, backendId, None)]
  }

  function Kept(segments: seq<Segment>, keep: nat): seq<Segment>
    requires 0 < keep <= |segments|
  {
    segments[..keep - 1] + [segments[keep - 1].(lastTurnId := None)]
  }

  /** The table after a revert: a lineage back to its own single thread is dropped, unless forks still list it. */
  function Reverted(lineages: Table, publicId: Id, keep: nat): Table
    requires publicId in lineages && 0 < keep <= |lineages[publicId]|
  {
    var kept := Kept(lineages[publicId], keep);
    if keep == 1 && kept[0].threadId == publicId && !Shared(lineages, publicId, publicId)
    then lineages - {publicId}
    else lineages[publicId := kept]
  }

  /** Segments' backends that no lineage of a table lists. */
  function Unlisted(segments: seq<Segment>, lineages: Table): set<Id> {
    set i | 0 <= i < |segments| && !Listed(lineages, segments[i].threadId) :: segments[i].threadId
  }

  /** Whether a client can ask for a step: it names a thread clients see, and new backends are new. */
  predicate Enabled(s: State, step: Step) {
    && step.publicId in s.alive && !Hidden(s.lineages, step.publicId)
    && (step.publicId in s.lineages ==> s.lineages[step.publicId] != [])
    && match step
       case Switch(_, _, _, backendId) => backendId !in s.alive && backendId !in s.lineages && !Listed(s.lineages, backendId)
       case Fork(publicId, index, forkedId) =>
         && forkedId !in s.alive && forkedId !in s.lineages && !Listed(s.lineages, forkedId)
         && (publicId in s.lineages ==> index < |s.lineages[publicId]|)
       case Revert(publicId, keep) => publicId in s.lineages ==> 0 < keep <= |s.lineages[publicId]|
       case Delete(_) => true
  }

  function Next(s: State, step: Step): State
    requires Enabled(s, step)
  {
    var id := step.publicId;
    match step
    case Switch(_, lastTurnId, provider, backendId) =>
      var segments := SegmentsOf(s.lineages, id, if provider.Claude? then Codex else Claude);
      State(s.lineages[id := Switched(segments, lastTurnId, provider, backendId)], s.alive + {backendId})
    case Fork(_, index, forkedId) =>
      // A thread of one segment, or a fork in the first one, is forked by its backend alone.
      if id !in s.lineages || index == 0 || |s.lineages[id]| == 1 then s.(alive := s.alive + {forkedId})
      else var segments := s.lineages[id];
           State(s.lineages[forkedId := segments[..index] + [Segment(segments[index].provider, forkedId, None)]], s.alive + {forkedId})
    case Revert(_, keep) =>
      // One segment: its backend's own business. Past the fork's own segment: refused.
      if id !in s.lineages || |s.lineages[id]| == 1 || Lists(s.lineages[id][keep..], id) then s
      else var lineages := Reverted(s.lineages, id, keep);
           State(lineages, s.alive - Unlisted(s.lineages[id][keep..], lineages))
    case Delete(_) =>
      // One segment: the request goes to its backend, the table stays.
      if id !in s.lineages then s.(alive := s.alive - {id})
      else if |s.lineages[id]| == 1 then s.(alive := s.alive - {s.lineages[id][0].threadId})
      else State(s.lineages - {id}, s.alive - Unlisted(s.lineages[id], s.lineages - {id}))
  }

  // ---- ownership ----

  /** The backends a lineage owns: from the public id's own segment on. */
  ghost predicate Owns(segments: seq<Segment>, publicId: Id, id: Id) {
    exists i, j :: 0 <= i <= j < |segments| && segments[i].threadId == publicId && segments[j].threadId == id
  }

  ghost predicate DistinctThreads(segments: seq<Segment>) {
    forall i, j :: 0 <= i < j < |segments| ==> segments[i].threadId != segments[j].threadId
  }

  /** Each lineage's key is one of its segments, none is listed in it twice, and no two lineages own the same backend. */
  ghost predicate Ownership(lineages: Table) {
    && (forall k :: k in lineages ==> Lists(lineages[k], k) && DistinctThreads(lineages[k]))
    && forall k, l, id :: k in lineages && l in lineages && k != l && Owns(lineages[k], k, id) ==> !Owns(lineages[l], l, id)
  }

  /** No backend that a lineage lists is gone. */
  ghost predicate ListedAlive(s: State) {
    forall id :: Listed(s.lineages, id) ==> id in s.alive
  }

  lemma {:induction false} OwnsIsListed(lineages: Table, k: Id, id: Id)
    requires k in lineages && Owns(lineages[k], k, id)
    ensures Lists(lineages[k], id) && Listed(lineages, id)
  {}

  /** What replaces one lineage's segments keeps ownership when what it owns is its own already, or nobody's. */
  lemma {:induction false} Replaced(lineages: Table, publicId: Id, segments: seq<Segment>)
    requires Ownership(lineages) && Lists(segments, publicId) && DistinctThreads(segments)
    requires forall id, k :: k in lineages && k != publicId && Owns(segments, publicId, id) ==> !Owns(lineages[k], k, id)
    ensures Ownership(lineages[publicId := segments])
  {}

  lemma {:induction false} Removed(lineages: Table, publicId: Id)
    requires Ownership(lineages)
    ensures Ownership(lineages - {publicId})
  {}

  lemma {:induction false} SwitchedOwns(segments: seq<Segment>, publicId: Id, lastTurnId: Option<Id>, provider: Provider, backendId: Id)
    requires segments != [] && Lists(segments, publicId) && DistinctThreads(segments) && !Lists(segments, backendId)
    ensures var after := Switched(segments, lastTurnId, provider, backendId);
            && Lists(after, publicId) && DistinctThreads(after)
            && (forall id :: Owns(after, publicId, id) ==> id == backendId || Owns(segments, publicId, id))
            && (forall id :: Lists(after, id) <==> Lists(segments, id) || id == backendId)
  {
    var after := Switched(segments, lastTurnId, provider, backendId);
    assert |after| == |segments| + 1 && after[|segments|].threadId == backendId;
    assert forall i :: 0 <= i < |segments| ==> after[i].threadId == segments[i].threadId;
  }

  lemma {:induction false} SwitchKeeps(s: State, publicId: Id, lastTurnId: Option<Id>, provider: Provider, backendId: Id)
    requires Ownership(s.lineages)
    requires Enabled(s, Switch(publicId, lastTurnId, provider, backendId))
    ensures var after := Next(s, Switch(publicId, lastTurnId, provider, backendId));
            Ownership(after.lineages) && (ListedAlive(s) ==> ListedAlive(after))
  {
    var segments := SegmentsOf(s.lineages, publicId, if provider.Claude? then Codex else Claude);
    var next := Switched(segments, lastTurnId, provider, backendId);
    if publicId !in s.lineages { assert segments[0].threadId == publicId; }
    SwitchedOwns(segments, publicId, lastTurnId, provider, backendId);
    forall id, k | k in s.lineages && k != publicId && Owns(next, publicId, id) ensures !Owns(s.lineages[k], k, id) {
      if Owns(s.lineages[k], k, id) { OwnsIsListed(s.lineages, k, id); }
    }
    Replaced(s.lineages, publicId, next);
    ListedReplaced(s.lineages, publicId, next);
  }

  /** Replacing one lineage's segments lists what the others list, and the new segments. */
  lemma {:induction false} ListedReplaced(lineages: Table, publicId: Id, segments: seq<Segment>)
    ensures forall id :: Listed(lineages[publicId := segments], id) <==> Shared(lineages, publicId, id) || Lists(segments, id)
  {
    forall id ensures Listed(lineages[publicId := segments], id) <==> Shared(lineages, publicId, id) || Lists(segments, id) {
      var after := lineages[publicId := segments];
      if Listed(after, id) {
        var k :| k in after && Lists(after[k], id);
        assert k != publicId ==> after[k] == lineages[k];
      }
      if Shared(lineages, publicId, id) {
        var k :| k in lineages && k != publicId && Lists(lineages[k], id);
        assert after[k] == lineages[k];
      }
      if Lists(segments, id) { assert after[publicId] == segments; }
    }
  }

  lemma {:induction false} ForkedOwns(segments: seq<Segment>, index: nat, forkedId: Id)
    requires index < |segments| && DistinctThreads(segments) && !Lists(segments, forkedId)
    ensures var after := segments[..index] + [Segment(segments[index].provider, forkedId, None)];
            && Lists(after, forkedId) && DistinctThreads(after)
            && (forall id :: Owns(after, forkedId, id) ==> id == forkedId)
            && (forall id :: Lists(after, id) ==> Lists(segments, id) || id == forkedId)
  {
    var after := segments[..index] + [Segment(segments[index].provider, forkedId, None)];
    assert after[index].threadId == forkedId;
    assert forall i :: 0 <= i < index ==> after[i] == segments[i];
  }

  lemma {:induction false} ForkKeeps(s: State, publicId: Id, index: nat, forkedId: Id)
    requires Ownership(s.lineages)
    requires Enabled(s, Fork(publicId, index, forkedId))
    ensures var after := Next(s, Fork(publicId, index, forkedId));
            Ownership(after.lineages) && (ListedAlive(s) ==> ListedAlive(after))
  {
    if publicId in s.lineages && index > 0 && |s.lineages[publicId]| > 1 {
      var segments := s.lineages[publicId];
      var forked := segments[..index] + [Segment(segments[index].provider, forkedId, None)];
      ForkedOwns(segments, index, forkedId);
      forall k | k in s.lineages ensures !Owns(s.lineages[k], k, forkedId) {
        if Owns(s.lineages[k], k, forkedId) { OwnsIsListed(s.lineages, k, forkedId); }
      }
      Replaced(s.lineages, forkedId, forked);
      ListedReplaced(s.lineages, forkedId, forked);
    }
  }

  lemma {:induction false} KeptOwns(segments: seq<Segment>, publicId: Id, keep: nat)
    requires 0 < keep <= |segments| && DistinctThreads(segments) && Lists(segments, publicId) && !Lists(segments[keep..], publicId)
    ensures var after := Kept(segments, keep);
            && Lists(after, publicId) && DistinctThreads(after)
            && (forall id :: Owns(after, publicId, id) ==> Owns(segments, publicId, id))
            && (forall id :: Lists(segments, id) <==> Lists(after, id) || Lists(segments[keep..], id))
  {
    var after := Kept(segments, keep);
    assert forall i :: 0 <= i < keep ==> after[i].threadId == segments[i].threadId;
    assert forall i :: keep <= i < |segments| ==> segments[i] == segments[keep..][i - keep];
  }

  lemma {:induction false} ListedRemoved(lineages: Table, publicId: Id)
    ensures forall id :: Listed(lineages - {publicId}, id) <==> Shared(lineages, publicId, id)
  {
    forall id ensures Listed(lineages - {publicId}, id) <==> Shared(lineages, publicId, id) {
      var after := lineages - {publicId};
      if Shared(lineages, publicId, id) {
        var k :| k in lineages && k != publicId && Lists(lineages[k], id);
        assert k in after && after[k] == lineages[k];
      }
    }
  }

  lemma {:induction false} RevertKeeps(s: State, publicId: Id, keep: nat)
    requires Ownership(s.lineages)
    requires Enabled(s, Revert(publicId, keep))
    ensures var after := Next(s, Revert(publicId, keep));
            Ownership(after.lineages) && (ListedAlive(s) ==> ListedAlive(after))
  {
    if publicId in s.lineages && |s.lineages[publicId]| > 1 && !Lists(s.lineages[publicId][keep..], publicId) {
      var segments := s.lineages[publicId];
      var after := Reverted(s.lineages, publicId, keep);
      KeptOwns(segments, publicId, keep);
      Replaced(s.lineages, publicId, Kept(segments, keep));
      Removed(s.lineages, publicId);
      ListedReplaced(s.lineages, publicId, Kept(segments, keep));
      ListedRemoved(s.lineages, publicId);
      forall id | Listed(after, id) ensures Listed(s.lineages, id) && id !in Unlisted(segments[keep..], after) {
        if Lists(Kept(segments, keep), id) { assert Lists(segments, id); }
      }
    }
  }

  /** Deleting keeps ownership; no listed backend goes with it exactly when the table has no single segment for the thread. */
  lemma {:induction false} DeleteKeeps(s: State, publicId: Id)
    requires Ownership(s.lineages)
    requires Enabled(s, Delete(publicId))
    ensures var after := Next(s, Delete(publicId));
            && Ownership(after.lineages)
            && (ListedAlive(s) ==> (ListedAlive(after) <==> (publicId in s.lineages ==> |s.lineages[publicId]| > 1)))
  {
    var after := Next(s, Delete(publicId));
    if publicId in s.lineages {
      var segments := s.lineages[publicId];
      Removed(s.lineages, publicId);
      ListedRemoved(s.lineages, publicId);
      if |segments| == 1 {
        assert segments[0].threadId == publicId;
        assert Listed(after.lineages, publicId) && publicId !in after.alive;
      } else {
        forall id | ListedAlive(s) && Listed(after.lineages, id) ensures id in after.alive { assert Listed(s.lineages, id); }
      }
    }
  }

  // ---- runs ----

  /** A step that deletes a thread kept as a lineage of one segment (a fork lists it, or did). */
  predicate DeletesSingle(s: State, step: Step) {
    step.Delete? && step.publicId in s.lineages && |s.lineages[step.publicId]| == 1
  }

  /** A run: the states it passes, and the steps between them. */
  ghost predicate Runs(states: seq<State>, steps: seq<Step>) {
    |states| == |steps| + 1 && forall i :: 0 <= i < |steps| ==> Enabled(states[i], steps[i]) && states[i + 1] == Next(states[i], steps[i])
  }

  // ---- what the steps leave ----

  /** A switch cuts the last segment and appends the new backend's; every other segment, and every other lineage, is as it was. */
  lemma {:induction false} SwitchLeaves(s: State, id: Id, lastTurnId: Option<Id>, provider: Provider, backendId: Id)
    requires Enabled(s, Switch(id, lastTurnId, provider, backendId))
    ensures var after := Next(s, Switch(id, lastTurnId, provider, backendId));
            && after.alive == s.alive + {backendId} && after.lineages.Keys == s.lineages.Keys + {id}
            && (forall k :: k in s.lineages && k != id ==> after.lineages[k] == s.lineages[k])
            && var now := after.lineages[id];
               && |now| >= 2 && now[|now| - 1] == Segment(provider, backendId, None) && now[|now| - 2].lastTurnId == lastTurnId
               && if id in s.lineages then
                    && |now| == |s.lineages[id]| + 1 && (forall i :: 0 <= i < |now| - 2 ==> now[i] == s.lineages[id][i])
                    && now[|now| - 2].threadId == s.lineages[id][|now| - 2].threadId && now[|now| - 2].provider == s.lineages[id][|now| - 2].provider
                  else |now| == 2 && now[0].threadId == id && now[0].provider != provider
  {
    assert !Hidden(s.lineages, id);
  }

  /** A fork past the first segment gets the segments before it and its own backend; any other is its backend's alone. */
  lemma {:induction false} ForkLeaves(s: State, id: Id, index: nat, forkedId: Id)
    requires Enabled(s, Fork(id, index, forkedId))
    ensures var after := Next(s, Fork(id, index, forkedId));
            && after.alive == s.alive + {forkedId}
            && (forall k :: k in s.lineages ==> k in after.lineages && after.lineages[k] == s.lineages[k])
            && if id in s.lineages && index > 0 then
                 && after.lineages.Keys == s.lineages.Keys + {forkedId} && |after.lineages[forkedId]| == index + 1
                 && (forall i :: 0 <= i < index ==> after.lineages[forkedId][i] == s.lineages[id][i])
                 && after.lineages[forkedId][index] == Segment(s.lineages[id][index].provider, forkedId, None)
               else after.lineages == s.lineages
  {}

  /**
   * A revert that keeps the thread's own segment, of several, keeps the first segments, the last of them without its cut; or
   * drops the lineage, when only that segment is left and no other lineage lists it. The backends that no lineage lists then go.
   */
  lemma {:induction false} RevertLeaves(s: State, id: Id, keep: nat)
    requires Enabled(s, Revert(id, keep))
    ensures var after := Next(s, Revert(id, keep));
            if id in s.lineages && |s.lineages[id]| > 1 && forall i :: keep <= i < |s.lineages[id]| ==> s.lineages[id][i].threadId != id then
              var was := s.lineages[id];
              && (forall k :: k in s.lineages && k != id ==> k in after.lineages && after.lineages[k] == s.lineages[k])
              && (if keep == 1 && was[0].threadId == id && forall k :: k in s.lineages && k != id ==> forall i :: 0 <= i < |s.lineages[k]| ==> s.lineages[k][i].threadId != id
                  then after.lineages.Keys == s.lineages.Keys - {id}
                  else
                    && after.lineages.Keys == s.lineages.Keys && |after.lineages[id]| == keep
                    && (forall i :: 0 <= i < keep - 1 ==> after.lineages[id][i] == was[i])
                    && after.lineages[id][keep - 1] == Segment(was[keep - 1].provider, was[keep - 1].threadId, None))
              && forall b :: b in after.alive <==>
                   b in s.alive && ((exists i :: keep <= i < |was| && was[i].threadId == b) ==> Listed(after.lineages, b))
            else after == s
  {
    hide Listed;
    if id in s.lineages {
      var was, dropped := s.lineages[id], s.lineages[id][keep..];
      assert forall i :: keep <= i < |was| ==> was[i] == dropped[i - keep];
      assert Lists(dropped, id) <==> exists i :: keep <= i < |was| && was[i].threadId == id;
    }
  }

  /** Deleting a thread of several segments drops its lineage, and exactly those of its backends that no other lineage lists. */
  lemma {:induction false} DeleteLeaves(s: State, id: Id)
    requires Enabled(s, Delete(id))
    ensures var after := Next(s, Delete(id));
            if id in s.lineages && |s.lineages[id]| > 1 then
              && after.lineages == s.lineages - {id}
              && forall b :: b in after.alive <==>
                   b in s.alive && ((exists i :: 0 <= i < |s.lineages[id]| && s.lineages[id][i].threadId == b) ==>
                     exists k, j :: k in s.lineages && k != id && 0 <= j < |s.lineages[k]| && s.lineages[k][j].threadId == b)
            else after == s.(alive := s.alive - {if id in s.lineages then s.lineages[id][0].threadId else id})
  {
    if id in s.lineages {
      ListedRemoved(s.lineages, id);
      var was := s.lineages[id];
      forall b ensures Shared(s.lineages, id, b) <==> exists k, j :: k in s.lineages && k != id && 0 <= j < |s.lineages[k]| && s.lineages[k][j].threadId == b {
        if k, j :| k in s.lineages && k != id && 0 <= j < |s.lineages[k]| && s.lineages[k][j].threadId == b { assert Lists(s.lineages[k], b); }
      }
      hide Listed, Shared;
      assert forall b :: b in Unlisted(was, s.lineages - {id}) <==> !Listed(s.lineages - {id}, b) && exists i :: 0 <= i < |was| && was[i].threadId == b;
    }
  }

  /** Every step keeps ownership, and keeps every listed backend exactly unless it deletes a thread of one segment. */
  lemma {:induction false} StepKeeps(s: State, step: Step)
    requires Ownership(s.lineages) && Enabled(s, step)
    ensures Ownership(Next(s, step).lineages)
    ensures ListedAlive(s) ==> (ListedAlive(Next(s, step)) <==> !DeletesSingle(s, step))
  {
    match step
    case Switch(id, last, provider, backend) => SwitchKeeps(s, id, last, provider, backend);
    case Fork(id, index, forked) => ForkKeeps(s, id, index, forked);
    case Revert(id, keep) => RevertKeeps(s, id, keep);
    case Delete(id) => DeleteKeeps(s, id);
  }

  /** Every run keeps ownership; until it deletes a thread of one segment it loses no backend a lineage lists. */
  lemma {:induction false} RunKeeps(states: seq<State>, steps: seq<Step>, n: nat)
    requires Runs(states, steps) && Ownership(states[0].lineages) && n <= |steps|
    ensures Ownership(states[n].lineages)
    ensures ListedAlive(states[0]) && (forall i :: 0 <= i < n ==> !DeletesSingle(states[i], steps[i])) ==> ListedAlive(states[n])
  {
    hide Ownership, ListedAlive, Enabled, Next, DeletesSingle;
    if n > 0 {
      RunKeeps(states, steps, n - 1);
      StepKeeps(states[n - 1], steps[n - 1]);
    }
  }

  /** Backends `a` and `b` of one lineage, and `c` forked in its second segment. */
  ghost predicate ForkedPair(s: State, a: Id, b: Id, c: Id) {
    && a != b && b != c && a != c && s.alive == {a, b, c} && s.lineages.Keys == {a, c}
    && s.lineages[a] == [Segment(Codex, a, None), Segment(Claude, b, None)]
    && s.lineages[c] == [Segment(Codex, a, None), Segment(Claude, c, None)]
  }

  lemma {:induction false} ForkedPairReached(a: Id, b: Id, c: Id)
    requires a != b && b != c && a != c
    ensures var s := State(map[], {a});
            && Enabled(s, Switch(a, None, Claude, b))
            && Enabled(Next(s, Switch(a, None, Claude, b)), Fork(a, 1, c))
            && ForkedPair(Next(Next(s, Switch(a, None, Claude, b)), Fork(a, 1, c)), a, b, c)
  {
    var first, second := Segment(Codex, a, None), Segment(Claude, b, None);
    var s1 := Next(State(map[], {a}), Switch(a, None, Claude, b));
    assert s1.lineages[a] == [first, second] && s1.alive == {a, b};
    assert [first, second][..1] == [first];
    forall k | k in s1.lineages ensures !Lists(s1.lineages[k], c) {}
  }

  lemma {:induction false} RevertedPair(s: State, a: Id, b: Id, c: Id)
    requires ForkedPair(s, a, b, c)
    ensures Enabled(s, Revert(a, 1))
    ensures var after := Next(s, Revert(a, 1));
            && a in after.lineages && after.lineages[a] == [Segment(Codex, a, None)]
            && c in after.lineages && after.lineages[c] == s.lineages[c] && after.alive == {a, c}
  {
    var first, second := Segment(Codex, a, None), Segment(Claude, b, None);
    assert s.lineages[c][0].threadId == a && Shared(s.lineages, a, a);
    assert [first, second][1..] == [second] && Kept([first, second], 1) == [first];
    var after := Reverted(s.lineages, a, 1);
    assert after == s.lineages[a := [first]];
    assert !Listed(after, b);
    assert [second][0].threadId == b;
    assert Unlisted([second], after) == {b};
  }

  /**
   * A reachable step that loses a listed backend: a thread switched, forked in its second segment and reverted to its
   * first (kept as a lineage, since the fork lists it) is deleted. Its backend goes though the fork still lists it.
   */
  lemma {:induction false} SingleDeleteLosesFork(s: State, a: Id, b: Id, c: Id)
    requires ForkedPair(s, a, b, c)
    ensures Enabled(s, Revert(a, 1)) && Enabled(Next(s, Revert(a, 1)), Delete(a))
    ensures var end := Next(Next(s, Revert(a, 1)), Delete(a));
            c in end.lineages && Lists(end.lineages[c], a) && a !in end.alive
  {
    RevertedPair(s, a, b, c);
    var after := Next(s, Revert(a, 1));
    assert after.lineages[c][0].threadId == a;
    assert !Hidden(after.lineages, a);
  }

  // ---- what ownership is for: rewriting backend ids to public ones ----

  /** Backend id to public id: each lineage's current backend, unless it is the public one. */
  ghost predicate IsRewrites(lineages: Table, rewrites: map<Id, Id>)
    requires forall k :: k in lineages ==> lineages[k] != []
  {
    && (forall b :: b in rewrites ==> rewrites[b] in lineages && rewrites[b] != b && Current(lineages[rewrites[b]]).threadId == b)
    && forall k :: k in lineages && Current(lineages[k]).threadId != k ==> Current(lineages[k]).threadId in rewrites
  }

  lemma {:induction false} OwnsCurrent(segments: seq<Segment>, publicId: Id)
    requires Lists(segments, publicId)
    ensures Owns(segments, publicId, publicId) && Owns(segments, publicId, Current(segments).threadId)
  {
    var i :| 0 <= i < |segments| && segments[i].threadId == publicId;
    assert segments[|segments| - 1].threadId == Current(segments).threadId;
  }

  /**
   * Under ownership every lineage's current backend reads as its own public id, no two backends as the same one, a
   * public id is never rewritten again, and what is rewritten is a hidden backend, never a key.
   */
  lemma {:induction false} RewritesSound(lineages: Table, rewrites: map<Id, Id>)
    requires Ownership(lineages)
    requires (forall k :: k in lineages ==> lineages[k] != []) && IsRewrites(lineages, rewrites)
    ensures forall k :: k in lineages && Current(lineages[k]).threadId != k ==>
              Current(lineages[k]).threadId in rewrites && rewrites[Current(lineages[k]).threadId] == k
    ensures forall b, c :: b in rewrites && c in rewrites && rewrites[b] == rewrites[c] ==> b == c
    ensures forall b :: b in rewrites ==> rewrites[b] !in rewrites
    ensures forall b :: b in rewrites ==> Hidden(lineages, b)
  {
    forall k | k in lineages ensures Owns(lineages[k], k, k) && Owns(lineages[k], k, Current(lineages[k]).threadId) {
      OwnsCurrent(lineages[k], k);
    }
    forall b | b in rewrites ensures b !in lineages && Listed(lineages, b) {
      var k := rewrites[b];
      OwnsIsListed(lineages, k, b);
    }
  }
}
