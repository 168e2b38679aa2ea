/**
 * A thread that switched provider as one list: its segments' turns, cut and stitched (src/gateway/lineage.ts). Turns
 * are their ids; a backend is the list of its turns, oldest first.
 */
module Segments {
  import opened Basics

  datatype Provider = Codex | Claude

  datatype Segment = Segment(provider: Provider, threadId: Id, lastTurnId: Option<Id>)

  /** Each backend's turns, oldest first. */
  type Backends = map<Id, seq<Id>>

  function IndexOf(s: seq<Id>, id: Id): (i: int)
    ensures -1 <= i < |s|
    ensures 0 <= i ==> s[i] == id && forall j :: 0 <= j < i ==> s[j] != id
    ensures i < 0 ==> id !in s
  {
    if s == [] then -1
    else if s[0] == id then 0
    else var rest := IndexOf(s[1..], id);
         if rest < 0 then -1 else rest + 1
  }

  /** A segment's turns, cut at its last one (all of them if its backend lacks that one). */
  function CutTurns(turns: seq<Id>, lastTurnId: Option<Id>): seq<Id> {
    var end := if lastTurnId.Some? then IndexOf(turns, lastTurnId.value) else -1;
    if end >= 0 then turns[..end + 1] else turns
  }

  /** Whether a segment starts with a switch marker: a Claude segment after a switch. */
  predicate Marked(segments: seq<Segment>, index: nat)
    requires index < |segments|
  {
    index > 0 && segments[index].provider.Claude?
  }

  ghost predicate Present(backends: Backends, segments: seq<Segment>) {
    forall i :: 0 <= i < |segments| ==> segments[i].threadId in backends
  }

  /** The turns of one segment, its marker first. */
  function OwnTurns(backends: Backends, segments: seq<Segment>, index: nat): seq<Id>
    requires index < |segments| && Present(backends, segments)
  {
    (if Marked(segments, index) then [SwitchOf(segments[index].threadId)] else [])
    + CutTurns(backends[segments[index].threadId], segments[index].lastTurnId)
  }

  function PerSegment(backends: Backends, segments: seq<Segment>): seq<seq<Id>>
    requires Present(backends, segments)
  {
    seq(|segments|, i requires 0 <= i < |segments| => OwnTurns(backends, segments, i))
  }

  function StitchedTurns(backends: Backends, segments: seq<Segment>): seq<Id>
    requires Present(backends, segments)
  {
    Flatten(PerSegment(backends, segments))
  }

  /** The stitched turns of the first `n` segments, newest first. */
  function Newest(backends: Backends, segments: seq<Segment>, n: nat): seq<Id>
    requires n <= |segments| && Present(backends, segments)
  {
    if n == 0 then [] else Reverse(OwnTurns(backends, segments, n - 1)) + Newest(backends, segments, n - 1)
  }

  lemma {:induction false} NewestIs(backends: Backends, segments: seq<Segment>, n: nat)
    requires n <= |segments| && Present(backends, segments)
    ensures Newest(backends, segments, n) == Reverse(Flatten(PerSegment(backends, segments)[..n]))
  {
    if n > 0 {
      var per := PerSegment(backends, segments);
      NewestIs(backends, segments, n - 1);
      assert per[..n] == per[..n - 1] + [per[n - 1]];
      FlattenConcat(per[..n - 1], [per[n - 1]]);
      assert [per[n - 1]][1..] == [];
      assert Flatten([per[n - 1]]) == per[n - 1];
      ReverseConcat(Flatten(per[..n - 1]), per[n - 1]);
    }
  }

  lemma {:induction false} NewestIsStitched(backends: Backends, segments: seq<Segment>)
    requires Present(backends, segments)
    ensures Newest(backends, segments, |segments|) == Reverse(StitchedTurns(backends, segments))
  {
    NewestIs(backends, segments, |segments|);
    assert PerSegment(backends, segments)[..|segments|] == PerSegment(backends, segments);
  }

  /** Turn ids are given ones, never twice in a backend, and no backend's in another listed one. */
  ghost predicate DistinctTurns(backends: Backends, segments: seq<Segment>)
    requires Present(backends, segments)
  {
    && (forall i :: 0 <= i < |segments| ==> Distinct(backends[segments[i].threadId]))
    && (forall i, t :: 0 <= i < |segments| && t in backends[segments[i].threadId] ==> !t.SwitchOf?)
    && (forall i, j :: 0 <= i < j < |segments| ==> segments[i].threadId != segments[j].threadId)
    && (forall i, j, t :: 0 <= i < j < |segments| && t in backends[segments[i].threadId] ==> t !in backends[segments[j].threadId])
  }

  /** Every cut is at a turn its backend has. */
  ghost predicate CutsPresent(backends: Backends, segments: seq<Segment>)
    requires Present(backends, segments)
  {
    forall i :: 0 <= i < |segments| && segments[i].lastTurnId.Some? ==> segments[i].lastTurnId.value in backends[segments[i].threadId]
  }

  ghost predicate Lineage(backends: Backends, segments: seq<Segment>) {
    && segments != []
    && Present(backends, segments)
    && DistinctTurns(backends, segments)
    && CutsPresent(backends, segments)
  }

  // ---- which turns are stitched ----

  /** A segment shows its backend's turns up to and with its cut, and all without one, after a marker if it is Claude's and not the first. */
  lemma {:induction false} OwnAre(backends: Backends, segments: seq<Segment>, index: nat) returns (n: nat)
    requires index < |segments| && Present(backends, segments)
    ensures var segment := segments[index]; var turns := backends[segment.threadId];
            && n <= |turns|
            && OwnTurns(backends, segments, index) == (if index > 0 && segment.provider == Claude then [SwitchOf(segment.threadId)] else []) + turns[..n]
            && (if segment.lastTurnId.Some? && segment.lastTurnId.value in turns
                then n > 0 && turns[n - 1] == segment.lastTurnId.value && segment.lastTurnId.value !in turns[..n - 1]
                else n == |turns|)
  {
    var segment := segments[index];
    var turns := backends[segment.threadId];
    n := |CutTurns(turns, segment.lastTurnId)|;
  }

  lemma {:induction false} InFlatten(ss: seq<seq<Id>>, id: Id)
    ensures id in Flatten(ss) <==> exists i :: 0 <= i < |ss| && id in ss[i]
  {
    if ss != [] {
      InFlatten(ss[1..], id);
      if id in ss[0] { assert id in Flatten(ss); }
      else if exists i :: 0 <= i < |ss| && id in ss[i] {
        var i :| 0 <= i < |ss| && id in ss[i];
        assert ss[1..][i - 1] == ss[i];
      }
      if id in Flatten(ss[1..]) {
        var i :| 0 <= i < |ss[1..]| && id in ss[1..][i];
        assert ss[i + 1] == ss[1..][i];
      }
    }
  }

  lemma {:induction false} InStitched(backends: Backends, segments: seq<Segment>, id: Id)
    requires Present(backends, segments)
    ensures id in StitchedTurns(backends, segments) <==> exists i :: 0 <= i < |segments| && id in OwnTurns(backends, segments, i)
  {
    hide OwnTurns;
    var per := PerSegment(backends, segments);
    InFlatten(per, id);
    if exists i :: 0 <= i < |segments| && id in OwnTurns(backends, segments, i) {
      var i :| 0 <= i < |segments| && id in OwnTurns(backends, segments, i);
      assert per[i] == OwnTurns(backends, segments, i);
    }
  }

  /** The markers stitched are those of the Claude segments after the first, and no others. */
  lemma {:induction false} MarkersStitched(backends: Backends, segments: seq<Segment>, thread: Id)
    requires Present(backends, segments) && forall i, t :: 0 <= i < |segments| && t in backends[segments[i].threadId] ==> !t.SwitchOf?
    ensures SwitchOf(thread) in StitchedTurns(backends, segments) <==> exists i :: 0 < i < |segments| && segments[i].provider == Claude && segments[i].threadId == thread
  {
    InStitched(backends, segments, SwitchOf(thread));
    forall i | 0 <= i < |segments|
      ensures SwitchOf(thread) in OwnTurns(backends, segments, i) <==> i > 0 && segments[i].provider == Claude && segments[i].threadId == thread
    {
      var n := OwnAre(backends, segments, i);
      assert SwitchOf(thread) !in backends[segments[i].threadId] by { NoMarkerIn(backends, segments, i, thread); }
      MarkerOnly(SwitchOf(segments[i].threadId), backends[segments[i].threadId], n, SwitchOf(thread));
      hide OwnTurns;
    }
    hide OwnTurns, StitchedTurns;
  }

  lemma {:induction false} NoMarkerIn(backends: Backends, segments: seq<Segment>, i: nat, thread: Id)
    requires i < |segments| && Present(backends, segments) && forall i, t :: 0 <= i < |segments| && t in backends[segments[i].threadId] ==> !t.SwitchOf?
    ensures SwitchOf(thread) !in backends[segments[i].threadId]
  {
    var turns := backends[segments[i].threadId];
    forall k | 0 <= k < |turns| ensures turns[k] != SwitchOf(thread) { assert turns[k] in turns; }
  }

  lemma {:induction false} MarkerOnly(mark: Id, turns: seq<Id>, n: nat, id: Id)
    requires n <= |turns| && id !in turns
    ensures id in [mark] + turns[..n] <==> id == mark
    ensures id !in [] + turns[..n]
  {
    assert ([mark] + turns[..n])[0] == mark;
  }

  /** A turn of a backend is stitched exactly when no cut comes before it in a segment of that backend. */
  lemma {:induction false} TurnsStitched(backends: Backends, segments: seq<Segment>, id: Id)
    requires Present(backends, segments) && !id.SwitchOf?
    ensures id in StitchedTurns(backends, segments) <==>
            exists i, k :: 0 <= i < |segments| && 0 <= k < |backends[segments[i].threadId]| && backends[segments[i].threadId][k] == id
                           && (segments[i].lastTurnId.Some? ==> segments[i].lastTurnId.value !in backends[segments[i].threadId][..k])
  {
    InStitched(backends, segments, id);
    forall i | 0 <= i < |segments|
      ensures id in OwnTurns(backends, segments, i) <==>
              exists k :: 0 <= k < |backends[segments[i].threadId]| && backends[segments[i].threadId][k] == id
                          && (segments[i].lastTurnId.Some? ==> segments[i].lastTurnId.value !in backends[segments[i].threadId][..k])
    {
      var n := OwnAre(backends, segments, i);
      hide OwnTurns;
      TurnOwn(backends, segments, i, n, id);
    }
    hide OwnTurns, StitchedTurns;
  }

  lemma {:induction false} TurnOwn(backends: Backends, segments: seq<Segment>, i: nat, n: nat, id: Id)
    requires i < |segments| && Present(backends, segments) && !id.SwitchOf?
    requires var segment := segments[i]; var turns := backends[segment.threadId];
             && n <= |turns|
             && OwnTurns(backends, segments, i) == (if i > 0 && segment.provider == Claude then [SwitchOf(segment.threadId)] else []) + turns[..n]
             && (if segment.lastTurnId.Some? && segment.lastTurnId.value in turns
                 then n > 0 && turns[n - 1] == segment.lastTurnId.value && segment.lastTurnId.value !in turns[..n - 1]
                 else n == |turns|)
    ensures id in OwnTurns(backends, segments, i) <==>
            exists k :: 0 <= k < |backends[segments[i].threadId]| && backends[segments[i].threadId][k] == id
                        && (segments[i].lastTurnId.Some? ==> segments[i].lastTurnId.value !in backends[segments[i].threadId][..k])
  {
    hide OwnTurns;
    var segment := segments[i];
    var turns := backends[segment.threadId];
    assert id in OwnTurns(backends, segments, i) <==> id in turns[..n];
    forall j, k | 0 <= j < k <= |turns| ensures turns[j] in turns[..k] { assert turns[..k][j] == turns[j]; }
    if id in turns[..n] {
      var k :| 0 <= k < n && turns[k] == id;
      if segment.lastTurnId.Some? { NotBefore(turns, k, n, segment.lastTurnId.value); }
    }
  }

  lemma {:induction false} NotBefore(turns: seq<Id>, k: nat, n: nat, id: Id)
    requires k < n <= |turns|
    ensures id !in turns[..n - 1] ==> id !in turns[..k]
    ensures id !in turns ==> id !in turns[..k]
  {
    if id in turns[..k] {
      var j :| 0 <= j < k && turns[j] == id;
      assert turns[..n - 1][j] == id;
    }
  }

  /** A marker stands right before its segment's turns. */
  lemma {:induction false} MarkerBefore(backends: Backends, segments: seq<Segment>, i: nat) returns (place: nat, n: nat)
    requires 0 < i < |segments| && Present(backends, segments) && segments[i].provider == Claude
    ensures var turns, stitched := backends[segments[i].threadId], StitchedTurns(backends, segments);
            && n <= |turns| && place + 1 + n <= |stitched|
            && stitched[place] == SwitchOf(segments[i].threadId) && stitched[place + 1..place + 1 + n] == turns[..n]
            && OwnTurns(backends, segments, i) == [SwitchOf(segments[i].threadId)] + turns[..n]
            && place == |Flatten(PerSegment(backends, segments)[..i])|
  {
    n := OwnAre(backends, segments, i);
    hide *;
    var per := PerSegment(backends, segments);
    place := |Flatten(per[..i])|;
    SegmentAt(backends, segments, i);
    Inside(Flatten(per[..i]), SwitchOf(segments[i].threadId), backends[segments[i].threadId][..n], Flatten(per[i + 1..]));
  }

  lemma {:induction false} SegmentAt(backends: Backends, segments: seq<Segment>, i: nat)
    requires i < |segments| && Present(backends, segments)
    ensures var per := PerSegment(backends, segments);
            |per| == |segments| && StitchedTurns(backends, segments) == Flatten(per[..i]) + (OwnTurns(backends, segments, i) + Flatten(per[i + 1..]))
  {
    hide OwnTurns;
    var per := PerSegment(backends, segments);
    assert per == per[..i] + ([per[i]] + per[i + 1..]);
    FlattenConcat(per[..i], [per[i]] + per[i + 1..]);
    assert ([per[i]] + per[i + 1..])[1..] == per[i + 1..];
  }

  lemma {:induction false} Inside(before: seq<Id>, mark: Id, own: seq<Id>, after: seq<Id>)
    ensures var all := before + ([mark] + own + after);
            |before| + 1 + |own| <= |all| && all[|before|] == mark && all[|before| + 1..|before| + 1 + |own|] == own
  {}

  /** A Claude thread switched to Codex: no marker. */
  lemma {:induction false} CodexSecond(claude: Token, codex: Token, t: Token, u: Token)
    requires claude != codex && t != u
    ensures var backends := map[Given(claude) := [Given(t)], Given(codex) := [Given(u)]];
            var segments := [Segment(Claude, Given(claude), Some(Given(t))), Segment(Codex, Given(codex), None)];
            Lineage(backends, segments) && StitchedTurns(backends, segments) == [Given(t), Given(u)]
  {
    var backends := map[Given(claude) := [Given(t)], Given(codex) := [Given(u)]];
    var segments := [Segment(Claude, Given(claude), Some(Given(t))), Segment(Codex, Given(codex), None)];
    var per := PerSegment(backends, segments);
    assert CutTurns([Given(t)], Some(Given(t))) == [Given(t)] && CutTurns([Given(u)], None) == [Given(u)];
    hide CutTurns;
    assert [] + [Given(t)] == [Given(t)] && [] + [Given(u)] == [Given(u)];
    assert per[0] == [Given(t)] && per[1] == [Given(u)];
    assert per == [per[0], per[1]] && per[1..] == [per[1]] && [per[1]][1..] == [];
    assert Flatten([per[1]]) == per[1] + [];
  }
}
