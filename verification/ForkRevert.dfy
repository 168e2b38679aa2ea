/**
 * Fork and revert of a switched thread, by the turns they leave (`locate`, `fork`, `revert` of
 * src/gateway/lineage.ts). A backend's fork is taken to hold the turns it keeps under the same ids; a backend's revert
 * drops turns in place.
 */
module ForkRevert {
  import opened Basics
  import opened Segments
  import opened Stitching
  import opened StitchedPaging

  datatype Where = Where(segment: nat, turn: nat)

  datatype ForkParams = ForkParams(lastTurnId: Option<Id>, beforeTurnId: Option<Id>)

  datatype LineageError = NoSuchTurn | PastOwnFork

  datatype Outcome = Outcome(backends: Backends, segments: seq<Segment>)

  /** The segment holding a turn, and the turn's place in it. */
  function Locate(perSegment: seq<seq<Id>>, turnId: Id): (r: Option<Where>)
    ensures r.Some? ==> r.value.segment < |perSegment| && r.value.turn < |perSegment[r.value.segment]|
                        && perSegment[r.value.segment][r.value.turn] == turnId
    ensures r.None? ==> forall i :: 0 <= i < |perSegment| ==> turnId !in perSegment[i]
  {
    if perSegment == [] then None
    else
      var turn := IndexOf(perSegment[0], turnId);
      if turn >= 0 then Some(Where(0, turn))
      else match Locate(perSegment[1..], turnId)
           case None => None
           case Some(at) => Some(Where(at.segment + 1, at.turn))
  }

  function Real(): Id -> bool { (id: Id) => !id.SwitchOf? }

  function FirstReal(turns: seq<Id>): Option<Id> {
    var kept := Filter(Real(), turns);
    if kept == [] then None else Some(kept[0])
  }

  /** What a backend's fork keeps: all, up to a turn, or what precedes one. */
  function ForkBackend(turns: seq<Id>, params: ForkParams): seq<Id> {
    match params
    case ForkParams(Some(last), _) => CutTurns(turns, Some(last))
    case ForkParams(None, Some(before)) => var at := IndexOf(turns, before); if at >= 0 then turns[..at] else turns
    case ForkParams(None, None) => turns
  }

  /** The segment whose backend is forked, and what of it. */
  function ForkPlan(backends: Backends, segments: seq<Segment>, params: ForkParams): (r: Result<(nat, ForkParams), LineageError>)
    requires segments != [] && Present(backends, segments)
    ensures r.Ok? ==> r.value.0 < |segments|
  {
    var turnId := if params.lastTurnId.Some? then params.lastTurnId else params.beforeTurnId;
    if turnId.None? then Ok((|segments| - 1, ForkParams(None, None))) else
    var perSegment := PerSegment(backends, segments);
    match Locate(perSegment, turnId.value)
    case None => Err(NoSuchTurn)
    case Some(at) =>
      var firstReal := FirstReal(perSegment[at.segment]);
      var beforeSegment := at.segment > 0 &&
        if turnId.value.SwitchOf? then params.beforeTurnId.Some? || firstReal.None? else params.beforeTurnId == firstReal;
      if beforeSegment then Ok((at.segment - 1, ForkParams(segments[at.segment - 1].lastTurnId, None)))
      else Ok((at.segment, if turnId.value.SwitchOf? then ForkParams(None, firstReal) else params))
  }

  /** The forked thread: the segments before the forked one, and the new backend as the current one. */
  function Fork(backends: Backends, segments: seq<Segment>, params: ForkParams, forkedId: Id): Result<Outcome, LineageError>
    requires segments != [] && Present(backends, segments)
  {
    match ForkPlan(backends, segments, params)
    case Err(e) => Err(e)
    case Ok((index, own)) =>
      Ok(Outcome(backends[forkedId := ForkBackend(backends[segments[index].threadId], own)],
                 segments[..index] + [Segment(segments[index].provider, forkedId, None)]))
  }

  /** Whether a revert drops the turn's whole segment. */
  predicate DropsSegment(perSegment: seq<seq<Id>>, at: Where, turnId: Id)
    requires at.segment < |perSegment|
  {
    at.segment > 0 && (turnId.SwitchOf? || FirstReal(perSegment[at.segment]) == Some(turnId))
  }

  /** The thread before a turn; `row` is the segment the thread is listed by. */
  function Revert(backends: Backends, segments: seq<Segment>, row: nat, beforeTurnId: Id): Result<Outcome, LineageError>
    requires segments != [] && Present(backends, segments) && row < |segments|
  {
    var perSegment := PerSegment(backends, segments);
    match Locate(perSegment, beforeTurnId)
    case None => Err(NoSuchTurn)
    case Some(at) =>
      var drop := DropsSegment(perSegment, at, beforeTurnId);
      var keep := if drop then at.segment else at.segment + 1;
      if row >= keep then Err(PastOwnFork) else
      var thread := segments[at.segment].threadId;
      Ok(Outcome(if drop then backends else backends[thread := ForkBackend(backends[thread], ForkParams(None, Some(beforeTurnId)))],
                 segments[..keep - 1] + [segments[keep - 1].(lastTurnId := None)]))
  }

  // ---- the turns they leave ----

  /** The real turns of the first `n` segments. */
  function RealUpTo(backends: Backends, segments: seq<Segment>, n: nat): seq<Id>
    requires n <= |segments| && Present(backends, segments)
  {
    if n == 0 then [] else RealUpTo(backends, segments, n - 1) + CutTurns(backends[segments[n - 1].threadId], segments[n - 1].lastTurnId)
  }

  function RealTurns(backends: Backends, segments: seq<Segment>): seq<Id>
    requires Present(backends, segments)
  {
    Filter(Real(), StitchedTurns(backends, segments))
  }

  ghost predicate NoMarkers(turns: seq<Id>) {
    forall i :: 0 <= i < |turns| ==> !turns[i].SwitchOf?
  }

  lemma {:induction false} OwnReal(backends: Backends, segments: seq<Segment>, index: nat)
    requires index < |segments| && Present(backends, segments) && NoMarkers(backends[segments[index].threadId])
    ensures Filter(Real(), OwnTurns(backends, segments, index)) == CutTurns(backends[segments[index].threadId], segments[index].lastTurnId)
  {
    var own := CutTurns(backends[segments[index].threadId], segments[index].lastTurnId);
    RealKept(own);
    if Marked(segments, index) {
      var mark := [SwitchOf(segments[index].threadId)];
      assert Filter(Real(), mark) == [];
      FilterConcat(Real(), mark, own);
    } else {
      assert [] + own == own;
    }
  }

  lemma {:induction false} RealKept(turns: seq<Id>)
    requires NoMarkers(turns)
    ensures Filter(Real(), turns) == turns
  {
    if turns != [] { RealKept(turns[1..]); }
  }

  lemma {:induction false} RealFlatten(backends: Backends, segments: seq<Segment>, n: nat)
    requires n <= |segments| && Present(backends, segments)
    requires forall i :: 0 <= i < |segments| ==> NoMarkers(backends[segments[i].threadId])
    ensures Filter(Real(), Flatten(PerSegment(backends, segments)[..n])) == RealUpTo(backends, segments, n)
  {
    if n > 0 {
      hide OwnTurns, CutTurns;
      var per := PerSegment(backends, segments);
      RealFlatten(backends, segments, n - 1);
      assert per[..n] == per[..n - 1] + [per[n - 1]];
      FlattenConcat(per[..n - 1], [per[n - 1]]);
      assert [per[n - 1]][1..] == [] && Flatten([per[n - 1]]) == per[n - 1];
      FilterConcat(Real(), Flatten(per[..n - 1]), per[n - 1]);
      OwnReal(backends, segments, n - 1);
    }
  }

  lemma {:induction false} RealIs(backends: Backends, segments: seq<Segment>)
    requires Present(backends, segments)
    requires forall i :: 0 <= i < |segments| ==> NoMarkers(backends[segments[i].threadId])
    ensures RealTurns(backends, segments) == RealUpTo(backends, segments, |segments|)
  {
    RealFlatten(backends, segments, |segments|);
    assert PerSegment(backends, segments)[..|segments|] == PerSegment(backends, segments);
  }

  // ---- where a stitched turn stands ----

  lemma {:induction false} FlattenAt(per: seq<seq<Id>>, i: nat)
    requires i < |per|
    ensures Flatten(per) == Flatten(per[..i]) + per[i] + Flatten(per[i + 1..])
  {
    assert per == per[..i] + ([per[i]] + per[i + 1..]);
    FlattenConcat(per[..i], [per[i]] + per[i + 1..]);
    assert ([per[i]] + per[i + 1..])[1..] == per[i + 1..];
  }

  lemma {:induction false} PlaceAt(before: seq<Id>, own: seq<Id>, later: seq<Id>, k: nat)
    requires Distinct(before + own + later) && k < |own|
    ensures var all := before + own + later;
            var place := IndexOf(all, own[k]);
            place == |before| + k && all[..place] == before + own[..k] && all[..place + 1] == before + own[..k + 1]
  {
    var all := before + own + later;
    assert all[|before| + k] == own[k];
  }

  /** A located turn stands after the earlier segments' turns and those before it in its own. */
  lemma {:induction false} StitchedAt(backends: Backends, segments: seq<Segment>, turnId: Id)
    requires Lineage(backends, segments) && Locate(PerSegment(backends, segments), turnId).Some?
    ensures var per := PerSegment(backends, segments);
            var at := Locate(per, turnId).value;
            var stitched := StitchedTurns(backends, segments);
            var place := IndexOf(stitched, turnId);
            && place >= 0
            && stitched[..place] == Flatten(per[..at.segment]) + per[at.segment][..at.turn]
            && stitched[..place + 1] == Flatten(per[..at.segment]) + per[at.segment][..at.turn + 1]
  {
    var per := PerSegment(backends, segments);
    hide PerSegment, Flatten, IndexOf, Locate, Lineage;
    var at := Locate(per, turnId).value;
    FlattenAt(per, at.segment);
    StitchedOnce(backends, segments);
    PlaceAt(Flatten(per[..at.segment]), per[at.segment], Flatten(per[at.segment + 1..]), at.turn);
  }

  lemma {:induction false} NoBackendMarkers(backends: Backends, segments: seq<Segment>)
    requires Lineage(backends, segments)
    ensures forall i :: 0 <= i < |segments| ==> NoMarkers(backends[segments[i].threadId])
  {
    forall i | 0 <= i < |segments| ensures NoMarkers(backends[segments[i].threadId]) {
      var turns := backends[segments[i].threadId];
      forall k | 0 <= k < |turns| ensures !turns[k].SwitchOf? { assert turns[k] in turns; }
    }
  }

  function Marks(segments: seq<Segment>, index: nat): nat
    requires index < |segments|
  {
    if Marked(segments, index) then 1 else 0
  }

  lemma {:induction false} OwnRealPrefix(backends: Backends, segments: seq<Segment>, index: nat, k: nat)
    requires Lineage(backends, segments) && index < |segments| && k <= |OwnTurns(backends, segments, index)|
    ensures var own := CutTurns(backends[segments[index].threadId], segments[index].lastTurnId);
            Filter(Real(), OwnTurns(backends, segments, index)[..k]) == own[..Max(0, k - Marks(segments, index))]
  {
    NoBackendMarkers(backends, segments);
    var own := CutTurns(backends[segments[index].threadId], segments[index].lastTurnId);
    CutNoMarkers(backends[segments[index].threadId], segments[index].lastTurnId);
    hide CutTurns, Lineage;
    RealKept(own[..Max(0, k - Marks(segments, index))]);
    if Marked(segments, index) && k > 0 {
      var mark := [SwitchOf(segments[index].threadId)];
      assert OwnTurns(backends, segments, index)[..k] == mark + own[..k - 1];
      assert Filter(Real(), mark) == [];
      FilterConcat(Real(), mark, own[..k - 1]);
    } else {
      assert OwnTurns(backends, segments, index)[..k] == own[..Max(0, k - Marks(segments, index))];
    }
  }

  /** The real turns before the `k`-th turn of a segment. */
  lemma {:induction false} RealBefore(backends: Backends, segments: seq<Segment>, index: nat, k: nat)
    requires Lineage(backends, segments) && index < |segments| && k <= |OwnTurns(backends, segments, index)|
    ensures var own := CutTurns(backends[segments[index].threadId], segments[index].lastTurnId);
            var per := PerSegment(backends, segments);
            Filter(Real(), Flatten(per[..index]) + per[index][..k])
            == RealUpTo(backends, segments, index) + own[..Max(0, k - Marks(segments, index))]
  {
    NoBackendMarkers(backends, segments);
    hide CutTurns, Lineage, RealUpTo, Flatten, Filter, OwnTurns;
    var per := PerSegment(backends, segments);
    RealFlatten(backends, segments, index);
    FilterConcat(Real(), Flatten(per[..index]), per[index][..k]);
    OwnRealPrefix(backends, segments, index, k);
  }

  lemma {:induction false} CutNoMarkers(turns: seq<Id>, lastTurnId: Option<Id>)
    requires NoMarkers(turns)
    ensures NoMarkers(CutTurns(turns, lastTurnId))
  {}

  /** A segment's first real turn is its backend's first. */
  lemma {:induction false} FirstRealIs(backends: Backends, segments: seq<Segment>, index: nat)
    requires Lineage(backends, segments) && index < |segments|
    ensures var own := CutTurns(backends[segments[index].threadId], segments[index].lastTurnId);
            FirstReal(OwnTurns(backends, segments, index)) == if own == [] then None else Some(own[0])
  {
    NoBackendMarkers(backends, segments);
    OwnReal(backends, segments, index);
  }

  lemma {:induction false} RealUpToSame(backends: Backends, segments: seq<Segment>, backends': Backends, segments': seq<Segment>, n: nat)
    requires n <= |segments| && n <= |segments'| && Present(backends, segments) && Present(backends', segments')
    requires forall i :: 0 <= i < n ==> segments[i] == segments'[i] && backends[segments[i].threadId] == backends'[segments[i].threadId]
    ensures RealUpTo(backends, segments, n) == RealUpTo(backends', segments', n)
  {
    if n > 0 { RealUpToSame(backends, segments, backends', segments', n - 1); }
  }

  lemma {:induction false} PrefixNoMarkers(turns: seq<Id>, kept: seq<Id>)
    requires NoMarkers(turns) && kept <= turns
    ensures NoMarkers(kept)
  {}

  /** A thread of the first segments and one more backend has their real turns and then the backend's. */
  lemma {:induction false} RealWithCurrent(backends: Backends, segments: seq<Segment>, backends': Backends, index: nat, current: Segment)
    requires Lineage(backends, segments) && index < |segments|
    requires current.threadId in backends' && current.lastTurnId.None? && NoMarkers(backends'[current.threadId])
    requires forall i :: 0 <= i < index ==>
               segments[i].threadId in backends' && backends'[segments[i].threadId] == backends[segments[i].threadId]
    ensures var segments' := segments[..index] + [current];
            && Present(backends', segments')
            && RealTurns(backends', segments') == RealUpTo(backends, segments, index) + backends'[current.threadId]
  {
    hide RealTurns, CutTurns;
    var segments' := segments[..index] + [current];
    NoBackendMarkers(backends, segments);
    forall i | 0 <= i < |segments'| ensures segments'[i].threadId in backends' && NoMarkers(backends'[segments'[i].threadId]) {
      if i < index { assert segments'[i] == segments[i]; }
    }
    RealIs(backends', segments');
    RealUpToSame(backends, segments, backends', segments', index);
    assert CutTurns(backends'[current.threadId], None) == backends'[current.threadId] by { CutNone(backends'[current.threadId]); }
  }

  lemma {:induction false} CutPrefix(turns: seq<Id>, lastTurnId: Option<Id>)
    ensures CutTurns(turns, lastTurnId) <= turns
    ensures ForkBackend(turns, ForkParams(lastTurnId, None)) == CutTurns(turns, lastTurnId)
  {}

  lemma {:induction false} CutNone(turns: seq<Id>)
    ensures CutTurns(turns, None) == turns
  {}

  /** The stitched turns a fork or revert is to keep: up to a turn, those before one, or all. */
  function Wanted(stitched: seq<Id>, params: ForkParams): seq<Id> {
    match params
    case ForkParams(Some(last), _) => stitched[..IndexOf(stitched, last) + 1]
    case ForkParams(None, Some(before)) => var at := IndexOf(stitched, before); if at >= 0 then stitched[..at] else stitched
    case ForkParams(None, None) => stitched
  }

  /** The turn that decides where a fork is: a last turn before one to stop before. */
  function Deciding(params: ForkParams): Option<Id> {
    if params.lastTurnId.Some? then params.lastTurnId else params.beforeTurnId
  }

  /** Both turns are given, and the one to stop before is the first real one of the last turn's segment, a later one. */
  predicate Crossed(perSegment: seq<seq<Id>>, params: ForkParams) {
    && params.lastTurnId.Some? && params.beforeTurnId.Some? && !params.lastTurnId.value.SwitchOf?
    && match Locate(perSegment, params.lastTurnId.value)
       case Some(at) => at.segment > 0 && FirstReal(perSegment[at.segment]) == params.beforeTurnId
       case None => false
  }

  /**
   * What a plan's backend fork adds to the earlier segments' real turns are the wanted ones, unless the turn to stop before
   * is the first real one of the last turn's segment: then none of that segment is kept.
   */
  lemma {:induction false} PlanKeeps(backends: Backends, segments: seq<Segment>, params: ForkParams)
    requires Lineage(backends, segments) && segments[|segments| - 1].lastTurnId.None?
    requires ForkPlan(backends, segments, params).Ok?
    ensures var (index, own) := ForkPlan(backends, segments, params).value;
            var kept := ForkBackend(backends[segments[index].threadId], own);
            var crossed := Crossed(PerSegment(backends, segments), params);
            && kept <= backends[segments[index].threadId]
            && (Filter(Real(), Wanted(StitchedTurns(backends, segments), params)) == RealUpTo(backends, segments, index) + kept <==> !crossed)
            && (crossed ==>
                  var at := Locate(PerSegment(backends, segments), params.lastTurnId.value).value;
                  RealUpTo(backends, segments, index) + kept == RealUpTo(backends, segments, at.segment))
  {
    var turnId := Deciding(params);
    if turnId.None? {
      WholePlan(backends, segments);
    } else {
      TurnPlan(backends, segments, params, turnId.value);
    }
  }

  lemma {:induction false} WholePlan(backends: Backends, segments: seq<Segment>)
    requires Lineage(backends, segments) && segments[|segments| - 1].lastTurnId.None?
    ensures RealTurns(backends, segments)
         == RealUpTo(backends, segments, |segments| - 1) + backends[segments[|segments| - 1].threadId]
  {
    NoBackendMarkers(backends, segments);
    RealIs(backends, segments);
  }

  lemma {:induction false} TurnPlan(backends: Backends, segments: seq<Segment>, params: ForkParams, turnId: Id)
    requires Lineage(backends, segments) && Deciding(params) == Some(turnId)
    requires Locate(PerSegment(backends, segments), turnId).Some?
    ensures var (index, own) := ForkPlan(backends, segments, params).value;
            var kept := ForkBackend(backends[segments[index].threadId], own);
            var crossed := Crossed(PerSegment(backends, segments), params);
            && kept <= backends[segments[index].threadId]
            && (Filter(Real(), Wanted(StitchedTurns(backends, segments), params)) == RealUpTo(backends, segments, index) + kept <==> !crossed)
            && (crossed ==>
                  var at := Locate(PerSegment(backends, segments), params.lastTurnId.value).value;
                  RealUpTo(backends, segments, index) + kept == RealUpTo(backends, segments, at.segment))
  {
    hide *;
    if turnId.SwitchOf? { MarkerPlan(backends, segments, params, turnId); } else { RealPlan(backends, segments, params, turnId); }
  }

  lemma {:induction false} MarkerPlan(backends: Backends, segments: seq<Segment>, params: ForkParams, turnId: Id)
    requires Lineage(backends, segments) && Deciding(params) == Some(turnId)
    requires Locate(PerSegment(backends, segments), turnId).Some?
    requires turnId.SwitchOf?
    ensures var (index, own) := ForkPlan(backends, segments, params).value;
            var kept := ForkBackend(backends[segments[index].threadId], own);
            && kept <= backends[segments[index].threadId] && !Crossed(PerSegment(backends, segments), params)
            && Filter(Real(), Wanted(StitchedTurns(backends, segments), params)) == RealUpTo(backends, segments, index) + kept
  {
    hide RealUpTo, StitchedTurns, Flatten, Filter, Locate, FirstReal, DistinctTurns, CutsPresent, IndexOf, CutTurns, Wanted;
    var per := PerSegment(backends, segments);
    var at := Locate(per, turnId).value;
    WantedAt(backends, segments, params, turnId);
    FirstRealIs(backends, segments, at.segment);
    LocatedTurn(backends, segments, at.segment, at.turn, turnId);
    if at.segment > 0 {
      RealUpToStep(backends, segments, at.segment);
      CutPrefix(backends[segments[at.segment - 1].threadId], segments[at.segment - 1].lastTurnId);
    }
    var upTo := RealUpTo(backends, segments, at.segment);
    assert upTo + [] == upTo;
    MarkerFork(backends, segments, at.segment);
  }

  lemma {:induction false} RealPlan(backends: Backends, segments: seq<Segment>, params: ForkParams, turnId: Id)
    requires Lineage(backends, segments) && Deciding(params) == Some(turnId)
    requires Locate(PerSegment(backends, segments), turnId).Some?
    requires !turnId.SwitchOf?
    ensures var (index, own) := ForkPlan(backends, segments, params).value;
            var kept := ForkBackend(backends[segments[index].threadId], own);
            var crossed := Crossed(PerSegment(backends, segments), params);
            && kept <= backends[segments[index].threadId]
            && (Filter(Real(), Wanted(StitchedTurns(backends, segments), params)) == RealUpTo(backends, segments, index) + kept <==> !crossed)
            && (crossed ==>
                  var at := Locate(PerSegment(backends, segments), params.lastTurnId.value).value;
                  RealUpTo(backends, segments, index) + kept == RealUpTo(backends, segments, at.segment))
  {
    hide RealUpTo, StitchedTurns, Flatten, Filter, Locate, FirstReal, DistinctTurns, CutsPresent, IndexOf, CutTurns, Wanted;
    var per := PerSegment(backends, segments);
    var at := Locate(per, turnId).value;
    WantedAt(backends, segments, params, turnId);
    FirstRealIs(backends, segments, at.segment);
    LocatedTurn(backends, segments, at.segment, at.turn, turnId);
    if at.segment > 0 {
      RealUpToStep(backends, segments, at.segment);
      CutPrefix(backends[segments[at.segment - 1].threadId], segments[at.segment - 1].lastTurnId);
    }
    var upTo := RealUpTo(backends, segments, at.segment);
    assert upTo + [] == upTo;
    RealFork(backends, segments, params, at.segment, at.turn, turnId);
    if Crossed(per, params) {
      var own := CutTurns(backends[segments[at.segment].threadId], segments[at.segment].lastTurnId);
      SameAfter(upTo, own[..at.turn + 1 - Marks(segments, at.segment)], []);
    }
  }

  /** The wanted real turns, given where the named turn is. */
  lemma {:induction false} WantedAt(backends: Backends, segments: seq<Segment>, params: ForkParams, turnId: Id)
    requires Lineage(backends, segments) && Locate(PerSegment(backends, segments), turnId).Some?
    requires Deciding(params) == Some(turnId)
    ensures var at := Locate(PerSegment(backends, segments), turnId).value;
            var k := if params.lastTurnId.Some? then at.turn + 1 else at.turn;
            var own := CutTurns(backends[segments[at.segment].threadId], segments[at.segment].lastTurnId);
            Max(0, k - Marks(segments, at.segment)) <= |own| &&
            Filter(Real(), Wanted(StitchedTurns(backends, segments), params))
            == RealUpTo(backends, segments, at.segment) + own[..Max(0, k - Marks(segments, at.segment))]
  {
    hide RealUpTo, StitchedTurns, Flatten, Filter, Locate, DistinctTurns, CutsPresent, IndexOf, CutTurns;
    var per := PerSegment(backends, segments);
    var at := Locate(per, turnId).value;
    var k := if params.lastTurnId.Some? then at.turn + 1 else at.turn;
    StitchedAt(backends, segments, turnId);
    assert Wanted(StitchedTurns(backends, segments), params) == Flatten(per[..at.segment]) + per[at.segment][..k];
    RealBefore(backends, segments, at.segment, k);
  }

  /** Forking a segment before its first real turn keeps nothing of it. */
  lemma {:induction false} MarkerFork(backends: Backends, segments: seq<Segment>, index: nat)
    requires Lineage(backends, segments) && index < |segments|
    ensures var turns := backends[segments[index].threadId];
            var own := CutTurns(turns, segments[index].lastTurnId);
            own != [] ==> ForkBackend(turns, ForkParams(None, Some(own[0]))) == []
  {}

  /** Forking a backend at one of its turns keeps the turns up to it, or before it. */
  lemma {:induction false} RealFork(backends: Backends, segments: seq<Segment>, params: ForkParams, index: nat, turn: nat, turnId: Id)
    requires Lineage(backends, segments) && index < |segments| && !turnId.SwitchOf?
    requires turn < |OwnTurns(backends, segments, index)| && OwnTurns(backends, segments, index)[turn] == turnId
    requires Deciding(params) == Some(turnId)
    ensures var turns := backends[segments[index].threadId];
            var own := CutTurns(turns, segments[index].lastTurnId);
            var k := (if params.lastTurnId.Some? then turn + 1 else turn) - Marks(segments, index);
            0 <= k <= |own| && own <= turns && ForkBackend(turns, params) == own[..k]
  {
    hide CutTurns, IndexOf, DistinctTurns, CutsPresent, OwnTurns;
    LocatedTurn(backends, segments, index, turn, turnId);
    var turns := backends[segments[index].threadId];
    var own := CutTurns(turns, segments[index].lastTurnId);
    var x := turn - Marks(segments, index);
    assert turns[..x] == own[..x];
  }

  lemma {:induction false} RealUpToStep(backends: Backends, segments: seq<Segment>, n: nat)
    requires 0 < n <= |segments| && Present(backends, segments)
    ensures RealUpTo(backends, segments, n)
         == RealUpTo(backends, segments, n - 1) + CutTurns(backends[segments[n - 1].threadId], segments[n - 1].lastTurnId)
  {}

  /** A located turn is its segment's marker, or stands in the backend where it stands in the segment. */
  lemma {:induction false} LocatedTurn(backends: Backends, segments: seq<Segment>, index: nat, turn: nat, turnId: Id)
    requires Lineage(backends, segments) && index < |segments|
    requires turn < |OwnTurns(backends, segments, index)| && OwnTurns(backends, segments, index)[turn] == turnId
    ensures var turns := backends[segments[index].threadId];
            var own := CutTurns(turns, segments[index].lastTurnId);
            && own <= turns
            && (if turnId.SwitchOf? then turn == 0 && index > 0 && Marks(segments, index) == 1
                else && Marks(segments, index) <= turn
                     && IndexOf(turns, turnId) == turn - Marks(segments, index) < |own|
                     && CutTurns(turns, Some(turnId)) == own[..turn - Marks(segments, index) + 1])
  {
    NoBackendMarkers(backends, segments);
    CutNoMarkers(backends[segments[index].threadId], segments[index].lastTurnId);
    var turns := backends[segments[index].threadId];
    var own := CutTurns(turns, segments[index].lastTurnId);
    assert Distinct(turns);
    if !turnId.SwitchOf? {
      var k := turn - Marks(segments, index);
      assert own[k] == turnId && turns[k] == turnId;
    }
  }

  // ---- the theorems ----

  lemma {:induction false} LocateStitched(backends: Backends, segments: seq<Segment>, turnId: Id)
    requires Lineage(backends, segments)
    ensures Locate(PerSegment(backends, segments), turnId).None? <==> turnId !in StitchedTurns(backends, segments)
  {
    var per := PerSegment(backends, segments);
    if Locate(per, turnId).Some? {
      StitchedAt(backends, segments, turnId);
    } else if turnId in StitchedTurns(backends, segments) {
      var i := FlattenFrom(per, turnId);
    }
  }

  /** A revert drops a later segment whole exactly when nothing but its marker stands before the turn. */
  lemma {:induction false} DropsAt(backends: Backends, segments: seq<Segment>, turnId: Id)
    requires Lineage(backends, segments) && Locate(PerSegment(backends, segments), turnId).Some?
    ensures var at := Locate(PerSegment(backends, segments), turnId).value;
            DropsSegment(PerSegment(backends, segments), at, turnId)
            <==> at.segment > 0 && forall k :: 0 <= k < at.turn ==> OwnTurns(backends, segments, at.segment)[k].SwitchOf?
  {
    hide CutTurns, FirstReal, DistinctTurns, CutsPresent, Locate;
    var at := Locate(PerSegment(backends, segments), turnId).value;
    var turns, own := backends[segments[at.segment].threadId], OwnTurns(backends, segments, at.segment);
    LocatedTurn(backends, segments, at.segment, at.turn, turnId);
    FirstRealIs(backends, segments, at.segment);
    NoBackendMarkers(backends, segments);
    var marks := Marks(segments, at.segment);
    if !turnId.SwitchOf? && at.turn > marks { assert !own[marks].SwitchOf?; }
  }

  /**
   * The segment a fork continues: the last one with no turn given; before a turn, its segment, or the one before that when
   * nothing but the marker stands before the turn; after a turn, its segment, or the one before that when the turn is the
   * marker of a segment without turns.
   */
  lemma {:induction false} ForkAt(backends: Backends, segments: seq<Segment>, params: ForkParams)
    requires Lineage(backends, segments) && (params.lastTurnId.None? || params.beforeTurnId.None?) && ForkPlan(backends, segments, params).Ok?
    ensures var index, at := ForkPlan(backends, segments, params).value.0, Locate(PerSegment(backends, segments), Deciding(params).GetOr(SwitchOf(segments[0].threadId)));
            match params
            case ForkParams(None, None) => index == |segments| - 1
            case ForkParams(None, Some(before)) =>
              at.Some? && index == at.value.segment - if at.value.segment > 0 && forall k :: 0 <= k < at.value.turn ==> OwnTurns(backends, segments, at.value.segment)[k].SwitchOf? then 1 else 0
            case ForkParams(Some(last), _) =>
              at.Some? && index == at.value.segment - if at.value.segment > 0 && last.SwitchOf? && OwnTurns(backends, segments, at.value.segment) == [last] then 1 else 0
  {
    hide CutTurns, FirstReal, DistinctTurns, CutsPresent, Locate;
    if Deciding(params).Some? {
      var turnId := Deciding(params).value;
      var at := Locate(PerSegment(backends, segments), turnId).value;
      DropsAt(backends, segments, turnId);
      LocatedTurn(backends, segments, at.segment, at.turn, turnId);
      FirstRealIs(backends, segments, at.segment);
    }
  }

  /**
   * A revert fails exactly when its turn is not in the thread, or when it drops the segment the thread is listed by: its turn
   * stands in an earlier segment, or in that one, the thread's first ones apart, after nothing but the marker.
   */
  lemma {:induction false} RevertFails(backends: Backends, segments: seq<Segment>, row: nat, turnId: Id)
    requires Lineage(backends, segments) && row < |segments|
    ensures Revert(backends, segments, row, turnId) == Err(NoSuchTurn) <==> turnId !in StitchedTurns(backends, segments)
    ensures turnId in StitchedTurns(backends, segments) ==>
              var at := Locate(PerSegment(backends, segments), turnId).value;
              Revert(backends, segments, row, turnId) == Err(PastOwnFork)
              <==> at.segment < row || (at.segment == row > 0 && forall k :: 0 <= k < at.turn ==> OwnTurns(backends, segments, row)[k].SwitchOf?)
  {
    hide DistinctTurns, CutsPresent, Locate, DropsSegment, ForkBackend, StitchedTurns;
    LocateStitched(backends, segments, turnId);
    if Locate(PerSegment(backends, segments), turnId).Some? { DropsAt(backends, segments, turnId); }
  }

  lemma {:induction false} FlattenFrom(per: seq<seq<Id>>, id: Id) returns (i: nat)
    requires id in Flatten(per)
    ensures i < |per| && id in per[i]
  {
    if id in per[0] { i := 0; }
    else { var rest := FlattenFrom(per[1..], id); i := rest + 1; }
  }

  /**
   * A fork fails exactly when the turn that decides is not in the thread. Else the fork's real turns are the thread's up to
   * `lastTurnId`, or without one before `beforeTurnId`, or all, whichever segment the turn is in and whether or not it is a
   * marker, unless `beforeTurnId` is the first real turn of the segment of `lastTurnId`. The thread's own backends stay as
   * they were.
   */
  lemma {:induction false} ForkKeeps(backends: Backends, segments: seq<Segment>, params: ForkParams, forkedId: Id)
    requires Lineage(backends, segments) && segments[|segments| - 1].lastTurnId.None?
    requires forkedId !in backends
    ensures Fork(backends, segments, params, forkedId).Err? <==> Deciding(params).Some? && Deciding(params).value !in StitchedTurns(backends, segments)
    ensures Fork(backends, segments, params, forkedId).Ok? ==>
              var forked := Fork(backends, segments, params, forkedId).value;
              && Present(forked.backends, forked.segments)
              && (RealTurns(forked.backends, forked.segments) == Filter(Real(), Wanted(StitchedTurns(backends, segments), params))
                  <==> !Crossed(PerSegment(backends, segments), params))
              && (forall id :: id in backends ==> forked.backends[id] == backends[id])
              && forked.segments != [] && forked.segments[|forked.segments| - 1].threadId == forkedId
              && forked.segments[..|forked.segments| - 1] <= segments
  {
    hide RealTurns, StitchedTurns, CutsPresent, DistinctTurns, ForkBackend, Wanted, Filter, PerSegment, Locate, RealUpTo, Crossed;
    var turnId := Deciding(params);
    if turnId.Some? { LocateStitched(backends, segments, turnId.value); }
    if ForkPlan(backends, segments, params).Ok? {
      var (index, own) := ForkPlan(backends, segments, params).value;
      var turns := backends[segments[index].threadId];
      var forked := Fork(backends, segments, params, forkedId).value;
      PlanKeeps(backends, segments, params);
      NoBackendMarkers(backends, segments);
      PrefixNoMarkers(turns, ForkBackend(turns, own));
      RealWithCurrent(backends, segments, forked.backends, index, Segment(segments[index].provider, forkedId, None));
    }
  }

  /** When reverting before a turn shows exactly the turns before it: not when a whole segment goes and the one it
   *  leaves current goes on past its cut. */
  ghost predicate EndsAtCut(turns: seq<Id>, lastTurnId: Option<Id>) {
    CutTurns(turns, lastTurnId) == turns
  }

  /**
   * A revert that keeps its turn's segment leaves exactly the real turns before the turn. One that drops the segment
   * does so exactly when the segment it leaves current ends at its cut; else the turns past the cut show again.
   */
  lemma {:induction false} RevertKeeps(backends: Backends, segments: seq<Segment>, row: nat, beforeTurnId: Id)
    requires Lineage(backends, segments) && row < |segments|
    requires beforeTurnId in StitchedTurns(backends, segments)
    requires Revert(backends, segments, row, beforeTurnId).Ok?
    ensures var at := Locate(PerSegment(backends, segments), beforeTurnId).value;
            var drop := DropsSegment(PerSegment(backends, segments), at, beforeTurnId);
            var reverted := Revert(backends, segments, row, beforeTurnId).value;
            && Present(reverted.backends, reverted.segments)
            && (RealTurns(reverted.backends, reverted.segments) == Filter(Real(), Wanted(StitchedTurns(backends, segments), ForkParams(None, Some(beforeTurnId))))
                <==> drop ==> EndsAtCut(backends[segments[at.segment - 1].threadId], segments[at.segment - 1].lastTurnId))
  {
    hide RealTurns, StitchedTurns, Flatten, Filter, Locate, FirstReal, DistinctTurns, CutsPresent, CutTurns, RealUpTo, IndexOf;
    var per := PerSegment(backends, segments);
    LocateStitched(backends, segments, beforeTurnId);
    var at := Locate(per, beforeTurnId).value;
    WantedAt(backends, segments, ForkParams(None, Some(beforeTurnId)), beforeTurnId);
    if DropsSegment(per, at, beforeTurnId) {
      RevertDrops(backends, segments, at.segment);
      FirstRealIs(backends, segments, at.segment);
      LocatedTurn(backends, segments, at.segment, at.turn, beforeTurnId);
    } else {
      FirstRealIs(backends, segments, at.segment);
      LocatedTurn(backends, segments, at.segment, at.turn, beforeTurnId);
      RealFork(backends, segments, ForkParams(None, Some(beforeTurnId)), at.segment, at.turn, beforeTurnId);
      RevertInPlace(backends, segments, at.segment, beforeTurnId);
    }
  }

  lemma {:induction false} SameAfter(prefix: seq<Id>, a: seq<Id>, b: seq<Id>)
    ensures prefix + a == prefix + b <==> a == b
  {
    assert a == (prefix + a)[|prefix|..] && b == (prefix + b)[|prefix|..];
  }

  /** The thread of the first segments, the last of them uncut. */
  lemma {:induction false} RevertDrops(backends: Backends, segments: seq<Segment>, index: nat)
    requires Lineage(backends, segments) && 0 < index < |segments|
    ensures var kept := segments[..index - 1] + [segments[index - 1].(lastTurnId := None)];
            && Present(backends, kept)
            && (RealTurns(backends, kept) == RealUpTo(backends, segments, index)
                <==> EndsAtCut(backends[segments[index - 1].threadId], segments[index - 1].lastTurnId))
  {
    hide RealTurns, CutTurns, RealUpTo, DistinctTurns, CutsPresent;
    var current := segments[index - 1];
    NoBackendMarkers(backends, segments);
    RealWithCurrent(backends, segments, backends, index - 1, current.(lastTurnId := None));
    RealUpToStep(backends, segments, index);
    SameAfter(RealUpTo(backends, segments, index - 1), backends[current.threadId], CutTurns(backends[current.threadId], current.lastTurnId));
  }

  /** The thread of the first segments, the last one's backend reverted. */
  lemma {:induction false} RevertInPlace(backends: Backends, segments: seq<Segment>, index: nat, beforeTurnId: Id)
    requires Lineage(backends, segments) && index < |segments|
    requires ForkBackend(backends[segments[index].threadId], ForkParams(None, Some(beforeTurnId))) <= backends[segments[index].threadId]
    ensures var thread := segments[index].threadId;
            var left := ForkBackend(backends[thread], ForkParams(None, Some(beforeTurnId)));
            var kept := segments[..index] + [segments[index].(lastTurnId := None)];
            && Present(backends[thread := left], kept)
            && RealTurns(backends[thread := left], kept) == RealUpTo(backends, segments, index) + left
  {
    var thread := segments[index].threadId;
    var left := ForkBackend(backends[thread], ForkParams(None, Some(beforeTurnId)));
    NoBackendMarkers(backends, segments);
    PrefixNoMarkers(backends[thread], left);
    OthersKept(backends, segments, index, left);
    hide RealTurns, CutTurns, RealUpTo, Lineage, ForkBackend;
    RealWithCurrent(backends, segments, backends[thread := left], index, segments[index].(lastTurnId := None));
  }

  lemma {:induction false} OthersKept(backends: Backends, segments: seq<Segment>, index: nat, kept: seq<Id>)
    requires Lineage(backends, segments) && index < |segments|
    ensures var backends' := backends[segments[index].threadId := kept];
            forall i :: 0 <= i < index ==> segments[i].threadId in backends' && backends'[segments[i].threadId] == backends[segments[i].threadId]
  {}

  /**
   * Another thread's shared segment after a revert in place of its backend: its turns are as they were exactly when its
   * cut is before the turn reverted to (a fork of a later turn loses that part of its history too).
   */
  lemma {:induction false} SharedRevert(turns: seq<Id>, beforeTurnId: Id, lastTurnId: Option<Id>)
    requires Distinct(turns) && beforeTurnId in turns && (lastTurnId.Some? ==> lastTurnId.value in turns)
    ensures var reverted := ForkBackend(turns, ForkParams(None, Some(beforeTurnId)));
            CutTurns(reverted, lastTurnId) == CutTurns(turns, lastTurnId)
            <==> lastTurnId.Some? && IndexOf(turns, lastTurnId.value) < IndexOf(turns, beforeTurnId)
  {
    var at := IndexOf(turns, beforeTurnId);
    var reverted := turns[..at];
    if lastTurnId.Some? {
      var last := IndexOf(turns, lastTurnId.value);
      var found := IndexOf(reverted, lastTurnId.value);
      if last < at {
        assert reverted[last] == lastTurnId.value && found == last;
      } else {
        forall i | 0 <= i < at ensures turns[i] != lastTurnId.value {}
      }
    }
  }

  // ---- where they do not ----

  /** A thread that went on after its first backend's turn `a` with another one. */
  function Switched(first: Id, second: Id, a: Id): seq<Segment> { [Segment(Codex, first, Some(a)), Segment(Claude, second, None)] }

  lemma {:induction false} SwitchedTurns(backends: Backends, first: Token, second: Token, a: Token)
    requires Given(first) in backends && Given(second) in backends
    ensures var segments := Switched(Given(first), Given(second), Given(a));
            && Present(backends, segments)
            && var own, next := CutTurns(backends[Given(first)], Some(Given(a))), [SwitchOf(Given(second))] + backends[Given(second)];
               PerSegment(backends, segments) == [own, next] && StitchedTurns(backends, segments) == own + next
  {
    var segments := Switched(Given(first), Given(second), Given(a));
    var per := PerSegment(backends, segments);
    CutNone(backends[Given(second)]);
    hide CutTurns;
    assert [] + CutTurns(backends[Given(first)], Some(Given(a))) == CutTurns(backends[Given(first)], Some(Given(a)));
    assert per == [per[0], per[1]] && per[1..] == [per[1]] && [per[1]][1..] == [];
    assert Flatten([per[1]]) == per[1];
    assert Flatten(per) == per[0] + per[1];
  }

  lemma {:induction false} SwitchedLineage(backends: Backends, first: Token, second: Token, a: Token)
    requires first != second && Given(first) in backends && Given(second) in backends && Given(a) in backends[Given(first)]
    requires Distinct(backends[Given(first)]) && Distinct(backends[Given(second)])
    requires forall id :: id in backends[Given(first)] ==> id.Given? && id !in backends[Given(second)]
    requires forall id :: id in backends[Given(second)] ==> id.Given?
    ensures Lineage(backends, Switched(Given(first), Given(second), Given(a)))
  {}

  /** A turn of the second segment, its marker before it. */
  lemma {:induction false} LocateSecond(own: seq<Id>, second: Id, turns: seq<Id>, k: nat)
    requires k < |turns| && turns[k] !in own && turns[k] != second && forall i :: 0 <= i < k ==> turns[i] != turns[k]
    ensures Locate([own, [second] + turns], turns[k]) == Some(Where(1, k + 1))
  {
    var per := [own, [second] + turns];
    assert per[1..] == [[second] + turns];
    assert ([second] + turns)[k + 1] == turns[k] && IndexOf([second] + turns, turns[k]) == k + 1;
    assert Locate(per[1..], turns[k]) == Some(Where(0, k + 1));
  }

  lemma {:induction false} FirstAfterMarker(second: Id, turns: seq<Id>)
    requires second.SwitchOf? && turns != [] && !turns[0].SwitchOf?
    ensures FirstReal([second] + turns) == Some(turns[0])
  {
    var all := [second] + turns;
    assert all[1..] == turns && !Real()(all[0]) && Real()(turns[0]);
    assert Filter(Real(), turns) == [turns[0]] + Filter(Real(), turns[1..]);
    assert Filter(Real(), all) == [] + Filter(Real(), turns);
  }

  /** A revert that drops the second segment, the first one's backend having gone on past its cut: its turn `b` shows again. */
  lemma {:induction false} CutShowsAgain(first: Token, second: Token, a: Token, b: Token, c: Token)
    requires first != second && a != b && a != c && b != c
    ensures var backends := map[Given(first) := [Given(a), Given(b)], Given(second) := [Given(c)]];
            var segments := Switched(Given(first), Given(second), Given(a));
            && Lineage(backends, segments) && StitchedTurns(backends, segments) == [Given(a), SwitchOf(Given(second)), Given(c)]
            && var reverted := [Segment(Codex, Given(first), None)];
               && Revert(backends, segments, 0, Given(c)) == Ok(Outcome(backends, reverted))
               && Present(backends, reverted) && StitchedTurns(backends, reverted) == [Given(a), Given(b)]
  {
    var backends := map[Given(first) := [Given(a), Given(b)], Given(second) := [Given(c)]];
    var segments := Switched(Given(first), Given(second), Given(a));
    assert CutTurns([Given(a), Given(b)], Some(Given(a))) == [Given(a)];
    hide *;
    SwitchedTurns(backends, first, second, a);
    SwitchedLineage(backends, first, second, a) by { AreDistinct([Given(a), Given(b)]); AreDistinct([Given(c)]); }
    LocateSecond([Given(a)], SwitchOf(Given(second)), [Given(c)], 0);
    FirstAfterMarker(SwitchOf(Given(second)), [Given(c)]);
    UncutTurns(backends, first, [Given(a), Given(b)]);
    RevertDropping(backends, Switched(Given(first), Given(second), Given(a)), [Given(a)], [SwitchOf(Given(second))] + [Given(c)], Given(c));
    SwitchedFirst(Given(first), Given(second), Given(a));
  }

  lemma {:induction false} AreDistinct(turns: seq<Id>)
    requires |turns| <= 2 && (|turns| == 2 ==> turns[0] != turns[1])
    ensures Distinct(turns)
  {}

  lemma {:induction false} SwitchedFirst(first: Id, second: Id, a: Id)
    ensures |Switched(first, second, a)| == 2 && Switched(first, second, a)[0] == Segment(Codex, first, Some(a))
  {}

  /** Before the second segment's first turn. */
  lemma {:induction false} RevertDropping(backends: Backends, segments: seq<Segment>, own: seq<Id>, next: seq<Id>, turnId: Id)
    requires |segments| == 2 && Present(backends, segments) && PerSegment(backends, segments) == [own, next]
    requires Locate([own, next], turnId) == Some(Where(1, 1)) && FirstReal(next) == Some(turnId)
    ensures Present(backends, segments) && Revert(backends, segments, 0, turnId) == Ok(Outcome(backends, [segments[0].(lastTurnId := None)]))
  {
    hide Locate, FirstReal, PerSegment;
    var uncut := [segments[0].(lastTurnId := None)];
    assert segments[..0] + uncut == uncut;
  }

  lemma {:induction false} UncutTurns(backends: Backends, thread: Token, turns: seq<Id>)
    requires Given(thread) in backends && backends[Given(thread)] == turns
    ensures var segments := [Segment(Codex, Given(thread), None)]; Present(backends, segments) && StitchedTurns(backends, segments) == turns
  {
    CutNone(turns);
    assert [] + turns == turns;
    assert PerSegment(backends, [Segment(Codex, Given(thread), None)]) == [turns] && [turns][1..] == [];
    assert Flatten([turns]) == turns + [];
  }

  /** A revert before `b` of a backend whose turns up to `b` a fork shows: the fork loses `b`. */
  lemma {:induction false} ForkLosesTurn(a: Token, b: Token)
    requires a != b
    ensures CutTurns([Given(a), Given(b)], Some(Given(b))) == [Given(a), Given(b)]
    ensures CutTurns(ForkBackend([Given(a), Given(b)], ForkParams(None, Some(Given(b)))), Some(Given(b))) == [Given(a)]
  {
    assert [Given(a), Given(b)][1..] == [Given(b)] && IndexOf([Given(b)], Given(b)) == 0;
    assert [Given(a), Given(b)][..1] == [Given(a)] && [Given(a)][1..] == [];
  }

  function CrossedBackends(first: Token, second: Token, a: Token, c: Token, d: Token): Backends {
    map[Given(first) := [Given(a)], Given(second) := [Given(c), Given(d)]]
  }

  lemma {:induction false} CrossedIs(first: Token, second: Token, a: Token, c: Token, d: Token)
    requires first != second && a != c && a != d && c != d
    ensures var backends := CrossedBackends(first, second, a, c, d);
            && Given(first) in backends && Given(second) in backends
            && backends[Given(first)] == [Given(a)] && backends[Given(second)] == [Given(c), Given(d)]
            && CutTurns([Given(a)], Some(Given(a))) == [Given(a)] && Lineage(backends, Switched(Given(first), Given(second), Given(a)))
  {
    AreDistinct([Given(a)]);
    AreDistinct([Given(c), Given(d)]);
    SwitchedLineage(CrossedBackends(first, second, a, c, d), first, second, a);
    hide Lineage;
  }

  /** A fork up to `d` that is also told to stop before `c`, its segment's first turn: it keeps neither. */
  lemma {:induction false} CrossedFork(first: Token, second: Token, forked: Token, a: Token, c: Token, d: Token)
    requires first != second && forked != first && forked != second && a != c && a != d && c != d
    ensures var backends := CrossedBackends(first, second, a, c, d);
            var segments := Switched(Given(first), Given(second), Given(a));
            && Lineage(backends, segments) && StitchedTurns(backends, segments) == [Given(a), SwitchOf(Given(second)), Given(c), Given(d)]
            && Fork(backends, segments, ForkParams(Some(Given(d)), Some(Given(c))), Given(forked))
               == Ok(Outcome(backends[Given(forked) := [Given(a)]], [Segment(Codex, Given(forked), None)]))
  {
    hide *;
    var backends, turns := CrossedBackends(first, second, a, c, d), [Given(c), Given(d)];
    CrossedIs(first, second, a, c, d);
    SwitchedTurns(backends, first, second, a);
    LocateSecond([Given(a)], SwitchOf(Given(second)), turns, 1);
    FirstAfterMarker(SwitchOf(Given(second)), turns);
    SwitchedFirst(Given(first), Given(second), Given(a));
    Joined(Given(a), SwitchOf(Given(second)), turns);
    ForkCrossing(backends, Switched(Given(first), Given(second), Given(a)), [Given(a)], [SwitchOf(Given(second))] + turns, Given(c), Given(d), Given(forked));
  }

  lemma {:induction false} Joined(a: Id, marker: Id, turns: seq<Id>)
    ensures |turns| == 2 ==> [a] + ([marker] + turns) == [a, marker, turns[0], turns[1]]
  {}

  lemma {:induction false} ForkCrossing(backends: Backends, segments: seq<Segment>, own: seq<Id>, next: seq<Id>, before: Id, last: Id, forked: Id)
    requires |segments| == 2 && Present(backends, segments) && PerSegment(backends, segments) == [own, next]
    requires Locate([own, next], last) == Some(Where(1, 2)) && FirstReal(next) == Some(before) && !last.SwitchOf?
    requires segments[0].threadId in backends && own == CutTurns(backends[segments[0].threadId], segments[0].lastTurnId) && segments[0].lastTurnId.Some?
    ensures Present(backends, segments)
    ensures Fork(backends, segments, ForkParams(Some(last), Some(before)), forked) == Ok(Outcome(backends[forked := own], [Segment(segments[0].provider, forked, None)]))
  {
    hide Locate, FirstReal, PerSegment, IndexOf;
    var current := [Segment(segments[0].provider, forked, None)];
    assert segments[..0] + current == current;
  }
}
