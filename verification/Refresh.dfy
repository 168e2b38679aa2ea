/**
 * Coalesced scans (src/claude/native/catalog.ts 139-153): one scan runs at a time, the callers who come meanwhile share
 * the next, and each caller is served by a scan begun no earlier than its call. A scan's end and what waits for it are two
 * steps, between which others may call.
 */
module Refresh {
  import opened Basics

  /** A caller: when it called, and when the scan that served it began. */
  datatype Served = Served(called: nat, begun: nat)

  class Scans {
    /** Steps so far. */
    var now: nat
    /** When the scan in flight began. */
    var inFlight: Option<nat>
    /** Who the scan in flight serves, and who waits for one after it: when each called. */
    var current: seq<nat>
    var queued: seq<nat>
    /** Someone waits for the next scan; the scan waited for has ended. */
    var waiting: bool
    var due: bool
    var served: seq<Served>
    ghost var called: multiset<nat>

    ghost predicate Valid()
      reads this
    {
      Coalesced(now, inFlight, current, queued, waiting, due, served, called)
    }

    constructor ()
      ensures Valid() && served == [] && called == multiset{}
    {
      now, inFlight, current, queued, waiting, due, served := 0, None, [], [], false, false, [];
      called := multiset{};
    }

    /** A call joins the scan after the one in flight, or begins one. */
    method Refresh()
      requires Valid()
      modifies this
      ensures Valid() && now == old(now) + 1 && served == old(served) && called == Plus(old(called), now)
      ensures old(inFlight).Some? ==> inFlight == old(inFlight) && current == old(current) && queued == old(queued) + [now]
      ensures old(inFlight).None? ==> inFlight == Some(now) && current == [now] && queued == old(queued)
    {
      hide *;
      if inFlight.Some? { Join(); } else { Begin(); }
    }

    /** Others may wait for that scan already, or their wait be over but not run on: then they wait on together. */
    method Join()
      requires Valid() && inFlight.Some?
      modifies this`now, this`waiting, this`queued, this`called
      ensures Valid() && now == old(now) + 1 && queued == old(queued) + [now] && called == Plus(old(called), now)
    {
      hide Coalesced, Plus;
      var call := now + 1;
      OneJoins(now, inFlight, current, queued, waiting, due, served, called);
      waiting, queued, now, called := true, queued + [call], call, Plus(called, call);
    }

    method Begin()
      requires Valid() && inFlight.None?
      modifies this`now, this`inFlight, this`current, this`called
      ensures Valid() && now == old(now) + 1 && inFlight == Some(now) && current == [now] && called == Plus(old(called), now)
    {
      hide Accounts, NoneAfter, Plus, ServedInTime;
      var call := now + 1;
      OneNoLater(queued, now, call);
      JustOne(call);
      OneCurrent(called, current, queued, served, call);
      inFlight, current, now, called := Some(call), [call], call, Plus(called, call);
    }

    /** The scan ends: those it serves are served, and the wait for it is over. */
    method ScanEnds()
      requires Valid() && inFlight.Some?
      modifies this
      ensures Valid() && now == old(now) + 1 && inFlight.None? && current == [] && queued == old(queued) && called == old(called)
      ensures served == old(served) + ServedBy(old(current), old(inFlight).value)
    {
      hide Accounts;
      now := now + 1;
      AllServed(called, current, queued, served, inFlight.value);
      served := served + ServedBy(current, inFlight.value);
      inFlight, current := None, [];
      due := waiting;
    }

    /** Those who waited refresh again: with a scan in flight by now they wait on. */
    method QueuedRuns()
      requires Valid() && due
      modifies this
      ensures Valid() && now == old(now) + 1 && served == old(served) && called == old(called)
      ensures old(inFlight).None? ==> inFlight == Some(now) && current == old(queued) && queued == [] && !waiting
      ensures old(inFlight).Some? ==> inFlight == old(inFlight) && current == old(current) && queued == old(queued) && waiting && !due
    {
      hide Accounts;
      now := now + 1;
      due := false;
      if inFlight.Some? { return; }
      GoOn(called, queued, served);
      inFlight, current, queued, waiting := Some(now), queued, [], false;
    }
  }

  /** Each call is served, being served or waiting, once; a scan serves nobody who called after it began. */
  ghost predicate Coalesced(now: nat, inFlight: Option<nat>, current: seq<nat>, queued: seq<nat>, waiting: bool, due: bool,
                            served: seq<Served>, called: multiset<nat>) {
    && (inFlight.None? ==> |current| == 0) && (inFlight.Some? ==> inFlight.value <= now)
    && (inFlight.Some? ==> NoneAfter(current, inFlight.value))
    && NoneAfter(queued, now) && (!waiting ==> |queued| == 0) && (due ==> waiting)
    // Whoever waits is waited for: a scan is in flight, or the wait is over.
    && (waiting && !due ==> inFlight.Some?)
    && ServedInTime(served)
    && Accounts(called, current, queued, served)
  }

  lemma {:induction false} OneJoins(now: nat, inFlight: Option<nat>, current: seq<nat>, queued: seq<nat>, waiting: bool, due: bool,
                                    served: seq<Served>, called: multiset<nat>)
    requires Coalesced(now, inFlight, current, queued, waiting, due, served, called) && inFlight.Some?
    ensures Coalesced(now + 1, inFlight, current, queued + [now + 1], true, due, served, Plus(called, now + 1))
  {
    hide Accounts, NoneAfter, Plus, ServedInTime;
    OneNoLater(queued, now, now + 1);
    OneQueued(called, current, queued, served, now + 1);
  }

  function Calls(served: seq<Served>): seq<nat> { seq(|served|, i requires 0 <= i < |served| => served[i].called) }

  function ServedBy(calls: seq<nat>, begun: nat): seq<Served> { seq(|calls|, i requires 0 <= i < |calls| => Served(calls[i], begun)) }

  ghost function Plus(called: multiset<nat>, call: nat): multiset<nat> { called + multiset{call} }

  ghost predicate NoneAfter(calls: seq<nat>, time: nat) {
    forall i :: 0 <= i < |calls| ==> calls[i] <= time
  }

  /** Each caller by a scan begun no earlier than its call. */
  ghost predicate ServedInTime(served: seq<Served>) {
    forall i :: 0 <= i < |served| ==> served[i].called <= served[i].begun
  }

  lemma {:induction false} OneNoLater(calls: seq<nat>, time: nat, call: nat)
    requires NoneAfter(calls, time) && time < call
    ensures NoneAfter(calls, call) && NoneAfter(calls + [call], call)
  {}

  lemma {:induction false} JustOne(call: nat)
    ensures NoneAfter([call], call)
  {}

  /** Every call is served, being served or waiting: once. */
  ghost predicate Accounts(called: multiset<nat>, current: seq<nat>, queued: seq<nat>, served: seq<Served>) {
    called == multiset(current) + multiset(queued) + multiset(Calls(served))
  }

  lemma {:induction false} OneQueued(called: multiset<nat>, current: seq<nat>, queued: seq<nat>, served: seq<Served>, call: nat)
    requires Accounts(called, current, queued, served)
    ensures Accounts(Plus(called, call), current, queued + [call], served)
  {
    assert multiset(queued + [call]) == multiset(queued) + multiset{call};
  }

  lemma {:induction false} OneCurrent(called: multiset<nat>, current: seq<nat>, queued: seq<nat>, served: seq<Served>, call: nat)
    requires Accounts(called, current, queued, served) && |current| == 0
    ensures Accounts(Plus(called, call), [call], queued, served)
  {}

  lemma {:induction false} AllServed(called: multiset<nat>, current: seq<nat>, queued: seq<nat>, served: seq<Served>, begun: nat)
    requires Accounts(called, current, queued, served)
    ensures Accounts(called, [], queued, served + ServedBy(current, begun))
  {
    assert Calls(served + ServedBy(current, begun)) == Calls(served) + current;
    assert multiset(Calls(served) + current) == multiset(Calls(served)) + multiset(current);
  }

  lemma {:induction false} GoOn(called: multiset<nat>, queued: seq<nat>, served: seq<Served>)
    requires Accounts(called, [], queued, served)
    ensures Accounts(called, queued, [], served)
  {}
}
