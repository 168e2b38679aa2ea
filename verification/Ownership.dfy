/**
 * Stopping the owner of a socket (src/daemon/ownership.ts) against every environment: what each look at the owners, the
 * process's identity and the clock returns, and what each signal does, is any function of how much was seen before. The
 * clock never goes back, and a sleep moves it by at least its length.
 */
module Ownership {
  import opened Basics

  const POLL_MS := 50
  const STOP_GRACE_MS := 10000
  const STOP_TIMEOUT_MS := 15000

  datatype PidRecord = PidRecord(pid: nat, startTime: Token)
  datatype Name = Sigterm | Sigkill
  datatype Outcome = Delivered | NoSuchProcess | Refused

  datatype Event =
    | Owners(pids: seq<nat>)
    | Matches(record: PidRecord, matches: bool)
    | StartTime(pid: nat, time: Option<Token>)
    | Signal(target: nat, name: Name, outcome: Outcome)
    | Now(at: int)
    | Slept

  datatype Error = OwnerChanged | IdentityChanged | SignalFailed | TimedOut | SeveralOwners | NotExpected | ExitedMeanwhile

  /** What the n-th observation sees; the clock apart from the sleeps. */
  datatype Environment = Environment(
    owners: nat -> seq<nat>, matches: nat -> bool, startTime: nat -> Option<Token>, outcome: nat -> Outcome, drift: nat -> int)
  {
    ghost predicate Valid() {
      forall m, n :: 0 <= m <= n ==> drift(m) <= drift(n)
    }

    /** The clock goes by the sleeps alone. */
    ghost predicate Steady() {
      forall n: nat :: drift(n) == drift(0)
    }
  }

  lemma {:induction false} GoesBy(environment: Environment, m: nat, n: nat)
    requires environment.Valid() && m <= n
    ensures environment.drift(m) <= environment.drift(n) && (environment.Steady() ==> environment.drift(m) == environment.drift(n))
  {}

  // ---- what a run must have looked like ----

  /** The expected process was seen to own the socket alone, and right after to be the same process still. */
  ghost predicate SeenAt(trace: seq<Event>, i: int, expected: PidRecord) {
    2 <= i <= |trace| && trace[i - 2] == Owners([expected.pid]) && trace[i - 1] == Matches(expected, true)
  }

  /** Every signal goes to the expected process, right after it was seen to own the socket. */
  ghost predicate Fenced(trace: seq<Event>, start: nat, expected: PidRecord) {
    forall i :: start <= i < |trace| && trace[i].Signal? ==> trace[i].target == expected.pid && start + 2 <= i && SeenAt(trace, i, expected)
  }

  ghost predicate Unsignalled(trace: seq<Event>, from: nat) {
    forall i :: from <= i < |trace| ==> !trace[i].Signal?
  }

  /** After SIGTERM the clock was read, and read again when at least the grace period had passed. */
  ghost predicate GraceOver(trace: seq<Event>, start: nat, i: int) {
    exists term, first, later :: start <= term < first < later < i <= |trace| && trace[term].Signal? && trace[term].name == Sigterm
      && trace[first].Now? && trace[later].Now? && trace[later].at - trace[first].at >= 10000
  }

  /** A SIGTERM comes before every other signal; a SIGKILL comes after no other SIGKILL, and after the grace period. */
  ghost predicate InTurn(trace: seq<Event>, start: nat, i: int)
    requires start <= i < |trace| && trace[i].Signal?
  {
    if trace[i].name == Sigterm then forall j :: start <= j < i ==> !trace[j].Signal?
    else (forall j :: start <= j < i && trace[j].Signal? ==> trace[j].name == Sigterm) && GraceOver(trace, start, i)
  }

  ghost predicate Escalates(trace: seq<Event>, start: nat) {
    forall i :: start <= i < |trace| && trace[i].Signal? ==> InTurn(trace, start, i)
  }

  /** The clock was read first right after SIGTERM, and last when the timeout had passed. */
  ghost predicate Expired(trace: seq<Event>, start: nat) {
    && start < |trace| && trace[|trace| - 1].Now?
    && exists i :: start <= i < |trace| && trace[i].Now? && trace[|trace| - 1].at - trace[i].at >= 15000
         && forall j :: start <= j < i ==> !trace[j].Now?
  }

  // ---- what a run must do ----

  ghost predicate NoKill(trace: seq<Event>, start: nat, i: int) {
    forall j :: start <= j < i && j < |trace| && trace[j].Signal? ==> trace[j].name != Sigkill
  }

  ghost predicate KillSent(trace: seq<Event>, start: nat) {
    exists i :: start <= i < |trace| && trace[i].Signal? && trace[i].name == Sigkill
  }

  /** The clock read right after the sight of the owner, before any SIGKILL, shows the grace period over. */
  ghost predicate Overdue(trace: seq<Event>, start: nat, first: nat, i: int, expected: PidRecord) {
    && first < i - 2 && i < |trace| && trace[first].Now? && trace[i].Now? && SeenAt(trace, i, expected) && NoKill(trace, start, i)
    && trace[i].at - trace[first].at >= 10000
  }

  /** Then the owner is looked at again, and on the right sight gets SIGKILL. */
  ghost predicate Kills(trace: seq<Event>, start: nat, first: nat, until: int, expected: PidRecord) {
    forall i :: i < until && Overdue(trace, start, first, i, expected) ==> i + 1 < |trace| && trace[i + 1].Owners? && SentIfSeen(trace, i + 1, expected, Sigkill)
  }

  /** A look at `n` that sees the owner is followed by the signal. */
  ghost predicate SentIfSeen(trace: seq<Event>, n: int, expected: PidRecord, name: Name) {
    SeenAt(trace, n + 2, expected) ==> n + 2 < |trace| && trace[n + 2].Signal? && trace[n + 2].target == expected.pid && trace[n + 2].name == name
  }

  /** After SIGTERM and before SIGKILL every sight of the owner is followed by a look at the clock, or by the SIGKILL. */
  ghost predicate Times(trace: seq<Event>, start: nat, first: nat, until: int, expected: PidRecord) {
    forall i :: first < i - 2 && i < until && SeenAt(trace, i, expected) && NoKill(trace, start, i) ==> i < |trace| && (trace[i].Now? || (trace[i].Signal? && trace[i].name == Sigkill))
  }

  /** Any other sight than of the expected process alone ends the run. */
  ghost predicate SeesOnly(trace: seq<Event>, start: nat, expected: PidRecord) {
    forall i :: start <= i < |trace| - 1 && trace[i].Owners? ==> trace[i].pids == [expected.pid]
  }

  /** All of it. */
  ghost predicate Presses(trace: seq<Event>, start: nat, first: nat, expected: PidRecord) {
    Kills(trace, start, first, |trace|, expected) && Times(trace, start, first, |trace| + 1, expected) && SeesOnly(trace, start, expected)
  }

  /** From the first reading of the clock on. */
  ghost predicate Pressed(trace: seq<Event>, start: nat, expected: PidRecord) {
    forall first :: FirstNow(trace, start, first) ==> Presses(trace, start, first, expected)
  }

  /** A reading of the clock past the grace period came, right after the sight of the owner and before any SIGKILL. */
  ghost predicate WasOverdue(trace: seq<Event>, start: nat, expected: PidRecord) {
    exists first, i :: FirstNow(trace, start, first) && Overdue(trace, start, first, i, expected)
  }

  ghost predicate FirstNow(trace: seq<Event>, start: nat, first: nat) {
    start <= first < |trace| && trace[first].Now? && forall i :: start <= i < first ==> !trace[i].Now?
  }

  // ---- events that follow ----

  /** Observations that follow keep what was true of the signals. */
  lemma {:induction false} QuietKeeps(was: seq<Event>, trace: seq<Event>, start: nat, expected: PidRecord)
    requires start <= |was| && was <= trace && Unsignalled(trace, |was|)
    requires Fenced(was, start, expected) && Escalates(was, start)
    ensures Fenced(trace, start, expected) && Escalates(trace, start)
  {
    forall i | start <= i < |trace| && trace[i].Signal? ensures InTurn(trace, start, i) && trace[i].target == expected.pid
      ensures start + 2 <= i && SeenAt(trace, i, expected)
    {
      assert i < |was| && trace[i] == was[i];
      assert SeenAt(was, i, expected) && InTurn(was, start, i);
    }
  }

  /** So does a signal in its turn, sent on the right sight. */
  lemma {:induction false} SignalKeeps(was: seq<Event>, event: Event, start: nat, expected: PidRecord)
    requires start + 2 <= |was| && event.Signal? && event.target == expected.pid
    requires Fenced(was, start, expected) && Escalates(was, start) && SeenAt(was, |was|, expected)
    requires InTurn(was + [event], start, |was|)
    ensures Fenced(was + [event], start, expected) && Escalates(was + [event], start)
  {
    var trace := was + [event];
    forall i | start <= i < |trace| && trace[i].Signal? ensures InTurn(trace, start, i) && trace[i].target == expected.pid
      ensures start + 2 <= i && SeenAt(trace, i, expected)
    {
      if i < |was| {
        assert trace[i] == was[i];
        assert SeenAt(was, i, expected) && InTurn(was, start, i);
      }
    }
  }

  ghost predicate LastIs(trace: seq<Event>, event: Event) {
    trace != [] && trace[|trace| - 1] == event
  }

  /** Why a look at the owner failed, as its last observations show. */
  ghost predicate Explained(trace: seq<Event>, expected: PidRecord, error: Error) {
    && trace != []
    && var last := trace[|trace| - 1];
       match error
       case OwnerChanged => last.Owners? && last.pids != [] && last.pids != [expected.pid]
       case IdentityChanged => last.Owners? && last.pids != [] && |trace| > 1 && trace[|trace| - 2] == Matches(expected, false)
       case SignalFailed => last.Signal? && last.outcome == Refused
       case _ => false
  }

  /** A look at the owner from `n` on: owners, perhaps the identity, perhaps owners again, which only the last sight may show changed. */
  ghost predicate Look(trace: seq<Event>, n: nat, expected: PidRecord) {
    && n < |trace| <= n + 3 && trace[n].Owners? && (|trace| > n + 1 ==> trace[n] == Owners([expected.pid]) && trace[n + 1].Matches? && trace[n + 1].record == expected)
    && (|trace| > n + 2 ==> !trace[n + 1].matches && trace[n + 2].Owners?) && (|trace| == n + 2 ==> trace[n + 1].matches)
  }

  /** A look from `n` on, and when it sees the owner the signal, and when that finds none another look. */
  ghost predicate Asked(trace: seq<Event>, n: nat, expected: PidRecord, name: Name, r: Result<bool, Error>) {
    if SeenAt(trace, n + 2, expected) then
      && n + 2 < |trace| && trace[n + 2].Signal? && trace[n + 2].target == expected.pid && trace[n + 2].name == name
      && (if trace[n + 2].outcome == NoSuchProcess then Look(trace, n + 3, expected) else |trace| == n + 3)
      && (r == Ok(true) ==> !trace[|trace| - 1].Owners?)
    else Look(trace, n, expected) && r != Ok(true)
  }

  class Runtime {
    const environment: Environment
    var trace: seq<Event>
    var sleeps: nat

    constructor (environment: Environment)
      requires environment.Valid()
      ensures this.environment == environment && trace == [] && sleeps == 0
    {
      this.environment := environment;
      trace := [];
      sleeps := 0;
    }

    function Clock(): int
      reads this
    {
      environment.drift(|trace|) + POLL_MS * sleeps
    }

    method OwnerPids() returns (pids: seq<nat>)
      modifies this`trace
      ensures trace == old(trace) + [Owners(pids)]
    {
      pids := environment.owners(|trace|);
      trace := trace + [Owners(pids)];
    }

    method ProcessMatches(record: PidRecord) returns (matches: bool)
      modifies this`trace
      ensures trace == old(trace) + [Matches(record, matches)]
    {
      matches := environment.matches(|trace|);
      trace := trace + [Matches(record, matches)];
    }

    method ProcessStartTime(pid: nat) returns (time: Option<Token>)
      modifies this`trace
      ensures trace == old(trace) + [StartTime(pid, time)]
    {
      time := environment.startTime(|trace|);
      trace := trace + [StartTime(pid, time)];
    }

    method Kill(pid: nat, name: Name) returns (outcome: Outcome)
      modifies this`trace
      ensures trace == old(trace) + [Signal(pid, name, outcome)]
    {
      outcome := environment.outcome(|trace|);
      trace := trace + [Signal(pid, name, outcome)];
    }

    /** The clock, now and later. */
    ghost predicate Passes(was: int)
      reads this
    {
      was <= Clock() && (environment.Steady() ==> was == Clock())
    }

    method ReadClock() returns (at: int)
      requires environment.Valid()
      modifies this`trace
      ensures trace == old(trace) + [Now(at)] && at == old(Clock()) && Passes(at)
    {
      GoesBy(environment, |trace|, |trace| + 1);
      at := environment.drift(|trace|) + POLL_MS * sleeps;
      trace := trace + [Now(at)];
    }

    method Sleep()
      requires environment.Valid()
      modifies this`trace, this`sleeps
      ensures trace == old(trace) + [Slept] && Passes(old(Clock()) + POLL_MS)
    {
      GoesBy(environment, |trace|, |trace| + 1);
      sleeps := sleeps + 1;
      trace := trace + [Slept];
    }

    /** Looks without signalling: true right after the sight of the expected owner, false right after that of none. */
    method ExactSocketOwnerPresent(expected: PidRecord) returns (r: Result<bool, Error>)
      modifies this`trace
      ensures |old(trace)| < |trace| && old(trace) <= trace
      ensures Unsignalled(trace, |old(trace)|) && forall i :: |old(trace)| <= i < |trace| ==> !trace[i].Now?
      ensures r == Ok(true) <==> |trace| == |old(trace)| + 2 && SeenAt(trace, |trace|, expected)
      ensures r == Ok(false) <==> LastIs(trace, Owners([]))
      ensures r.Err? ==> Explained(trace, expected, r.error)
      ensures environment.Valid() ==> Passes(old(Clock()))
      ensures Look(trace, |old(trace)|, expected) && (r.Ok? && r.value ==> LastIs(trace, Matches(expected, true)))
    {
      var owners := OwnerPids();
      if |owners| == 0 { return Ok(false); }
      if |owners| != 1 || owners[0] != expected.pid { return Err(OwnerChanged); }
      var matches := ProcessMatches(expected);
      if matches { return Ok(true); }
      owners := OwnerPids();
      if |owners| == 0 { return Ok(false); }
      return Err(IdentityChanged);
    }

    /** Signals only on the right sight, and takes a process that is gone for one that may be gone. */
    method SignalExactSocketOwner(expected: PidRecord, name: Name, ghost start: nat) returns (r: Result<bool, Error>)
      requires start <= |trace| && Fenced(trace, start, expected) && Escalates(trace, start)
      requires if name == Sigterm then Unsignalled(trace, start)
               else GraceOver(trace, start, |trace|) && forall j :: start <= j < |trace| && trace[j].Signal? ==> trace[j].name == Sigterm
      modifies this`trace
      ensures |old(trace)| < |trace| && old(trace) <= trace
      ensures Fenced(trace, start, expected) && Escalates(trace, start)
      ensures forall i :: |old(trace)| <= i < |trace| ==> !trace[i].Now?
      ensures forall i :: |old(trace)| <= i < |trace| && trace[i].Signal? ==> trace[i].name == name
      ensures r == Ok(true) ==> exists i :: |old(trace)| <= i < |trace| && trace[i].Signal?
      ensures r == Ok(false) ==> LastIs(trace, Owners([]))
      ensures r.Err? ==> Explained(trace, expected, r.error)
      ensures Asked(trace, |old(trace)|, expected, name, r) && (environment.Valid() ==> Passes(old(Clock())))
    {
      hide Fenced, Escalates, Asked, Look, GraceOver;
      var present := ExactSocketOwnerPresent(expected);
      QuietKeeps(old(trace), trace, start, expected);
      if present != Ok(true) {
        NotAsked(trace, |old(trace)|, expected, name, present);
        return present;
      }
      ghost var seen := trace;
      var outcome := Kill(expected.pid, name);
      SendsRight(old(trace), seen, Signal(expected.pid, name, outcome), start, expected);
      assert trace[|seen|].Signal?;
      if outcome != NoSuchProcess { AskedOnce(trace, |old(trace)|, expected, name, if outcome == Refused then Err(SignalFailed) else Ok(true)); }
      if outcome == Refused { return Err(SignalFailed); }
      if outcome == NoSuchProcess {
        ghost var sent := trace;
        r := ExactSocketOwnerPresent(expected);
        QuietKeeps(sent, trace, start, expected);
        assert trace[|seen|] == sent[|seen|];
        AskedTwice(sent, trace, |old(trace)|, expected, name, r);
        return;
      }
      r := Ok(true);
    }

    /**
     * Identifies the one owner. A record comes right after its process was seen to own the socket alone, to have the
     * record's start time, and to own the socket as that process still; it is the expected one, if one is expected. No
     * record comes right after the sight of no owner.
     */
    method IdentifySocketOwner(expected: Option<PidRecord>) returns (r: Result<Option<PidRecord>, Error>)
      modifies this`trace
      ensures old(trace) <= trace && Unsignalled(trace, |old(trace)|)
      ensures r.Ok? && r.value.None? ==> LastIs(trace, Owners([]))
      ensures r.Ok? && r.value.Some? ==> trace == old(trace) + Identified(r.value.value) && expected in {None, r.value}
      ensures r == Err(SeveralOwners) ==> exists pids :: trace == old(trace) + [Owners(pids)] && |pids| > 1
      ensures r == Err(NotExpected) ==> expected.Some? && exists pid :: trace == old(trace) + [Owners([pid])] && pid != expected.value.pid
      ensures r == Err(IdentityChanged) ==>
                || (exists record :: Explained(trace, record, IdentityChanged))
                || (expected.Some? && exists pid, time :: LastIs(trace, StartTime(pid, Some(time))) && time != expected.value.startTime)
      ensures r == Err(OwnerChanged) ==> exists record :: Explained(trace, record, OwnerChanged)
      ensures r.Err? ==> r.error in {SeveralOwners, NotExpected, ExitedMeanwhile, IdentityChanged, OwnerChanged}
      ensures r == Err(ExitedMeanwhile) ==> trace != [] && trace[|trace| - 1].Owners? && trace[|trace| - 1] != Owners([])
    {
      var owners := OwnerPids();
      if |owners| == 0 { return Ok(None); }
      if |owners| != 1 { return Err(SeveralOwners); }
      var pid := owners[0];
      assert owners == [pid];
      if expected.Some? && pid != expected.value.pid { return Err(NotExpected); }
      var startTime := ProcessStartTime(pid);
      if startTime.None? {
        owners := OwnerPids();
        if |owners| == 0 { return Ok(None); }
        return Err(ExitedMeanwhile);
      }
      var record := PidRecord(pid, startTime.value);
      if expected.Some? && startTime.value != expected.value.startTime { return Err(IdentityChanged); }
      ghost var seen := trace;
      var present := ExactSocketOwnerPresent(record);
      ExplainedOtherwise(trace, record, present);
      if present.Err? { return Err(present.error); }
      if !present.value { return Ok(None); }
      assert trace == seen + trace[|seen|..] && trace[|seen|..] == [Owners([pid]), Matches(record, true)];
      return Ok(Some(record));
    }

    /**
     * One turn of the loop before its sleep: r is false when the owner is gone. The owner seen, the clock is read until it
     * shows the grace period over; then the owner is looked at again, and seen again gets its one SIGKILL.
     */
    method Poll(expected: PidRecord, startedAt: int, wasForced: bool, ghost start: nat, ghost term: nat, ghost first: nat)
      returns (r: Result<bool, Error>, forced: bool)
      requires environment.Valid() && Pressing(trace, start, term, first, startedAt, wasForced, expected)
      modifies this`trace
      ensures old(trace) <= trace && Underway(trace, start, term, first, startedAt, expected) && Presses(trace, start, first, expected)
      ensures |trace| > |old(trace)| && trace[|old(trace)|].Owners?
      ensures r == Ok(true) ==> Asleep(trace, start, term, first, startedAt, forced, expected)
      ensures r == Ok(true) && environment.Steady() && Clock() - startedAt >= STOP_GRACE_MS ==> forced
      ensures Passes(old(Clock()))
      ensures r == Ok(false) ==> LastIs(trace, Owners([]))
      ensures r.Err? ==> Explained(trace, expected, r.error)
    {
      hide Underway, Explained, LastIs, Fenced, Escalates, Presses, Kills, Times, SeesOnly, Overdue, KillSent, Asked, Look, GraceOver, NoKill;
      forced := wasForced;
      UnderwayMeans(trace, start, term, first, startedAt, expected);
      var present := ExactSocketOwnerPresent(expected);
      QuietGoesOn(old(trace), trace, start, term, first, startedAt, expected);
      LookKeeps(old(trace), trace, start, first, expected);
      if present != Ok(true) { return present, forced; }
      if !forced {
        ghost var seen := trace;
        var now := ReadClock();
        LastOne(seen, Now(now));
        QuietGoesOn(old(trace), trace, start, term, first, startedAt, expected);
        ReadKeeps(seen, now, start, first, expected);
        if now - startedAt >= STOP_GRACE_MS {
          GraceSeen(trace, start, term, first, startedAt, now, expected);
          ghost var was := trace;
          r := SignalExactSocketOwner(expected, Sigkill, start);
          GoesOn(was, trace, start, term, first, startedAt, expected);
          AskedKeeps(was, trace, start, first, expected, r);
          forced := true;
          return;
        }
      }
      r := Ok(true);
    }

    /**
     * Stops the owner. Whatever the environment does: a signal goes to the expected process only, right after the sight
     * of it as the one owner with its identity; there is at most one SIGTERM and then at most one SIGKILL, no earlier
     * than the grace period; a normal return comes right after the sight of no owner, and an error of what explains it.
     * And it does signal: SIGTERM if the first look sees the owner; then, whenever the owner is seen, the clock is read, and
     * past the grace period the owner is looked at again and gets SIGKILL; a timeout after such a reading comes after
     * SIGKILL, and so does every timeout when the clock goes by the sleeps alone.
     */
    method StopSocketOwner(expected: PidRecord) returns (r: Result<(), Error>)
      requires environment.Valid()
      modifies this`trace, this`sleeps
      ensures old(trace) <= trace
      ensures Fenced(trace, |old(trace)|, expected) && Escalates(trace, |old(trace)|)
      ensures r.Ok? ==> LastIs(trace, Owners([]))
      ensures r == Err(TimedOut) ==> Expired(trace, |old(trace)|)
      ensures r.Err? && r.error != TimedOut ==> Explained(trace, expected, r.error)
      ensures |trace| > |old(trace)| && trace[|old(trace)|].Owners? && SentIfSeen(trace, |old(trace)|, expected, Sigterm)
      ensures Pressed(trace, |old(trace)|, expected)
      ensures r == Err(TimedOut) && (WasOverdue(trace, |old(trace)|, expected) || environment.Steady()) ==> KillSent(trace, |old(trace)|)
    {
      hide Underway, Explained, LastIs, Fenced, Escalates, Presses, Pressing, Asleep, Overdue, KillSent, Asked, GraceOver, SentIfSeen, FirstNow, Expired, SeenAt, Pressed, WasOverdue;
      hide Environment.Valid, Environment.Steady, Runtime.Clock;
      ghost var start := |trace|;
      NothingYet(trace, expected);
      var asked := SignalExactSocketOwner(expected, Sigterm, start);
      ExplainedOtherwise(trace, expected, asked);
      FirstAsked(trace, start, expected, asked);
      if asked.Err? { return Err(asked.error); }
      if !asked.value { return Ok(()); }
      ghost var term: int :| start <= term < |trace| && trace[term].Signal?;
      ghost var first := |trace|;
      ghost var was := trace;
      var startedAt := ReadClock();
      var forced := false;
      var at := ReadClock();
      BeginsPressing(was, startedAt, at, start, term, expected, asked);
      while at - startedAt < STOP_TIMEOUT_MS
        invariant old(trace) <= trace && trace != [] && trace[|trace| - 1] == Now(at) && start + 2 < |trace| && trace[start].Owners?
        invariant Pressing(trace, start, term, first, startedAt, forced, expected) && SentIfSeen(trace, start, expected, Sigterm)
        invariant Passes(at) && (environment.Steady() && at - startedAt >= STOP_GRACE_MS + POLL_MS ==> forced)
        decreases startedAt + STOP_TIMEOUT_MS - at
      {
        var present;
        ghost var polled := trace;
        present, forced := Poll(expected, startedAt, forced, start, term, first);
        ExplainedOtherwise(trace, expected, present);
        TermStays(polled, trace, start, term, first, startedAt, expected);
        if present.Err? { return Err(present.error); }
        if !present.value { return Ok(()); }
        ghost var awake := trace;
        Sleep();
        at := ReadClock();
        Wakes(awake, at, start, term, first, startedAt, forced, expected);
      }
      TimeIsUp(trace, start, term, first, startedAt, forced, at, expected);
      return Err(TimedOut);
    }
  }

  /** A signal in its turn, after a look that sees the owner. */
  lemma {:induction false} SendsRight(was: seq<Event>, seen: seq<Event>, event: Event, start: nat, expected: PidRecord)
    requires start <= |was| && was <= seen && |seen| == |was| + 2 && SeenAt(seen, |seen|, expected) && Unsignalled(seen, |was|)
    requires Fenced(was, start, expected) && Escalates(was, start) && event.Signal? && event.target == expected.pid
    requires if event.name == Sigterm then Unsignalled(was, start)
             else GraceOver(was, start, |was|) && forall j :: start <= j < |was| && was[j].Signal? ==> was[j].name == Sigterm
    ensures Fenced(seen + [event], start, expected) && Escalates(seen + [event], start)
  {
    hide Fenced, Escalates;
    QuietKeeps(was, seen, start, expected);
    GraceStays(was, seen + [event], start);
    hide GraceOver;
    assert forall j :: 0 <= j < |was| ==> seen[j] == was[j];
    assert InTurn(seen + [event], start, |seen|);
    SignalKeeps(seen, event, start, expected);
  }

  lemma {:induction false} NotAsked(trace: seq<Event>, n: nat, expected: PidRecord, name: Name, r: Result<bool, Error>)
    requires Look(trace, n, expected) && r != Ok(true) && !(|trace| == n + 2 && SeenAt(trace, |trace|, expected))
    ensures Asked(trace, n, expected, name, r)
  {}

  lemma {:induction false} AskedOnce(trace: seq<Event>, n: nat, expected: PidRecord, name: Name, r: Result<bool, Error>)
    requires |trace| == n + 3 && SeenAt(trace, n + 2, expected) && trace[n + 2].Signal? && trace[n + 2].target == expected.pid && trace[n + 2].name == name
    requires trace[n + 2].outcome != NoSuchProcess
    ensures Asked(trace, n, expected, name, r)
  {
    hide Look;
  }

  lemma {:induction false} AskedTwice(sent: seq<Event>, trace: seq<Event>, n: nat, expected: PidRecord, name: Name, r: Result<bool, Error>)
    requires |sent| == n + 3 && SeenAt(sent, n + 2, expected) && sent[n + 2] == Signal(expected.pid, name, NoSuchProcess)
    requires sent <= trace && Look(trace, n + 3, expected) && (r == Ok(true) ==> LastIs(trace, Matches(expected, true)))
    ensures Asked(trace, n, expected, name, r)
  {
    assert forall j :: 0 <= j < |sent| ==> trace[j] == sent[j];
    hide Look;
  }

  /** The observations that identify a process. */
  function Identified(record: PidRecord): seq<Event> {
    [Owners([record.pid]), StartTime(record.pid, Some(record.startTime)), Owners([record.pid]), Matches(record, true)]
  }

  /** Signals in their turns are at most two: one SIGTERM, then one SIGKILL. */
  lemma {:induction false} OneOfEach(trace: seq<Event>, start: nat, i: nat, j: nat)
    requires Escalates(trace, start) && start <= i < j < |trace| && trace[i].Signal? && trace[j].Signal?
    ensures trace[i].name == Sigterm && trace[j].name == Sigkill && GraceOver(trace, start, j)
    ensures forall k :: start <= k < |trace| && trace[k].Signal? ==> k == i || k == j
  {
    hide GraceOver;
    assert InTurn(trace, start, i) && InTurn(trace, start, j);
    forall k | start <= k < |trace| && trace[k].Signal? ensures k == i || k == j {
      assert InTurn(trace, start, k);
    }
  }

  // ---- the time after SIGTERM ----

  /** SIGTERM was sent, the clock was read after it, and all signals so far were right. */
  ghost predicate Underway(trace: seq<Event>, start: nat, term: nat, first: nat, startedAt: int, expected: PidRecord) {
    && start <= term < first < |trace|
    && trace[term].Signal? && trace[term].name == Sigterm
    && trace[first] == Now(startedAt) && (forall i :: start <= i < first ==> !trace[i].Now?)
    && Fenced(trace, start, expected) && Escalates(trace, start)
  }

  lemma {:induction false} UnderwayMeans(trace: seq<Event>, start: nat, term: nat, first: nat, startedAt: int, expected: PidRecord)
    requires Underway(trace, start, term, first, startedAt, expected)
    ensures start <= |trace| && Fenced(trace, start, expected) && Escalates(trace, start)
    ensures start <= first < |trace| && trace[first] == Now(startedAt)
  {}

  lemma {:induction false} Begins(was: seq<Event>, start: nat, term: nat, startedAt: int, expected: PidRecord)
    requires start <= term < |was| && was[term].Signal? && was[term].name == Sigterm && forall i :: start <= i < |was| ==> !was[i].Now?
    requires Fenced(was, start, expected) && Escalates(was, start)
    ensures Underway(was + [Now(startedAt)], start, term, |was|, startedAt, expected)
  {
    hide Fenced, Escalates;
    QuietKeeps(was, was + [Now(startedAt)], start, expected);
  }

  lemma {:induction false} GoesOn(was: seq<Event>, trace: seq<Event>, start: nat, term: nat, first: nat, startedAt: int, expected: PidRecord)
    requires was <= trace && Underway(was, start, term, first, startedAt, expected)
    requires Fenced(trace, start, expected) && Escalates(trace, start)
    ensures Underway(trace, start, term, first, startedAt, expected)
  {
    hide Fenced, Escalates;
    assert forall i :: 0 <= i <= first ==> trace[i] == was[i];
  }

  lemma {:induction false} QuietGoesOn(was: seq<Event>, trace: seq<Event>, start: nat, term: nat, first: nat, startedAt: int, expected: PidRecord)
    requires was <= trace && Unsignalled(trace, |was|) && Underway(was, start, term, first, startedAt, expected)
    ensures Underway(trace, start, term, first, startedAt, expected)
  {
    hide Fenced, Escalates;
    QuietKeeps(was, trace, start, expected);
    GoesOn(was, trace, start, term, first, startedAt, expected);
  }

  // ---- pressing on ----

  /** What is past stays as it was: the events after a sight or a reading change nothing of it. */
  lemma {:induction false} PastStays(was: seq<Event>, trace: seq<Event>, start: nat, first: nat, i: int, expected: PidRecord)
    requires first < |was| && was <= trace
    ensures i < |was| ==> (Overdue(trace, start, first, i, expected) <==> Overdue(was, start, first, i, expected))
    ensures i <= |was| ==> (SeenAt(trace, i, expected) <==> SeenAt(was, i, expected)) && (NoKill(trace, start, i) <==> NoKill(was, start, i))
  {
    assert forall j :: 0 <= j < |was| ==> trace[j] == was[j];
  }

  ghost predicate SameKill(was: seq<Event>, trace: seq<Event>, start: nat) { KillSent(trace, start) <==> KillSent(was, start) }

  lemma {:induction false} KillSame(was: seq<Event>, trace: seq<Event>, start: nat)
    requires was <= trace && (Unsignalled(trace, |was|) || KillSent(was, start))
    ensures SameKill(was, trace, start)
  {
    if KillSent(was, start) {
      var i :| start <= i < |was| && was[i].Signal? && was[i].name == Sigkill;
      assert trace[i] == was[i];
    }
    if KillSent(trace, start) && Unsignalled(trace, |was|) {
      var i :| start <= i < |trace| && trace[i].Signal? && trace[i].name == Sigkill;
      assert trace[i] == was[i];
    }
  }

  /** Kept by what follows: the readings so far are answered, and so are the sights before the last event. */
  lemma {:induction false} PastKeeps(was: seq<Event>, trace: seq<Event>, start: nat, first: nat, until: int, expected: PidRecord)
    requires start <= first < |was| && was <= trace && until <= |was|
    requires Kills(was, start, first, until, expected) && (|trace| > |was| ==> !trace[|was|].Matches?)
    requires |trace| > |was| + 1 ==> !was[|was| - 1].Owners?
    ensures Kills(trace, start, first, until, expected)
  {
    forall i | i < until && Overdue(trace, start, first, i, expected)
      ensures i + 1 < |trace| && trace[i + 1].Owners? && SentIfSeen(trace, i + 1, expected, Sigkill)
    {
      PastStays(was, trace, start, first, i, expected);
      assert trace[i + 1] == was[i + 1] && SentIfSeen(was, i + 1, expected, Sigkill);
      if SeenAt(trace, i + 3, expected) { assert i + 3 <= |was|; }
    }
  }

  lemma {:induction false} TimesKeep(was: seq<Event>, trace: seq<Event>, start: nat, first: nat, until: int, expected: PidRecord)
    requires start <= first < |was| && was <= trace && until <= |was| + 1
    requires Times(was, start, first, until, expected)
    ensures Times(trace, start, first, until, expected)
  {
    forall i | first < i - 2 && i < until && SeenAt(trace, i, expected) && NoKill(trace, start, i)
      ensures i < |trace| && (trace[i].Now? || (trace[i].Signal? && trace[i].name == Sigkill))
    {
      PastStays(was, trace, start, first, i, expected);
      assert trace[i] == was[i];
    }
  }

  /** A look keeps it, but that the sight it ends with is still to be followed by a look at the clock. */
  lemma {:induction false} LookKeeps(was: seq<Event>, trace: seq<Event>, start: nat, first: nat, expected: PidRecord)
    requires start <= first < |was| && was <= trace && Presses(was, start, first, expected) && was[|was| - 1].Now? && Look(trace, |was|, expected)
    ensures Kills(trace, start, first, |trace|, expected) && SeesOnly(trace, start, expected) && Times(trace, start, first, |trace|, expected)
    ensures KillSent(was, start) || !LastIs(trace, Matches(expected, true)) ==> Presses(trace, start, first, expected)
    ensures SameKill(was, trace, start)
    ensures forall i :: Overdue(trace, start, first, i, expected) ==> Overdue(was, start, first, i, expected)
    ensures LastIs(trace, Matches(expected, true)) ==> SeenAt(trace, |trace|, expected) && !LastIs(trace, Owners([])) && SeesOnly(trace + [Slept], start, expected)
  {
    KillSame(was, trace, start) by { LookIsQuiet(trace, |was|, expected); }
    PastKeeps(was, trace, start, first, |was|, expected) by { LookIsQuiet(trace, |was|, expected); }
    TimesKeep(was, trace, start, first, |was| + 1, expected);
    LookSees(was, trace, start, first, expected);
    forall i | Overdue(trace, start, first, i, expected) ensures Overdue(was, start, first, i, expected) { PastStays(was, trace, start, first, i, expected); }
    if KillSent(was, start) { NotKillFree(was, trace, start); }
    hide SeenAt, NoKill, Overdue, SentIfSeen, KillSent, Look, SameKill, SeesOnly, LastIs;
  }

  lemma {:induction false} LookIsQuiet(trace: seq<Event>, n: nat, expected: PidRecord)
    requires Look(trace, n, expected)
    ensures Unsignalled(trace, n) && !trace[n].Matches? && forall i :: n <= i < |trace| ==> !trace[i].Now?
  {}

  lemma {:induction false} LookSees(was: seq<Event>, trace: seq<Event>, start: nat, first: nat, expected: PidRecord)
    requires start <= first < |was| && was <= trace && SeesOnly(was, start, expected) && was[|was| - 1].Now? && Look(trace, |was|, expected)
    ensures SeesOnly(trace, start, expected) && forall i :: |was| <= i ==> !Overdue(trace, start, first, i, expected)
    ensures forall i :: |was| < i < |trace| ==> !SeenAt(trace, i, expected)
    ensures SeenAt(trace, |trace|, expected) <==> LastIs(trace, Matches(expected, true))
    ensures LastIs(trace, Matches(expected, true)) ==> !LastIs(trace, Owners([])) && SeesOnly(trace + [Slept], start, expected)
  {
    hide NoKill;
    assert forall j :: 0 <= j < |was| ==> trace[j] == was[j];
  }

  lemma {:induction false} NotKillFree(was: seq<Event>, trace: seq<Event>, start: nat)
    requires was <= trace && KillSent(was, start)
    ensures forall i :: |was| <= i ==> !NoKill(trace, start, i)
  {
    var j :| start <= j < |was| && was[j].Signal? && was[j].name == Sigkill;
    assert trace[j] == was[j];
  }

  /** The clock is read after the sight. */
  lemma {:induction false} ReadKeeps(seen: seq<Event>, now: int, start: nat, first: nat, expected: PidRecord)
    requires start <= first < |seen| - 2 && seen[first].Now? && SeenAt(seen, |seen|, expected) && !KillSent(seen, start)
    requires Kills(seen, start, first, |seen|, expected) && SeesOnly(seen, start, expected) && Times(seen, start, first, |seen|, expected)
    ensures var trace := seen + [Now(now)];
            && Kills(trace, start, first, |seen|, expected) && SeesOnly(trace, start, expected) && Times(trace, start, first, |trace| + 1, expected)
            && SameKill(seen, trace, start) && SeesOnly(trace + [Slept], start, expected)
            && (Overdue(trace, start, first, |seen|, expected) <==> now - seen[first].at >= STOP_GRACE_MS)
            && (!Overdue(trace, start, first, |seen|, expected) ==> Presses(trace, start, first, expected))
            && forall i :: Overdue(trace, start, first, i, expected) ==> i == |seen| || Overdue(seen, start, first, i, expected)
  {
    var trace := seen + [Now(now)];
    KillSame(seen, trace, start);
    PastKeeps(seen, trace, start, first, |seen|, expected);
    TimesKeep(seen, trace, start, first, |seen|, expected);
    PastStays(seen, trace, start, first, |seen|, expected);
    forall i | Overdue(trace, start, first, i, expected) ensures i == |seen| || Overdue(seen, start, first, i, expected) {
      PastStays(seen, trace, start, first, i, expected);
    }
    ReadTimes(seen, now, start, first, expected);
    ReadSees(seen, now, start, first, expected);
    hide Overdue, SeenAt, NoKill, SeesOnly, SentIfSeen, SameKill;
  }

  lemma {:induction false} ReadTimes(seen: seq<Event>, now: int, start: nat, first: nat, expected: PidRecord)
    requires start <= first < |seen| - 2 && Times(seen + [Now(now)], start, first, |seen|, expected)
    ensures Times(seen + [Now(now)], start, first, |seen| + 2, expected)
  {
    var trace := seen + [Now(now)];
    hide NoKill;
    assert !SeenAt(trace, |seen| + 1, expected);
    hide SeenAt;
  }

  lemma {:induction false} ReadSees(seen: seq<Event>, now: int, start: nat, first: nat, expected: PidRecord)
    requires start <= first < |seen| - 2 && seen[first].Now? && SeenAt(seen, |seen|, expected) && !KillSent(seen, start) && SeesOnly(seen, start, expected)
    ensures var trace := seen + [Now(now)];
            && SeesOnly(trace, start, expected) && SeesOnly(trace + [Slept], start, expected)
            && (Overdue(trace, start, first, |seen|, expected) <==> now - seen[first].at >= STOP_GRACE_MS)
  {
    var trace := seen + [Now(now)];
    assert trace[|seen|] == Now(now) && forall j :: 0 <= j < |seen| ==> trace[j] == seen[j];
    assert NoKill(trace, start, |seen|);
  }

  /** Past the grace period the owner is asked to die. */
  lemma {:induction false} AskedKeeps(was: seq<Event>, trace: seq<Event>, start: nat, first: nat, expected: PidRecord, r: Result<bool, Error>)
    requires start <= first < |was| - 1 && was <= trace && was[|was| - 1].Now? && Asked(trace, |was|, expected, Sigkill, r)
    requires Kills(was, start, first, |was| - 1, expected) && SeesOnly(was, start, expected) && Times(was, start, first, |was| + 1, expected)
    ensures Presses(trace, start, first, expected) && trace[|was|].Owners?
    ensures r == Ok(true) ==> KillSent(trace, start) && !LastIs(trace, Owners([])) && SeesOnly(trace + [Slept], start, expected)
  {
    AskedFirst(was, trace, expected, r);
    PastKeeps(was, trace, start, first, |was| - 1, expected);
    TimesKeep(was, trace, start, first, |was| + 1, expected);
    AskedKills(was, trace, start, first, expected, r);
    AskedTimes(was, trace, start, first, expected, r);
    AskedSees(was, trace, start, expected, r);
    hide *;
    PressesAll(trace, start, first, expected);
  }

  lemma {:induction false} AskedFirst(was: seq<Event>, trace: seq<Event>, expected: PidRecord, r: Result<bool, Error>)
    requires was <= trace && Asked(trace, |was|, expected, Sigkill, r)
    ensures |trace| > |was| && trace[|was|].Owners? && (forall i :: |was| <= i < |trace| ==> !trace[i].Now?) && SentIfSeen(trace, |was|, expected, Sigkill)
  {}

  lemma {:induction false} AskedKills(was: seq<Event>, trace: seq<Event>, start: nat, first: nat, expected: PidRecord, r: Result<bool, Error>)
    requires start <= first < |was| - 1 && was <= trace && |trace| > |was| && trace[|was|].Owners? && SentIfSeen(trace, |was|, expected, Sigkill)
    requires (forall i :: |was| <= i < |trace| ==> !trace[i].Now?) && Kills(trace, start, first, |was| - 1, expected)
    ensures Kills(trace, start, first, |trace|, expected)
  {
    hide NoKill, SentIfSeen;
    assert forall i :: |was| <= i ==> !Overdue(trace, start, first, i, expected);
  }

  lemma {:induction false} AskedTimes(was: seq<Event>, trace: seq<Event>, start: nat, first: nat, expected: PidRecord, r: Result<bool, Error>)
    requires start <= first < |was| - 1 && was <= trace && was[|was| - 1].Now? && Asked(trace, |was|, expected, Sigkill, r)
    requires Times(trace, start, first, |was| + 1, expected)
    ensures Times(trace, start, first, |trace| + 1, expected)
    ensures r == Ok(true) ==> KillSent(trace, start)
  {
    var n := |was|;
    if SeenAt(trace, n + 2, expected) {
      AskedSight(was, trace, expected, r);
      KilledAt(trace, start, n + 2);
      hide *;
      TimesAfterKill(trace, start, first, n, expected);
    } else {
      NoSight(was, trace, expected, r);
      hide NoKill, SeenAt, Asked, Look;
    }
  }

  lemma {:induction false} AskedSight(was: seq<Event>, trace: seq<Event>, expected: PidRecord, r: Result<bool, Error>)
    requires was != [] && was <= trace && was[|was| - 1].Now? && Asked(trace, |was|, expected, Sigkill, r) && SeenAt(trace, |was| + 2, expected)
    ensures |was| + 2 < |trace| && trace[|was| + 2].Signal? && trace[|was| + 2].name == Sigkill && !SeenAt(trace, |was| + 1, expected)
  {
    hide Look;
  }

  lemma {:induction false} TimesAfterKill(trace: seq<Event>, start: nat, first: nat, n: nat, expected: PidRecord)
    requires n + 2 < |trace| && trace[n + 2].Signal? && trace[n + 2].name == Sigkill && !SeenAt(trace, n + 1, expected)
    requires Times(trace, start, first, n + 1, expected) && forall i :: n + 2 < i ==> !NoKill(trace, start, i)
    ensures Times(trace, start, first, |trace| + 1, expected)
  {
    hide SeenAt, NoKill;
  }

  lemma {:induction false} NoSight(was: seq<Event>, trace: seq<Event>, expected: PidRecord, r: Result<bool, Error>)
    requires was != [] && was <= trace && was[|was| - 1].Now? && Asked(trace, |was|, expected, Sigkill, r) && !SeenAt(trace, |was| + 2, expected)
    ensures r != Ok(true) && forall i :: |was| < i ==> !SeenAt(trace, i, expected)
  {
    assert trace[|was| - 1] == was[|was| - 1];
  }

  lemma {:induction false} KilledAt(trace: seq<Event>, start: nat, n: nat)
    requires start <= n < |trace| && trace[n].Signal? && trace[n].name == Sigkill
    ensures KillSent(trace, start) && forall i :: n < i ==> !NoKill(trace, start, i)
  {}

  lemma {:induction false} AskedSees(was: seq<Event>, trace: seq<Event>, start: nat, expected: PidRecord, r: Result<bool, Error>)
    requires start < |was| && was <= trace && was[|was| - 1].Now? && Asked(trace, |was|, expected, Sigkill, r) && SeesOnly(was, start, expected)
    ensures SeesOnly(trace, start, expected) && (r == Ok(true) ==> !LastIs(trace, Owners([])) && SeesOnly(trace + [Slept], start, expected))
  {
    assert forall j :: 0 <= j < |was| ==> trace[j] == was[j];
  }

  lemma {:induction false} PressesAll(trace: seq<Event>, start: nat, first: nat, expected: PidRecord)
    requires Kills(trace, start, first, |trace|, expected) && Times(trace, start, first, |trace| + 1, expected) && SeesOnly(trace, start, expected)
    ensures Presses(trace, start, first, expected)
  {
    hide Kills, Times, SeesOnly;
  }

  /** Before the clock is first read. */
  lemma {:induction false} FirstAsked(trace: seq<Event>, start: nat, expected: PidRecord, asked: Result<bool, Error>)
    requires Asked(trace, start, expected, Sigterm, asked) && forall i :: start <= i < |trace| ==> !trace[i].Now?
    ensures |trace| > start && trace[start].Owners? && SentIfSeen(trace, start, expected, Sigterm) && Pressed(trace, start, expected)
  {}

  /** At the head of the loop: all signals and readings so far were right, and the clock was just read. */
  ghost predicate Pressing(trace: seq<Event>, start: nat, term: nat, first: nat, startedAt: int, forced: bool, expected: PidRecord) {
    && Underway(trace, start, term, first, startedAt, expected) && Presses(trace, start, first, expected)
    && (forced <==> KillSent(trace, start)) && ((exists i :: Overdue(trace, start, first, i, expected)) ==> forced)
    && trace[|trace| - 1].Now?
  }

  /** Before a sleep: likewise, and the last sight was the expected one. */
  ghost predicate Asleep(trace: seq<Event>, start: nat, term: nat, first: nat, startedAt: int, forced: bool, expected: PidRecord) {
    && Underway(trace, start, term, first, startedAt, expected) && Presses(trace, start, first, expected)
    && (forced <==> KillSent(trace, start)) && ((exists i :: Overdue(trace, start, first, i, expected)) ==> forced)
    && SeesOnly(trace + [Slept], start, expected)
  }

  lemma {:induction false} BeginsPressing(was: seq<Event>, startedAt: int, at: int, start: nat, term: nat, expected: PidRecord, asked: Result<bool, Error>)
    requires Asked(was, start, expected, Sigterm, asked) && asked == Ok(true) && start <= term < |was| && was[term].Signal?
    requires Fenced(was, start, expected) && Escalates(was, start) && forall i :: start <= i < |was| ==> !was[i].Now?
    ensures var trace := was + [Now(startedAt)] + [Now(at)];
            && Pressing(trace, start, term, |was|, startedAt, false, expected)
            && start + 2 < |trace| && trace[start].Owners? && SentIfSeen(trace, start, expected, Sigterm)
  {
    var trace := was + [Now(startedAt)] + [Now(at)];
    FirstPresses(was, startedAt, at, start, expected, asked);
    assert was[term].name == Sigterm;
    Begins(was, start, term, startedAt, expected);
    QuietGoesOn(was + [Now(startedAt)], trace, start, term, |was|, startedAt, expected);
    hide Underway, Presses, KillSent, Overdue, Fenced, Escalates, Asked;
  }

  lemma {:induction false} FirstPresses(was: seq<Event>, startedAt: int, at: int, start: nat, expected: PidRecord, asked: Result<bool, Error>)
    requires Asked(was, start, expected, Sigterm, asked) && asked == Ok(true)
    ensures var trace := was + [Now(startedAt)] + [Now(at)];
            && Presses(trace, start, |was|, expected) && !KillSent(trace, start) && (forall i :: !Overdue(trace, start, |was|, i, expected))
            && start + 2 < |trace| && trace[start].Owners? && SentIfSeen(trace, start, expected, Sigterm)
  {
    var trace := was + [Now(startedAt)] + [Now(at)];
    assert trace[|was|] == Now(startedAt) && trace[|was| + 1] == Now(at) && forall j :: 0 <= j < |was| ==> trace[j] == was[j];
    hide NoKill;
    assert SeenAt(was, start + 2, expected);
    assert |was| == start + 3 || (|was| == start + 5 && was[start + 3] == Owners([expected.pid]) && was[start + 4].Matches?);
    assert SeesOnly(trace, start, expected);
    assert !KillSent(trace, start);
    assert forall i :: !Overdue(trace, start, |was|, i, expected);
    assert Times(trace, start, |was|, |trace| + 1, expected);
  }

  /** The answer to the first look stays, and so does which reading of the clock is the first. */
  lemma {:induction false} TermStays(was: seq<Event>, trace: seq<Event>, start: nat, term: nat, first: nat, startedAt: int, expected: PidRecord)
    requires was <= trace && SentIfSeen(was, start, expected, Sigterm) && start + 2 < |was|
    requires Underway(trace, start, term, first, startedAt, expected)
    ensures start < |trace| && trace[start] == was[start] && SentIfSeen(trace, start, expected, Sigterm) && Fenced(trace, start, expected) && Escalates(trace, start)
    ensures Presses(trace, start, first, expected) ==> Pressed(trace, start, expected)
  {
    hide Fenced, Escalates, Presses;
    assert forall j :: 0 <= j < |was| ==> trace[j] == was[j];
    OnlyFirst(trace, start, term, first, startedAt, expected);
  }

  lemma {:induction false} Wakes(awake: seq<Event>, at: int, start: nat, term: nat, first: nat, startedAt: int, forced: bool, expected: PidRecord)
    requires Asleep(awake, start, term, first, startedAt, forced, expected) && SentIfSeen(awake, start, expected, Sigterm) && start + 2 < |awake|
    ensures Pressing(awake + [Slept] + [Now(at)], start, term, first, startedAt, forced, expected)
    ensures SentIfSeen(awake + [Slept] + [Now(at)], start, expected, Sigterm)
  {
    var trace := awake + [Slept] + [Now(at)];
    UnderwayMeans(awake, start, term, first, startedAt, expected);
    SleepKeeps(awake, at, start, first, expected);
    assert Unsignalled(trace, |awake|);
    QuietGoesOn(awake, trace, start, term, first, startedAt, expected);
    TermStays(awake, trace, start, term, first, startedAt, expected);
    hide Underway, Presses, KillSent, Overdue, SentIfSeen, SeesOnly;
  }

  /** A sleep and the clock's next reading. */
  lemma {:induction false} SleepKeeps(awake: seq<Event>, at: int, start: nat, first: nat, expected: PidRecord)
    requires start <= first < |awake| && Presses(awake, start, first, expected) && SeesOnly(awake + [Slept], start, expected)
    ensures var trace := awake + [Slept] + [Now(at)];
            && Presses(trace, start, first, expected) && SameKill(awake, trace, start)
            && forall i :: Overdue(trace, start, first, i, expected) ==> Overdue(awake, start, first, i, expected)
  {
    var trace := awake + [Slept] + [Now(at)];
    assert trace[|awake|] == Slept && trace[|awake| + 1] == Now(at) && forall j :: 0 <= j < |awake| ==> trace[j] == awake[j];
    KillSame(awake, trace, start);
    hide NoKill;
    assert forall i :: |awake| < i ==> !SeenAt(trace, i, expected);
    SleptKills(awake, trace, start, first, expected);
    TimesKeep(awake, trace, start, first, |awake| + 1, expected);
    forall i | Overdue(trace, start, first, i, expected) ensures Overdue(awake, start, first, i, expected) { PastStays(awake, trace, start, first, i, expected); }
    assert SeesOnly(trace, start, expected) by { assert forall j :: 0 <= j < |awake| ==> (awake + [Slept])[j] == awake[j]; }
  }

  lemma {:induction false} SleptKills(awake: seq<Event>, trace: seq<Event>, start: nat, first: nat, expected: PidRecord)
    requires start <= first < |awake| && awake <= trace && |trace| == |awake| + 2 && trace[|awake|] == Slept && trace[|awake| + 1].Now?
    requires Kills(awake, start, first, |awake|, expected)
    ensures Kills(trace, start, first, |trace|, expected)
  {
    forall i | i < |trace| && Overdue(trace, start, first, i, expected)
      ensures i + 1 < |trace| && trace[i + 1].Owners? && SentIfSeen(trace, i + 1, expected, Sigkill)
    {
      assert SeenAt(trace, i, expected) && i <= |awake| && i != |awake|;
      PastStays(awake, trace, start, first, i, expected);
      assert trace[i + 1] == awake[i + 1] && SentIfSeen(awake, i + 1, expected, Sigkill);
      PastStays(awake, trace, start, first, i + 3, expected);
    }
  }

  /** The clock's first reading is the one after SIGTERM. */
  lemma {:induction false} OnlyFirst(trace: seq<Event>, start: nat, term: nat, first: nat, startedAt: int, expected: PidRecord)
    requires Underway(trace, start, term, first, startedAt, expected)
    ensures forall f :: FirstNow(trace, start, f) ==> f == first
  {}

  lemma {:induction false} GraceSeen(trace: seq<Event>, start: nat, term: nat, first: nat, startedAt: int, now: int, expected: PidRecord)
    requires Underway(trace, start, term, first, startedAt, expected) && LastIs(trace, Now(now)) && now - startedAt >= STOP_GRACE_MS
    requires !KillSent(trace, start)
    ensures start <= |trace| && Fenced(trace, start, expected) && Escalates(trace, start) && GraceOver(trace, start, |trace|)
    ensures forall j :: start <= j < |trace| && trace[j].Signal? ==> trace[j].name == Sigterm
  {
    hide Fenced, Escalates;
    assert trace[|trace| - 1] == Now(now);
  }

  lemma {:induction false} TimeIsUp(trace: seq<Event>, start: nat, term: nat, first: nat, startedAt: int, forced: bool, at: int, expected: PidRecord)
    requires Pressing(trace, start, term, first, startedAt, forced, expected) && trace != [] && trace[|trace| - 1] == Now(at) && at - startedAt >= STOP_TIMEOUT_MS
    ensures Expired(trace, start) && Fenced(trace, start, expected) && Escalates(trace, start) && (forced ==> KillSent(trace, start))
    ensures Pressed(trace, start, expected) && (WasOverdue(trace, start, expected) ==> KillSent(trace, start))
  {
    hide Fenced, Escalates, Presses, KillSent, Overdue;
    OnlyFirst(trace, start, term, first, startedAt, expected);
    assert trace[first].Now?;
  }

  lemma {:induction false} LastOne(trace: seq<Event>, event: Event)
    ensures LastIs(trace + [event], event)
  {}

  lemma {:induction false} ExplainedOtherwise(trace: seq<Event>, expected: PidRecord, r: Result<bool, Error>)
    requires r.Err? ==> Explained(trace, expected, r.error)
    ensures r.Err? ==> r.error in {OwnerChanged, IdentityChanged, SignalFailed}
  {}

  lemma {:induction false} GraceStays(was: seq<Event>, trace: seq<Event>, start: nat)
    requires was <= trace
    ensures GraceOver(was, start, |was|) ==> forall i :: |was| <= i <= |trace| ==> GraceOver(trace, start, i)
  {
    if GraceOver(was, start, |was|) {
      var term, first, later :| start <= term < first < later < |was| && was[term].Signal? && was[term].name == Sigterm
        && was[first].Now? && was[later].Now? && was[later].at - was[first].at >= STOP_GRACE_MS;
      assert trace[term] == was[term] && trace[first] == was[first] && trace[later] == was[later];
    }
  }

  lemma {:induction false} NothingYet(trace: seq<Event>, expected: PidRecord)
    ensures Fenced(trace, |trace|, expected) && Escalates(trace, |trace|) && Unsignalled(trace, |trace|)
  {}
}
