/**
 * The timers of `Warden::Update`: a countdown to the next challenge while no
 * challenge is outstanding, and a response timer, with a configurable limit,
 * while one is. All arithmetic is on `uint32` and wraps.
 */
module WardenTimers {
  import opened Bytes

  const IN_MILLISECONDS: nat := 1000
  /** `_checkTimer` as the constructor sets it: ten seconds. */
  const INITIAL_CHECK_TIMER: uint32 := 10000

  /** The fields of a `Warden` that `Update` reads and writes. */
  datatype TimerState = TimerState(
    initialized: bool,
    dataSent: bool,
    checkTimer: uint32,
    clientResponseTimer: uint32,
    previousTimestamp: uint32)

  /** What one call of `Update` does besides changing the timers. */
  datatype TimerAction =
    | NoAction
    | IssueChallenge   // the subclass's RequestData
    | KickForDelay     // the session is kicked for an overdue response

  datatype Tick = Tick(next: TimerState, action: TimerAction)

  /** `currentTimestamp - _previousTimestamp` in `uint32`: correct across a wrap of the clock. */
  function Elapsed(previous: uint32, now: uint32): (diff: uint32)
    ensures previous <= now ==> diff == now - previous
    ensures now < previous ==> diff == now + 0x1_0000_0000 - previous
  {
    Wrap32(now - previous)
  }

  /** `maxClientResponseDelay * IN_MILLISECONDS`, a `uint32` product. */
  function DelayLimit(maxDelay: uint32): (limit: uint32)
    ensures maxDelay <= 4294967 ==> limit == maxDelay * IN_MILLISECONDS
    ensures (maxDelay * IN_MILLISECONDS - limit) % 0x1_0000_0000 == 0
  {
    Wrap32(maxDelay * IN_MILLISECONDS)
  }

  /**
   * One call of `Warden::Update` at game time `now` with the configured
   * maximum response delay `maxDelay` (seconds, 0 meaning no limit).
   */
  function UpdateTimers(s: TimerState, now: uint32, maxDelay: uint32): (t: Tick)
    ensures !s.initialized ==> t == Tick(s, NoAction)
    ensures s.initialized ==> t.next.previousTimestamp == now
    ensures t.next.initialized == s.initialized && t.next.dataSent == s.dataSent
    ensures s.dataSent ==> t.next.checkTimer == s.checkTimer && t.action != IssueChallenge
    ensures !s.dataSent ==> t.next.clientResponseTimer == s.clientResponseTimer && t.action != KickForDelay
    ensures s.initialized && !s.dataSent ==>
      (t.action == IssueChallenge <==> Elapsed(s.previousTimestamp, now) >= s.checkTimer)
    ensures s.initialized && s.dataSent ==>
      (t.action == KickForDelay <==> maxDelay > 0 && s.clientResponseTimer > DelayLimit(maxDelay))
  {
    if !s.initialized then Tick(s, NoAction)
    else
      var diff := Elapsed(s.previousTimestamp, now);
      var s1 := s.(previousTimestamp := now);
      if s.dataSent then
        if maxDelay > 0 then
          if s.clientResponseTimer > DelayLimit(maxDelay) then Tick(s1, KickForDelay)
          else Tick(s1.(clientResponseTimer := Wrap32(s.clientResponseTimer + diff)), NoAction)
        else Tick(s1, NoAction)
      else if diff >= s.checkTimer then Tick(s1, IssueChallenge)
      else Tick(s1.(checkTimer := s.checkTimer - diff), NoAction)
  }

  datatype RunResult = RunResult(final: TimerState, actions: seq<TimerAction>)

  /** `Update` called once for each timestamp of `nows`, in order. */
  function Run(s: TimerState, nows: seq<uint32>, maxDelay: uint32): (r: RunResult)
    ensures |r.actions| == |nows|
    decreases nows
  {
    if nows == [] then RunResult(s, [])
    else
      var t := UpdateTimers(s, nows[0], maxDelay);
      var rest := Run(t.next, nows[1..], maxDelay);
      RunResult(rest.final, [t.action] + rest.actions)
  }

  /** The time the timers see pass over a run: the sum of the wrapped differences. */
  function TotalElapsed(previous: uint32, nows: seq<uint32>): nat
    decreases nows
  {
    if nows == [] then 0 else Elapsed(previous, nows[0]) + TotalElapsed(nows[0], nows[1..])
  }

  /** Before the module is initialized, `Update` does nothing at all. */
  lemma {:induction false} UninitializedIsInert(s: TimerState, nows: seq<uint32>, maxDelay: uint32)
    requires !s.initialized
    ensures Run(s, nows, maxDelay).final == s
    ensures forall i :: 0 <= i < |nows| ==> Run(s, nows, maxDelay).actions[i] == NoAction
    decreases nows
  {
    if nows != [] {
      UninitializedIsInert(s, nows[1..], maxDelay);
    }
  }

  /** With no configured response delay a session is never kicked, and the response timer never moves. */
  lemma {:induction false} NoKickWithoutLimit(s: TimerState, nows: seq<uint32>)
    ensures KickForDelay !in Run(s, nows, 0).actions
    ensures Run(s, nows, 0).final.clientResponseTimer == s.clientResponseTimer
    decreases nows
  {
    if nows != [] {
      var t := UpdateTimers(s, nows[0], 0);
      NoKickWithoutLimit(t.next, nows[1..]);
    }
  }

  /** While a challenge is outstanding no further challenge is issued and the countdown is frozen. */
  lemma {:induction false} NoChallengeWhileAwaiting(s: TimerState, nows: seq<uint32>, maxDelay: uint32)
    requires s.dataSent
    ensures IssueChallenge !in Run(s, nows, maxDelay).actions
    ensures Run(s, nows, maxDelay).final.checkTimer == s.checkTimer
    decreases nows
  {
    if nows != [] {
      var t := UpdateTimers(s, nows[0], maxDelay);
      NoChallengeWhileAwaiting(t.next, nows[1..], maxDelay);
    }
  }

  /** Once the response timer is over the limit, every later update kicks and the timer stays put. */
  lemma {:induction false} KickPersists(s: TimerState, nows: seq<uint32>, maxDelay: uint32)
    requires s.initialized && s.dataSent && maxDelay > 0
    requires s.clientResponseTimer > DelayLimit(maxDelay)
    ensures forall i :: 0 <= i < |nows| ==> Run(s, nows, maxDelay).actions[i] == KickForDelay
    ensures Run(s, nows, maxDelay).final.clientResponseTimer == s.clientResponseTimer
    decreases nows
  {
    if nows != [] {
      var t := UpdateTimers(s, nows[0], maxDelay);
      KickPersists(t.next, nows[1..], maxDelay);
    }
  }

  /**
   * As long as no challenge is issued, the countdown drops by exactly the
   * time that passed: it never underflows.
   */
  lemma {:induction false} CountdownIsExact(s: TimerState, nows: seq<uint32>, maxDelay: uint32)
    requires s.initialized && !s.dataSent
    requires IssueChallenge !in Run(s, nows, maxDelay).actions
    ensures Run(s, nows, maxDelay).final.checkTimer + TotalElapsed(s.previousTimestamp, nows) == s.checkTimer
    decreases nows
  {
    if nows != [] {
      var t := UpdateTimers(s, nows[0], maxDelay);
      assert Run(s, nows, maxDelay).actions == [t.action] + Run(t.next, nows[1..], maxDelay).actions;
      CountdownIsExact(t.next, nows[1..], maxDelay);
    }
  }

  /**
   * While a challenge is outstanding, a limit is configured and no kick has
   * happened, the response timer accumulates the elapsed time (modulo 2^32).
   */
  lemma {:induction false} ResponseTimerAccumulates(s: TimerState, nows: seq<uint32>, maxDelay: uint32)
    requires s.initialized && s.dataSent && maxDelay > 0
    requires KickForDelay !in Run(s, nows, maxDelay).actions
    ensures Run(s, nows, maxDelay).final.clientResponseTimer
         == Wrap32(s.clientResponseTimer + TotalElapsed(s.previousTimestamp, nows))
    decreases nows
  {
    if nows != [] {
      var t := UpdateTimers(s, nows[0], maxDelay);
      var d := Elapsed(s.previousTimestamp, nows[0]);
      assert Run(s, nows, maxDelay).actions == [t.action] + Run(t.next, nows[1..], maxDelay).actions;
      ResponseTimerAccumulates(t.next, nows[1..], maxDelay);
      WrapAdd(s.clientResponseTimer + d, TotalElapsed(nows[0], nows[1..]));
    }
  }

  lemma WrapAdd(x: nat, y: nat)
    ensures Wrap32(Wrap32(x) + y) == Wrap32(x + y)
  {
  }
}
