/** Waiting for an agent to finish its turn: a timed loop over a lossy event bus
    (`wait_for_settle` in crates/agentum-server/src/harness.rs). */
module SettleWait {
  import opened Basics

  /** `agent.awaiting_input` or `agent.finished`; `session.crashed` or `session.stopped`; the rest. */
  datatype Kind = Settled | Gone | Unrelated

  datatype Wake = Expired | Received(own: bool, kind: Kind) | Lagged | Closed

  /** One turn of the loop: the clock as read before the grace test, the timeout
      subtraction and the grace subtraction, then what woke it and when. */
  datatype Round = Round(t0: nat, t1: nat, t2: nat, wake: Wake, t3: nat)

  datatype Cause = GraceOver | TimedOut | SettledLate | SessionGone | BusClosed

  datatype Return = Return(round: nat, at: nat, cause: Cause)

  datatype Verdict = Go(settled: bool) | Stop(at: nat, cause: Cause)

  function Min(a: nat, b: nat): nat { if a < b then a else b }

  /** The wait handed to the timer. */
  function Wait(r: Round, settled: bool, grace: nat, timeout: nat): nat
    requires r.t1 <= timeout
  {
    var remaining := timeout - r.t1;
    if settled then Min(if grace < r.t2 then 0 else grace - r.t2, remaining) else remaining
  }

  /** The tests made before waiting. */
  function Top(r: Round, settled: bool, grace: nat, timeout: nat): Verdict {
    if settled && r.t0 >= grace then Stop(r.t0, GraceOver)
    else if r.t1 > timeout then Stop(r.t1, TimedOut)
    else Go(settled)
  }

  /** The tests made on waking. */
  function Bottom(r: Round, settled: bool, grace: nat, timeout: nat): Verdict {
    match r.wake
    case Expired => if r.t3 >= timeout then Stop(r.t3, TimedOut) else Go(settled)
    case Received(own, kind) =>
      if !own then Go(settled)
      else (
        match kind
        case Settled => if r.t3 >= grace then Stop(r.t3, SettledLate) else Go(true)
        case Gone => Stop(r.t3, SessionGone)
        case Unrelated => Go(settled))
    case Lagged => Go(settled)
    case Closed => Stop(r.t3, BusClosed)
  }

  function Turn(r: Round, settled: bool, grace: nat, timeout: nat): Verdict {
    var top := Top(r, settled, grace, timeout);
    if top.Stop? then top else Bottom(r, settled, grace, timeout)
  }

  /** Whether a settle was seen by the time round `n` begins, if the loop gets there. */
  function StateAt(rounds: seq<Round>, n: nat, grace: nat, timeout: nat): Option<bool>
    requires n <= |rounds|
  {
    if n == 0 then Some(false)
    else
      match StateAt(rounds, n - 1, grace, timeout)
      case None => None
      case Some(settled) =>
        match Turn(rounds[n - 1], settled, grace, timeout)
        case Go(s) => Some(s)
        case Stop(_, _) => None
  }

  /** The clock never goes back. */
  ghost predicate Monotone(rounds: seq<Round>) {
    && (forall k {:trigger rounds[k].t0} :: 0 <= k < |rounds| ==>
          rounds[k].t0 <= rounds[k].t1 <= rounds[k].t2 <= rounds[k].t3)
    && (forall j, k :: 0 <= j < k < |rounds| ==> rounds[j].t3 <= rounds[k].t0)
  }

  /** A timer never fires before its wait is over. */
  ghost predicate TimersHold(rounds: seq<Round>, grace: nat, timeout: nat) {
    forall k :: 0 <= k < |rounds| && rounds[k].wake.Expired? && rounds[k].t1 <= timeout ==>
      forall settled :: StateAt(rounds, k, grace, timeout) == Some(settled) ==>
        rounds[k].t3 >= rounds[k].t2 + Wait(rounds[k], settled, grace, timeout)
  }

  predicate Returns(rounds: seq<Round>, grace: nat, timeout: nat, r: Return) {
    && r.round < |rounds|
    && StateAt(rounds, r.round, grace, timeout).Some?
    && Turn(rounds[r.round], StateAt(rounds, r.round, grace, timeout).value, grace, timeout) == Stop(r.at, r.cause)
  }

  // ---------- when the wait ends, by clocks and events alone ----------

  /** A settle of the own session was seen inside grace before round `n`. */
  ghost predicate SettledBefore(rounds: seq<Round>, n: nat, grace: nat)
    requires n <= |rounds|
  {
    exists j :: 0 <= j < n && rounds[j].wake == Received(true, Settled) && rounds[j].t3 < grace
  }

  /** What the loop remembers while it goes on is just that. */
  lemma {:induction false} StateIsSettled(rounds: seq<Round>, n: nat, grace: nat, timeout: nat)
    requires n <= |rounds| && StateAt(rounds, n, grace, timeout).Some?
    ensures StateAt(rounds, n, grace, timeout).value <==> SettledBefore(rounds, n, grace)
  {
    if n > 0 {
      StateIsSettled(rounds, n - 1, grace, timeout);
      assert SettledBefore(rounds, n, grace) <==> (
          || SettledBefore(rounds, n - 1, grace)
          || (rounds[n - 1].wake == Received(true, Settled) && rounds[n - 1].t3 < grace));
    }
  }

  /** Round `k`, if it is reached, is the last: a settle seen inside grace is due, the timeout
      is over, a timer fires at it, the session settles past grace or is gone, or the bus is
      closed. */
  ghost predicate Last(rounds: seq<Round>, k: nat, grace: nat, timeout: nat)
    requires k < |rounds|
  {
    var r := rounds[k];
    || (SettledBefore(rounds, k, grace) && r.t0 >= grace)
    || r.t1 > timeout
    || (r.wake == Expired && r.t3 >= timeout)
    || (r.wake == Received(true, Settled) && r.t3 >= grace)
    || r.wake == Received(true, Gone)
    || r.wake == Closed
  }

  ghost predicate NoneLast(rounds: seq<Round>, n: nat, grace: nat, timeout: nat)
    requires n <= |rounds|
  {
    forall k :: 0 <= k < n ==> !Last(rounds, k, grace, timeout)
  }

  /** The wait is on before round `n` exactly when no round before it was the last. */
  lemma {:induction false} WaitsIff(rounds: seq<Round>, n: nat, grace: nat, timeout: nat)
    requires n <= |rounds|
    ensures StateAt(rounds, n, grace, timeout).Some? <==> NoneLast(rounds, n, grace, timeout)
  {
    if n > 0 {
      WaitsIff(rounds, n - 1, grace, timeout);
      assert NoneLast(rounds, n, grace, timeout) <==>
        NoneLast(rounds, n - 1, grace, timeout) && !Last(rounds, n - 1, grace, timeout);
      if StateAt(rounds, n - 1, grace, timeout).Some? {
        TurnIsLast(rounds, n - 1, grace, timeout);
      }
    }
  }

  lemma TurnIsLast(rounds: seq<Round>, k: nat, grace: nat, timeout: nat)
    requires k < |rounds| && StateAt(rounds, k, grace, timeout).Some?
    ensures Turn(rounds[k], StateAt(rounds, k, grace, timeout).value, grace, timeout).Stop?
      <==> Last(rounds, k, grace, timeout)
  {
    StateIsSettled(rounds, k, grace, timeout);
  }

  /** When and why a last round returns: for a settle that is due and for a timeout found
      over, as soon as the clock says so; else on waking. */
  ghost predicate EndsAt(rounds: seq<Round>, k: nat, grace: nat, timeout: nat, at: nat, cause: Cause)
    requires k < |rounds|
  {
    var r := rounds[k];
    if SettledBefore(rounds, k, grace) && r.t0 >= grace then at == r.t0 && cause == GraceOver
    else if r.t1 > timeout then at == r.t1 && cause == TimedOut
    else
      && at == r.t3
      && (r.wake == Expired ==> cause == TimedOut)
      && (r.wake == Received(true, Settled) ==> cause == SettledLate)
      && (r.wake == Received(true, Gone) ==> cause == SessionGone)
      && (r.wake == Closed ==> cause == BusClosed)
  }

  /** `r` is the first last round, its time and its cause. */
  ghost predicate FirstLast(rounds: seq<Round>, grace: nat, timeout: nat, r: Return) {
    && r.round < |rounds|
    && NoneLast(rounds, r.round, grace, timeout)
    && Last(rounds, r.round, grace, timeout)
    && EndsAt(rounds, r.round, grace, timeout, r.at, r.cause)
  }

  lemma ReturnsIff(rounds: seq<Round>, grace: nat, timeout: nat, r: Return)
    ensures Returns(rounds, grace, timeout, r) <==> FirstLast(rounds, grace, timeout, r)
  {
    if r.round < |rounds| {
      WaitsIff(rounds, r.round, grace, timeout);
      if StateAt(rounds, r.round, grace, timeout).Some? {
        StateIsSettled(rounds, r.round, grace, timeout);
      }
    }
  }

  /** The timer is set to the earliest deadline: the timeout, or the end of grace once a
      settle was seen inside it. */
  lemma WaitIsToDeadline(r: Round, settled: bool, grace: nat, timeout: nat)
    requires r.t1 <= timeout
    ensures r.t1 + Wait(r, settled, grace, timeout) <= timeout
    ensures settled ==> Wait(r, settled, grace, timeout) == 0 || r.t2 + Wait(r, settled, grace, timeout) <= grace
    ensures r.t1 + Wait(r, settled, grace, timeout) == timeout
      || (settled && (r.t2 >= grace || r.t2 + Wait(r, settled, grace, timeout) == grace))
  {
  }

  /** The loop, over whatever the clock and the bus do; `None` while it is still waiting. */
  method WaitForSettle(rounds: seq<Round>, grace: nat, timeout: nat) returns (r: Option<Return>)
    ensures r.None? ==> NoneLast(rounds, |rounds|, grace, timeout)
    ensures r.Some? ==> FirstLast(rounds, grace, timeout, r.value)
    ensures r.None? ==> StateAt(rounds, |rounds|, grace, timeout).Some?
    ensures r.Some? ==> Returns(rounds, grace, timeout, r.value)
  {
    WaitsIff(rounds, |rounds|, grace, timeout);
    forall s: Return ensures Returns(rounds, grace, timeout, s) <==> FirstLast(rounds, grace, timeout, s) {
      ReturnsIff(rounds, grace, timeout, s);
    }
    var settledEarly := false;
    for n := 0 to |rounds|
      invariant StateAt(rounds, n, grace, timeout) == Some(settledEarly)
    {
      var now := rounds[n];
      if settledEarly && now.t0 >= grace {
        return Some(Return(n, now.t0, GraceOver));
      }
      if now.t1 > timeout {
        return Some(Return(n, now.t1, TimedOut));
      }
      match now.wake {
        case Expired =>
          if now.t3 >= timeout {
            return Some(Return(n, now.t3, TimedOut));
          }
        case Received(own, kind) =>
          if own {
            match kind {
              case Settled =>
                if now.t3 >= grace {
                  return Some(Return(n, now.t3, SettledLate));
                }
                settledEarly := true;
              case Gone => return Some(Return(n, now.t3, SessionGone));
              case Unrelated =>
            }
          }
        case Lagged =>
        case Closed => return Some(Return(n, now.t3, BusClosed));
      }
    }
    r := None;
  }

  // ---------- facts about the state ----------

  lemma {:induction false} Reached(rounds: seq<Round>, m: nat, n: nat, grace: nat, timeout: nat)
    requires m <= n <= |rounds| && StateAt(rounds, n, grace, timeout).Some?
    ensures StateAt(rounds, m, grace, timeout).Some?
    ensures StateAt(rounds, m, grace, timeout).value ==> StateAt(rounds, n, grace, timeout).value
  {
    if m < n {
      Reached(rounds, m, n - 1, grace, timeout);
    }
  }

  lemma Ended(rounds: seq<Round>, m: nat, grace: nat, timeout: nat)
    requires m <= |rounds| && StateAt(rounds, m, grace, timeout).None?
    ensures forall n: nat :: m <= n <= |rounds| ==> StateAt(rounds, n, grace, timeout).None?
  {
    forall n: nat | m <= n <= |rounds| ensures StateAt(rounds, n, grace, timeout).None? {
      if StateAt(rounds, n, grace, timeout).Some? {
        Reached(rounds, m, n, grace, timeout);
      }
    }
  }

  /** The loop returns at most once. */
  lemma OneReturn(rounds: seq<Round>, grace: nat, timeout: nat, r: Return, s: Return)
    requires Returns(rounds, grace, timeout, r) && Returns(rounds, grace, timeout, s)
    ensures r == s
  {
    if r.round < s.round {
      Reached(rounds, r.round + 1, s.round, grace, timeout);
    } else if s.round < r.round {
      Reached(rounds, s.round + 1, r.round, grace, timeout);
    }
  }

  // ---------- the promises ----------

  /** Before both bounds only the session's own end or a closed bus lets the loop return. */
  lemma EarlyReturn(rounds: seq<Round>, grace: nat, timeout: nat, r: Return)
    requires Returns(rounds, grace, timeout, r)
    requires r.at < Min(grace, timeout)
    ensures rounds[r.round].wake in {Received(true, Gone), Closed}
  {
  }

  /** Events of other sessions count for no more than lost ones. */
  function Muffle(r: Round): Round {
    if r.wake.Received? && !r.wake.own then r.(wake := Lagged) else r
  }

  lemma {:induction false} ForeignEventsAreNoise(rounds: seq<Round>, muffled: seq<Round>, n: nat, grace: nat, timeout: nat)
    requires |muffled| == |rounds|
    requires forall k :: 0 <= k < |rounds| ==> muffled[k] == Muffle(rounds[k])
    requires n <= |rounds|
    ensures StateAt(muffled, n, grace, timeout) == StateAt(rounds, n, grace, timeout)
    ensures forall r: Return :: r.round < n ==>
      (Returns(muffled, grace, timeout, r) <==> Returns(rounds, grace, timeout, r))
  {
    if n > 0 {
      ForeignEventsAreNoise(rounds, muffled, n - 1, grace, timeout);
    }
  }

  /** A settle inside grace is remembered: the wait is over by the round after the first
      wake-up at or past grace, before another event is looked at. */
  lemma EarlySettle(rounds: seq<Round>, grace: nat, timeout: nat, k: nat, m: nat)
    requires Monotone(rounds)
    requires k < m && m + 1 < |rounds|
    requires rounds[k].wake == Received(true, Settled) && rounds[k].t3 < grace
    requires rounds[m].t3 >= grace
    ensures StateAt(rounds, m + 2, grace, timeout) == None
    ensures forall r: Return :: Returns(rounds, grace, timeout, r) && r.round > m ==>
      r.round == m + 1 && r.cause == GraceOver
  {
    if StateAt(rounds, m + 1, grace, timeout).Some? {
      Reached(rounds, k, m + 1, grace, timeout);
      Reached(rounds, k + 1, m + 1, grace, timeout);
      assert StateAt(rounds, k + 1, grace, timeout) == Some(true);
      assert Top(rounds[m + 1], true, grace, timeout) == Stop(rounds[m + 1].t0, GraceOver);
    } else {
      Ended(rounds, m + 1, grace, timeout);
    }
    Ended(rounds, m + 2, grace, timeout);
  }

  /** A wake-up past the timeout ends the wait, and so does a timer at the timeout. */
  lemma TimeoutEnds(rounds: seq<Round>, grace: nat, timeout: nat, m: nat)
    requires Monotone(rounds)
    requires m + 1 < |rounds|
    requires rounds[m].t3 > timeout || (rounds[m].t3 == timeout && rounds[m].wake.Expired?)
    ensures StateAt(rounds, m + 2, grace, timeout) == None
  {
    assert rounds[m].t3 <= rounds[m + 1].t0 <= rounds[m + 1].t1;
  }

  /** A timer that fires means the loop is about to return. */
  lemma ExpiryEnds(rounds: seq<Round>, grace: nat, timeout: nat, m: nat)
    requires Monotone(rounds) && TimersHold(rounds, grace, timeout)
    requires m + 1 < |rounds| && rounds[m].wake.Expired?
    ensures StateAt(rounds, m + 2, grace, timeout) == None
  {
    var s := StateAt(rounds, m, grace, timeout);
    if s.Some? && rounds[m].t1 <= timeout {
      assert rounds[m].t3 >= rounds[m].t2 + Wait(rounds[m], s.value, grace, timeout);
      assert rounds[m].t3 <= rounds[m + 1].t0;
    }
  }

  // ---------- waking at the timeout ----------

  /** What ends a wait whose time is up: a timer, the session's end, a settle past grace, or
      the end of the bus. */
  predicate EndsWait(r: Round, grace: nat) {
    r.wake in {Expired, Received(true, Gone), Closed} || (r.wake == Received(true, Settled) && r.t3 >= grace)
  }

  /** A round that a wait survives although its time is up: the clock stands at the timeout,
      no settle is waiting for grace to end, and nothing arrives that ends the wait. */
  ghost predicate Survives(rounds: seq<Round>, k: nat, grace: nat, timeout: nat)
    requires k < |rounds|
  {
    && rounds[k].t1 == timeout
    && !(SettledBefore(rounds, k, grace) && rounds[k].t0 >= grace)
    && !EndsWait(rounds[k], grace)
  }

  /** After a wake-up at or past the timeout the wait is still on at round `n` exactly when it
      survived every round since: as soon as the clock has moved on, or anything ends it, it
      is over. */
  lemma {:induction false} PastTimeoutIff(rounds: seq<Round>, grace: nat, timeout: nat, m: nat, n: nat)
    requires Monotone(rounds) && m < n <= |rounds|
    requires StateAt(rounds, m + 1, grace, timeout).Some? && rounds[m].t3 >= timeout
    ensures StateAt(rounds, n, grace, timeout).Some?
      <==> forall k :: m < k < n ==> Survives(rounds, k, grace, timeout)
  {
    if n > m + 1 {
      var last := n - 1;
      PastTimeoutIff(rounds, grace, timeout, m, last);
      assert rounds[m].t3 <= rounds[last].t0 <= rounds[last].t1 <= rounds[last].t3;
      if StateAt(rounds, last, grace, timeout).Some? {
        StateIsSettled(rounds, last, grace, timeout);
        assert StateAt(rounds, n, grace, timeout).Some? <==> Survives(rounds, last, grace, timeout);
      }
    }
  }

  /** So the wait can outlast its timeout. */
  lemma OutlastsTimeout()
    ensures var rounds := [Round(0, 0, 0, Received(false, Unrelated), 10), Round(10, 10, 10, Received(false, Unrelated), 10)];
      Monotone(rounds) && StateAt(rounds, 2, 8, 10) == Some(false)
  {
    var rounds := [Round(0, 0, 0, Received(false, Unrelated), 10), Round(10, 10, 10, Received(false, Unrelated), 10)];
    assert StateAt(rounds, 1, 8, 10) == Some(false);
  }
}
