/** Progress of the tunnel and master operations: the order in which they take the
    per-host lease and the tunnel lock (crates/agentum-server/src/host_runtime.rs). */
module LockOrder {

  type Host = nat

  datatype Lock = Lease(host: Host) | Tunnel

  datatype Op = Take(l: Lock) | Give(l: Lock)

  datatype Operation =
    | RetireLegacy(host: Host)
    | Warm(host: Host)
    | EnsureReverse(host: Host)
    | EnsureForward(host: Host)
    | Forget(host: Host)
    | Discard(host: Host)
    | Invalidate(host: Host)
    | Evict(host: Host)
    | Repair(host: Host)

  function Briefly(l: Lock): seq<Op> {
    [Take(l), Give(l)]
  }

  function Under(l: Lock, inner: seq<Op>): seq<Op> {
    [Take(l)] + inner + [Give(l)]
  }

  function WarmProgram(h: Host): seq<Op> {
    Under(Lease(h), Briefly(Tunnel) + Briefly(Tunnel)) + Under(Lease(h), Briefly(Tunnel))
  }

  /** The locks an operation takes and gives back, in order, on its longest path. Early
      returns are the step `Leave` below. */
  function Program(op: Operation): seq<Op> {
    match op
    case RetireLegacy(h) => Under(Lease(h), Briefly(Tunnel) + Briefly(Tunnel))
    case Warm(h) => WarmProgram(h)
    case EnsureReverse(h) => WarmProgram(h) + Under(Lease(h), Briefly(Tunnel))
    case EnsureForward(h) => WarmProgram(h) + Briefly(Tunnel)
    case Forget(h) => Under(Lease(h), Briefly(Tunnel))
    case Discard(h) => Under(Lease(h), Briefly(Tunnel))
    case Invalidate(h) => Briefly(Lease(h))
    case Evict(h) => Briefly(Lease(h))
    case Repair(h) => Briefly(Lease(h))
  }

  /** A task's held locks and what it has still to do. */
  datatype Task = Task(held: set<Lock>, rest: seq<Op>)

  type State = map<nat, Task>

  /** A lock is only taken above every lock already held: a lease with nothing held, the
      tunnel lock with at most leases held. At the end nothing is held. */
  predicate Ordered(held: set<Lock>, rest: seq<Op>)
    decreases |rest|
  {
    if rest == [] then held == {}
    else
      match rest[0]
      case Take(l) => (if l.Lease? then held == {} else Tunnel !in held) && Ordered(held + {l}, rest[1..])
      case Give(l) => l in held && Ordered(held - {l}, rest[1..])
  }

  predicate Free(s: State, l: Lock) {
    forall t :: t in s ==> l !in s[t].held
  }

  predicate Enabled(s: State, t: nat) {
    t in s && s[t].rest != [] && (s[t].rest[0].Take? ==> Free(s, s[t].rest[0].l))
  }

  function Advance(s: State, t: nat): State
    requires Enabled(s, t)
  {
    var op := s[t].rest[0];
    s[t := Task(if op.Take? then s[t].held + {op.l} else s[t].held - {op.l}, s[t].rest[1..])]
  }

  /** An early return or a cancelled future: all guards drop. */
  function Leave(s: State, t: nat): State
    requires t in s
  {
    s[t := Task({}, [])]
  }

  function Start(s: State, t: nat, op: Operation): State
    requires t !in s
  {
    s[t := Task({}, Program(op))]
  }

  /** Every way the operations, any number of them at any hosts, may interleave. */
  ghost predicate Step(s: State, s': State) {
    || (exists t, op :: t !in s && s' == Start(s, t, op))
    || (exists t :: Enabled(s, t) && s' == Advance(s, t))
    || (exists t :: t in s && s' == Leave(s, t))
  }

  ghost predicate Run(states: seq<State>) {
    && states != [] && states[0] == map[]
    && forall i :: 0 < i < |states| ==> Step(states[i - 1], states[i])
  }

  ghost predicate Inv(s: State) {
    && (forall t :: t in s ==> Ordered(s[t].held, s[t].rest))
    && (forall t, u, l :: t in s && u in s && l in s[t].held && l in s[u].held ==> t == u)
  }

  // ---------- the operations keep the order ----------

  lemma {:induction false} OrderedThen(held: set<Lock>, first: seq<Op>, second: seq<Op>)
    requires Ordered(held, first) && Ordered({}, second)
    ensures Ordered(held, first + second)
    decreases |first|
  {
    if first == [] {
      assert first + second == second;
    } else {
      assert (first + second)[1..] == first[1..] + second;
      match first[0]
      case Take(l) => OrderedThen(held + {l}, first[1..], second);
      case Give(l) => OrderedThen(held - {l}, first[1..], second);
    }
  }

  lemma BrieflyOrdered(l: Lock)
    ensures Ordered({}, Briefly(l))
  {
    assert {l} - {l} == {};
    assert Briefly(l)[1..] == [Give(l)];
    assert {} + {l} == {l};
    assert Ordered({l}, [Give(l)]);
  }

  /** What runs alone and takes no lease may run under one. */
  lemma {:induction false} UnderOrdered(h: Host, held: set<Lock>, inner: seq<Op>)
    requires Ordered(held, inner) && Lease(h) !in held
    requires forall op :: op in inner ==> op.l == Tunnel
    ensures Ordered(held + {Lease(h)}, inner + [Give(Lease(h))])
    decreases |inner|
  {
    if inner == [] {
      assert held + {Lease(h)} - {Lease(h)} == {};
      assert (inner + [Give(Lease(h))])[1..] == [];
    } else {
      assert inner[0] in inner;
      assert (inner + [Give(Lease(h))])[1..] == inner[1..] + [Give(Lease(h))];
      if inner[0].Take? {
        UnderOrdered(h, held + {Tunnel}, inner[1..]);
        assert held + {Lease(h)} + {Tunnel} == held + {Tunnel} + {Lease(h)};
      } else {
        UnderOrdered(h, held - {Tunnel}, inner[1..]);
        assert held + {Lease(h)} - {Tunnel} == held - {Tunnel} + {Lease(h)};
      }
    }
  }

  lemma LeasedOrdered(h: Host, inner: seq<Op>)
    requires Ordered({}, inner) && forall op :: op in inner ==> op.l == Tunnel
    ensures Ordered({}, Under(Lease(h), inner))
  {
    UnderOrdered(h, {}, inner);
    assert Under(Lease(h), inner)[1..] == inner + [Give(Lease(h))];
    assert {} + {Lease(h)} == {Lease(h)};
  }

  /** Every operation takes its lease before the tunnel lock, re-takes neither while it
      holds it, and gives both back. */
  lemma ProgramOrdered(op: Operation)
    ensures Ordered({}, Program(op))
  {
    var h := op.host;
    BrieflyOrdered(Tunnel);
    BrieflyOrdered(Lease(h));
    OrderedThen({}, Briefly(Tunnel), Briefly(Tunnel));
    LeasedOrdered(h, Briefly(Tunnel));
    LeasedOrdered(h, Briefly(Tunnel) + Briefly(Tunnel));
    OrderedThen({}, Program(RetireLegacy(h)), Under(Lease(h), Briefly(Tunnel)));
    OrderedThen({}, WarmProgram(h), Under(Lease(h), Briefly(Tunnel)));
    OrderedThen({}, WarmProgram(h), Briefly(Tunnel));
  }

  // ---------- progress ----------

  lemma StartKeepsInv(s: State, t: nat, op: Operation)
    requires Inv(s) && t !in s
    ensures Inv(Start(s, t, op))
  {
    ProgramOrdered(op);
  }

  lemma AdvanceKeepsInv(s: State, t: nat)
    requires Inv(s) && Enabled(s, t)
    ensures Inv(Advance(s, t))
  {
    assert Ordered(s[t].held, s[t].rest);
  }

  lemma LeaveKeepsInv(s: State, t: nat)
    requires Inv(s) && t in s
    ensures Inv(Leave(s, t))
  {
  }

  lemma StepKeepsInv(s: State, s': State)
    requires Inv(s) && Step(s, s')
    ensures Inv(s')
  {
    if t, op :| t !in s && s' == Start(s, t, op) {
      StartKeepsInv(s, t, op);
    } else if t :| Enabled(s, t) && s' == Advance(s, t) {
      AdvanceKeepsInv(s, t);
    } else {
      var t :| t in s && s' == Leave(s, t);
      LeaveKeepsInv(s, t);
    }
  }

  lemma {:induction false} RunKeepsInv(states: seq<State>)
    requires Run(states)
    ensures Inv(states[|states| - 1])
  {
    var last := |states| - 1;
    if last > 0 {
      RunKeepsInv(states[..last]);
      StepKeepsInv(states[last - 1], states[last]);
    }
  }

  /** Who holds the tunnel lock can always go on. */
  lemma TunnelHolderMoves(s: State, t: nat)
    requires Inv(s) && t in s && Tunnel in s[t].held
    ensures Enabled(s, t)
  {
    assert Ordered(s[t].held, s[t].rest);
  }

  /** Who holds a lease can go on, or waits for somebody who can. */
  lemma HolderMoves(s: State, t: nat) returns (u: nat)
    requires Inv(s) && t in s && s[t].held != {}
    ensures Enabled(s, u)
  {
    u := t;
    if !Enabled(s, t) {
      assert Ordered(s[t].held, s[t].rest);
      assert s[t].rest[0] == Take(Tunnel);
      u :| u in s && Tunnel in s[u].held;
      TunnelHolderMoves(s, u);
    }
  }

  /** While some task is unfinished, some task can take its next step. */
  lemma SomeoneMoves(s: State, t: nat) returns (u: nat)
    requires Inv(s) && t in s && s[t] != Task({}, [])
    ensures Enabled(s, u)
  {
    assert Ordered(s[t].held, s[t].rest);
    u := t;
    if !Enabled(s, t) {
      var v :| v in s && s[t].rest[0].l in s[v].held;
      u := HolderMoves(s, v);
    }
  }

  /** No reachable state is deadlocked: while some operation is unfinished, some operation
      can take its next step. */
  lemma NoDeadlock(states: seq<State>, t: nat) returns (u: nat)
    requires Run(states)
    requires t in states[|states| - 1] && states[|states| - 1][t].rest != []
    ensures Enabled(states[|states| - 1], u)
  {
    RunKeepsInv(states);
    u := SomeoneMoves(states[|states| - 1], t);
  }

  /** What is left to do, over all tasks. */
  ghost function Remaining(s: State): nat
    decreases |s|
  {
    if s == map[] then 0
    else
      var t :| t in s;
      |s[t].rest| + Remaining(s - {t})
  }

  lemma {:induction false} RemainingWithout(s: State, t: nat)
    requires t in s
    ensures Remaining(s) == |s[t].rest| + Remaining(s - {t})
    decreases |s|
  {
    var u :| u in s && Remaining(s) == |s[u].rest| + Remaining(s - {u});
    if u != t {
      RemainingWithout(s - {u}, t);
      RemainingWithout(s - {t}, u);
      assert s - {u} - {t} == s - {t} - {u};
    }
  }

  /** Each step of an operation uses up one of the finitely many left. */
  lemma AdvanceUsesUp(s: State, t: nat)
    requires Enabled(s, t)
    ensures Remaining(Advance(s, t)) == Remaining(s) - 1
  {
    RemainingWithout(s, t);
    RemainingWithout(Advance(s, t), t);
    assert s - {t} == Advance(s, t) - {t};
  }

  /** The tasks named by `schedule` take one step each, in that order, from `s` to `end`. */
  ghost predicate Scheduled(s: State, schedule: seq<nat>, end: State)
    decreases |schedule|
  {
    if schedule == [] then end == s
    else Enabled(s, schedule[0]) && Scheduled(Advance(s, schedule[0]), schedule[1..], end)
  }

  predicate AllFinished(s: State) {
    forall t :: t in s ==> s[t] == Task({}, [])
  }

  /** Whoever is scheduled, and in whatever order: the steps taken and the steps left are
      constant in sum, and no step can be taken only when every task is finished. */
  lemma {:induction false} ScheduleUsesUp(s: State, schedule: seq<nat>, end: State)
    requires Inv(s) && Scheduled(s, schedule, end)
    ensures Inv(end) && end.Keys == s.Keys
    ensures |schedule| + Remaining(end) == Remaining(s)
    ensures AllFinished(end) <==> forall t :: t in end ==> !Enabled(end, t)
    decreases |schedule|
  {
    if schedule == [] {
      if t :| t in end && end[t] != Task({}, []) {
        var u := SomeoneMoves(end, t);
      }
    } else {
      var after := Advance(s, schedule[0]);
      AdvanceUsesUp(s, schedule[0]);
      assert Step(s, after);
      StepKeepsInv(s, after);
      ScheduleUsesUp(after, schedule[1..], end);
    }
  }

  /** From every reachable state the tasks can all be brought to their end, every lock given
      back, by nothing but their own steps. */
  lemma AllCanFinish(states: seq<State>) returns (schedule: seq<nat>, end: State)
    requires Run(states)
    ensures Scheduled(states[|states| - 1], schedule, end) && AllFinished(end)
    ensures end.Keys == states[|states| - 1].Keys
  {
    RunKeepsInv(states);
    schedule, end := Finish(states[|states| - 1]);
    ScheduleUsesUp(states[|states| - 1], schedule, end);
  }

  lemma {:induction false} Finish(s: State) returns (schedule: seq<nat>, end: State)
    requires Inv(s)
    ensures Scheduled(s, schedule, end) && AllFinished(end)
    decreases Remaining(s)
  {
    if t :| t in s && s[t] != Task({}, []) {
      var u := SomeoneMoves(s, t);
      AdvanceUsesUp(s, u);
      assert Step(s, Advance(s, u));
      StepKeepsInv(s, Advance(s, u));
      schedule, end := Finish(Advance(s, u));
      schedule := [u] + schedule;
    } else {
      schedule, end := [], s;
    }
  }
}
