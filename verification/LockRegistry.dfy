/** The registry of per-host master locks, held by weak references only
    (crates/agentum-server/src/host_runtime.rs). */
module LockRegistry {

  type Host = nat

  /** The identity of a mutex; a new one is never an old one. */
  type LockId = nat

  /** A task's strong reference: while it waits, and inside its guard once it holds. */
  datatype Ref = Ref(host: Host, lockId: LockId, holds: bool)

  datatype State = State(registry: map<Host, LockId>, refs: map<nat, Ref>, next: LockId)

  datatype Action = Get(t: nat, host: Host) | Grant(t: nat) | End(t: nat)

  const START := State(map[], map[], 0)

  /** `strong_count() > 0`. */
  predicate Strong(refs: map<nat, Ref>, lockId: LockId) {
    exists t :: t in refs && refs[t].lockId == lockId
  }

  /** `retain` of the entries that can still be upgraded. */
  function Retained(s: State): map<Host, LockId> {
    map h | h in s.registry && Strong(s.refs, s.registry[h]) :: s.registry[h]
  }

  predicate Enabled(s: State, act: Action) {
    match act
    case Get(t, _) => t !in s.refs
    case Grant(t) => t in s.refs && forall u :: u in s.refs && s.refs[u].lockId == s.refs[t].lockId ==> !s.refs[u].holds
    case End(t) => t in s.refs
  }

  function Do(s: State, act: Action): State
    requires Enabled(s, act)
  {
    match act
    case Get(t, host) =>
      var kept := Retained(s);
      if host in kept then State(kept, s.refs[t := Ref(host, kept[host], false)], s.next)
      else State(kept[host := s.next], s.refs[t := Ref(host, s.next, false)], s.next + 1)
    case Grant(t) => s.(refs := s.refs[t := s.refs[t].(holds := true)])
    case End(t) => s.(refs := s.refs - {t})
  }

  ghost predicate Run(s: State, acts: seq<Action>, t: State)
    decreases |acts|
  {
    if acts == [] then s == t
    else Enabled(s, acts[0]) && Run(Do(s, acts[0]), acts[1..], t)
  }

  predicate BothHold(r: Ref, q: Ref) {
    r.holds && q.holds && r.lockId == q.lockId
  }

  /** Whatever anybody waits for or holds is what the registry would hand out now. */
  ghost predicate Inv(s: State) {
    && (forall t :: t in s.refs ==> s.refs[t].host in s.registry && s.registry[s.refs[t].host] == s.refs[t].lockId)
    && (forall h :: h in s.registry ==> s.registry[h] < s.next)
    && (forall h, i :: h in s.registry && i in s.registry && s.registry[h] == s.registry[i] ==> h == i)
    && (forall t, u :: t in s.refs && u in s.refs && BothHold(s.refs[t], s.refs[u]) ==> t == u)
  }

  /** Dropping dead entries loses nobody's lock. */
  lemma RetainKeepsInv(s: State)
    requires Inv(s)
    ensures Inv(s.(registry := Retained(s)))
  {
    var kept := Retained(s);
    forall t | t in s.refs ensures s.refs[t].host in kept {
      assert Strong(s.refs, s.refs[t].lockId);
    }
  }

  lemma JoinKeepsInv(s: State, t: nat, host: Host)
    requires Inv(s) && t !in s.refs && host in s.registry
    ensures Inv(s.(refs := s.refs[t := Ref(host, s.registry[host], false)]))
  {
  }

  lemma NewLockKeepsInv(s: State, host: Host)
    requires Inv(s) && host !in s.registry
    ensures Inv(s.(registry := s.registry[host := s.next], next := s.next + 1))
  {
  }

  lemma StepKeepsInv(s: State, act: Action)
    requires Inv(s) && Enabled(s, act)
    ensures Inv(Do(s, act))
  {
    match act
    case Get(t, host) =>
      RetainKeepsInv(s);
      var kept := s.(registry := Retained(s));
      if host in kept.registry {
        JoinKeepsInv(kept, t, host);
      } else {
        NewLockKeepsInv(kept, host);
        JoinKeepsInv(kept.(registry := kept.registry[host := s.next], next := s.next + 1), t, host);
      }
    case Grant(_) =>
    case End(_) =>
  }

  lemma {:induction false} RunKeepsInv(s: State, acts: seq<Action>, t: State)
    requires Inv(s) && Run(s, acts, t)
    ensures Inv(t)
    decreases |acts|
  {
    if acts != [] {
      StepKeepsInv(s, acts[0]);
      RunKeepsInv(Do(s, acts[0]), acts[1..], t);
    }
  }

  /** In every run, two tasks have the same lock exactly when they are at the same host, and
      then at most one of them holds it. */
  lemma OneLockPerHost(acts: seq<Action>, s: State, t: nat, u: nat)
    requires Run(START, acts, s) && t in s.refs && u in s.refs
    ensures s.refs[t].host in s.registry && s.registry[s.refs[t].host] == s.refs[t].lockId
    ensures s.refs[t].lockId == s.refs[u].lockId <==> s.refs[t].host == s.refs[u].host
    ensures s.refs[t].host == s.refs[u].host && s.refs[t].holds && s.refs[u].holds ==> t == u
  {
    RunKeepsInv(START, acts, s);
  }

  /** Right after a call the registry has the hosts somebody waits at or holds, no others. */
  lemma OnlyLiveEntries(acts: seq<Action>, s: State, t: nat, host: Host)
    requires Run(START, acts, s) && Enabled(s, Get(t, host))
    ensures var after := Do(s, Get(t, host));
      forall h :: h in after.registry <==> exists u :: u in after.refs && after.refs[u].host == h
  {
    RunKeepsInv(START, acts, s);
    RetainedHosts(s);
    var after := Do(s, Get(t, host));
    assert after.refs[t].host == host;
    forall h | h != host ensures h in after.registry <==> exists u :: u in after.refs && after.refs[u].host == h {
      assert h in after.registry <==> h in Retained(s);
      assert forall u :: u in s.refs ==> u in after.refs && after.refs[u] == s.refs[u];
    }
  }

  lemma RetainedHosts(s: State)
    requires Inv(s)
    ensures forall h :: h in Retained(s) <==> exists u :: u in s.refs && s.refs[u].host == h
  {
    forall u | u in s.refs ensures s.refs[u].host in Retained(s) {
      assert Strong(s.refs, s.refs[u].lockId);
    }
    forall h | h in Retained(s) ensures exists u :: u in s.refs && s.refs[u].host == h {
      var u :| u in s.refs && s.refs[u].lockId == s.registry[h];
      assert s.refs[u].host == h;
    }
  }

  /** A task that finds nobody at its host is not held up by tasks at other hosts. */
  lemma FreeHostIsGranted(acts: seq<Action>, s: State, t: nat)
    requires Run(START, acts, s) && t in s.refs
    requires forall u :: u in s.refs && s.refs[u].holds ==> s.refs[u].host != s.refs[t].host
    ensures Enabled(s, Grant(t))
  {
    RunKeepsInv(START, acts, s);
  }

  /** The registry behind its own short-lived lock, changed in place. */
  class WarmLocks {
    var locks: map<Host, LockId>
    var refs: map<nat, Ref>
    var next: LockId

    ghost function Snapshot(): State
      reads this
    {
      State(locks, refs, next)
    }

    constructor ()
      ensures Snapshot() == START
    {
      locks, refs, next := map[], map[], 0;
    }

    /** `ssh_master_warm_lock`, called by task `t`. */
    method WarmLock(t: nat, host: Host) returns (lockId: LockId)
      requires Inv(Snapshot()) && t !in refs
      modifies this
      ensures Snapshot() == Do(old(Snapshot()), Get(t, host)) && Inv(Snapshot())
      ensures refs[t] == Ref(host, lockId, false) && locks[host] == lockId
      ensures forall u :: u in refs && refs[u].host == host ==> refs[u].lockId == lockId
    {
      StepKeepsInv(Snapshot(), Get(t, host));
      locks := map h | h in locks && Strong(refs, locks[h]) :: locks[h];
      assert locks == Retained(old(Snapshot()));
      if host in locks {
        lockId := locks[host];
      } else {
        lockId := next;
        next := next + 1;
        locks := locks[host := lockId];
      }
      refs := refs[t := Ref(host, lockId, false)];
    }
  }
}
