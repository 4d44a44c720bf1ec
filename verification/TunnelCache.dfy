/** The cache of armed reverse forwards against the forwarding tables of the SSH masters
    that come and go underneath it (crates/agentum-server/src/host_runtime.rs). */
module TunnelCache {
  import opened Basics

  type Host = nat

  /** A master process. A replacement at the same control path is another generation. */
  type Generation = nat

  /** A reverse forward: a listen port on the host and a destination port here. */
  datatype Forward = Forward(listen: nat, mac: nat)

  datatype Key = Key(host: Host, generation: Generation, forward: Forward)

  /** The real masters: which one each host has now, and what each was ever asked to forward. */
  datatype World = World(live: map<Host, Generation>, tables: map<Generation, set<Forward>>, next: Generation)

  /** An operation inside the lease of `host`: what it has probed, whether it holds the
      tunnel lock, and a forward armed but not yet remembered. */
  datatype Task = Task(host: Host, probed: Option<Generation>, locked: bool, armed: Option<Forward>)

  datatype State = State(world: World, cache: set<Key>, tasks: map<nat, Task>)

  datatype Action =
    | Spawn(host: Host)
    | Die(host: Host)
    | Lease(t: nat, host: Host)
    | Probe(t: nat)
    | Lock(t: nat)
    | Arm(t: nat, forward: Forward)
    | Remember(t: nat)
    | Drop(t: nat)
    | Release(t: nat)

  const START := State(World(map[], map[], 0), {}, map[])

  predicate SameForward(a: Key, b: Key) {
    a.host == b.host && a.forward == b.forward
  }

  function Remembered(cache: set<Key>, key: Key): set<Key> {
    (set k | k in cache && !SameForward(k, key)) + {key}
  }

  function WithoutHost(cache: set<Key>, host: Host): set<Key> {
    set k | k in cache && k.host != host
  }

  /** What the process wants forwarded for a host, on whatever master. */
  function Desired(cache: set<Key>, host: Host): set<Forward> {
    set k | k in cache && k.host == host :: k.forward
  }

  predicate PortFree(table: set<Forward>, forward: Forward) {
    forall f :: f in table && f.listen == forward.listen ==> f == forward
  }

  // ---------- masters ----------

  function Spawned(w: World, host: Host): World {
    World(w.live[host := w.next], w.tables[w.next := {}], w.next + 1)
  }

  function Died(w: World, host: Host): World {
    w.(live := w.live - {host})
  }

  /** `ssh -O forward` reaches whichever master the host has at that moment. */
  predicate CanArm(w: World, host: Host, forward: Forward) {
    host in w.live && w.live[host] in w.tables && PortFree(w.tables[w.live[host]], forward)
  }

  function ArmedOn(w: World, host: Host, forward: Forward): World
    requires CanArm(w, host, forward)
  {
    var g := w.live[host];
    w.(tables := w.tables[g := w.tables[g] + {forward}])
  }

  // ---------- steps ----------

  predicate Enabled(s: State, act: Action) {
    match act
    case Spawn(host) => host !in s.world.live
    case Die(host) => true
    case Lease(t, host) => t !in s.tasks && forall u :: u in s.tasks ==> s.tasks[u].host != host
    case Probe(t) => t in s.tasks && s.tasks[t].armed.None? && s.tasks[t].host in s.world.live
    case Lock(t) => t in s.tasks && forall u :: u in s.tasks ==> !s.tasks[u].locked
    case Arm(t, forward) =>
      && t in s.tasks && s.tasks[t].locked && s.tasks[t].probed.Some? && s.tasks[t].armed.None?
      && CanArm(s.world, s.tasks[t].host, forward)
    case Remember(t) => t in s.tasks && s.tasks[t].armed.Some? && s.tasks[t].probed.Some?
    case Drop(t) => t in s.tasks && s.tasks[t].locked && s.tasks[t].armed.None?
    case Release(t) => t in s.tasks
  }

  function Do(s: State, act: Action): State
    requires Enabled(s, act)
  {
    match act
    case Spawn(host) => s.(world := Spawned(s.world, host))
    case Die(host) => s.(world := Died(s.world, host))
    case Lease(t, host) => s.(tasks := s.tasks[t := Task(host, None, false, None)])
    case Probe(t) => s.(tasks := s.tasks[t := s.tasks[t].(probed := Some(s.world.live[s.tasks[t].host]))])
    case Lock(t) => s.(tasks := s.tasks[t := s.tasks[t].(locked := true)])
    case Arm(t, forward) =>
      s.(world := ArmedOn(s.world, s.tasks[t].host, forward),
         tasks := s.tasks[t := s.tasks[t].(armed := Some(forward))])
    case Remember(t) =>
      var task := s.tasks[t];
      s.(cache := Remembered(s.cache, Key(task.host, task.probed.value, task.armed.value)),
         tasks := s.tasks[t := task.(armed := None)])
    case Drop(t) => s.(cache := WithoutHost(s.cache, s.tasks[t].host))
    case Release(t) => s.(tasks := s.tasks - {t})
  }

  // ---------- the invariant ----------

  /** Generations are never reused, and one listen port is bound at most once on a master. */
  ghost predicate WorldInv(w: World) {
    && (forall g: Generation :: g in w.tables <==> g < w.next)
    && (forall h :: h in w.live ==> w.live[h] < w.next)
    && (forall h, i :: h in w.live && i in w.live && w.live[h] == w.live[i] ==> h == i)
    && (forall g, f, e :: g in w.tables && f in w.tables[g] && e in w.tables[g] && f.listen == e.listen ==> f == e)
  }

  /** If this generation is the live one, the forward is really there. */
  predicate Real(w: World, host: Host, generation: Generation, forward: Forward) {
    host in w.live && w.live[host] == generation ==>
      generation in w.tables && forward in w.tables[generation]
  }

  ghost predicate CacheInv(w: World, cache: set<Key>) {
    && (forall k :: k in cache ==> k.generation < w.next && Real(w, k.host, k.generation, k.forward))
    && (forall k, j :: k in cache && j in cache && SameForward(k, j) ==> k == j)
  }

  ghost predicate TasksInv(s: State) {
    && (forall t, u :: t in s.tasks && u in s.tasks && s.tasks[t].host == s.tasks[u].host ==> t == u)
    && (forall t, u :: t in s.tasks && u in s.tasks && s.tasks[t].locked && s.tasks[u].locked ==> t == u)
    && (forall t :: t in s.tasks && s.tasks[t].probed.Some? ==> s.tasks[t].probed.value < s.world.next)
    && (forall t :: t in s.tasks && s.tasks[t].armed.Some? ==>
          s.tasks[t].locked && s.tasks[t].probed.Some?
          && Real(s.world, s.tasks[t].host, s.tasks[t].probed.value, s.tasks[t].armed.value))
  }

  ghost predicate Inv(s: State) {
    WorldInv(s.world) && CacheInv(s.world, s.cache) && TasksInv(s)
  }

  /** What the world may do to a master leaves every recorded forward real. */
  ghost predicate Evolves(v: World, w: World) {
    && v.next <= w.next
    && forall h: Host, g: Generation, f :: g < v.next && Real(v, h, g, f) ==> Real(w, h, g, f)
  }

  lemma SpawnEvolves(w: World, host: Host)
    requires WorldInv(w) && host !in w.live
    ensures WorldInv(Spawned(w, host)) && Evolves(w, Spawned(w, host))
  {
  }

  lemma DieEvolves(w: World, host: Host)
    requires WorldInv(w)
    ensures WorldInv(Died(w, host)) && Evolves(w, Died(w, host))
  {
  }

  lemma ArmEvolves(w: World, host: Host, forward: Forward)
    requires WorldInv(w) && CanArm(w, host, forward)
    ensures WorldInv(ArmedOn(w, host, forward)) && Evolves(w, ArmedOn(w, host, forward))
    ensures forall g: Generation :: Real(ArmedOn(w, host, forward), host, g, forward)
  {
  }

  lemma CacheFollows(v: World, w: World, cache: set<Key>)
    requires Evolves(v, w) && CacheInv(v, cache)
    ensures CacheInv(w, cache)
  {
  }

  lemma TasksFollow(s: State, w: World)
    requires Evolves(s.world, w) && TasksInv(s)
    ensures TasksInv(s.(world := w))
  {
  }

  lemma StepKeepsInv(s: State, act: Action)
    requires Inv(s) && Enabled(s, act)
    ensures Inv(Do(s, act))
  {
    match act
    case Spawn(host) =>
      SpawnEvolves(s.world, host);
      WorldStepKeepsInv(s, Spawned(s.world, host));
    case Die(host) =>
      DieEvolves(s.world, host);
      WorldStepKeepsInv(s, Died(s.world, host));
    case Arm(t, forward) => ArmKeepsInv(s, t, forward);
    case Remember(t) => RememberKeepsInv(s, t);
    case Drop(t) => assert Do(s, act).cache <= s.cache;
    case _ => TaskStepKeepsInv(s, act);
  }

  lemma TaskStepKeepsInv(s: State, act: Action)
    requires Inv(s) && Enabled(s, act)
    requires act.Lease? || act.Probe? || act.Lock? || act.Release?
    ensures Inv(Do(s, act))
  {
    assert Do(s, act).world == s.world && Do(s, act).cache == s.cache;
  }

  lemma ArmKeepsInv(s: State, t: nat, forward: Forward)
    requires Inv(s) && Enabled(s, Arm(t, forward))
    ensures Inv(Do(s, Arm(t, forward)))
  {
    var w := ArmedOn(s.world, s.tasks[t].host, forward);
    ArmEvolves(s.world, s.tasks[t].host, forward);
    WorldStepKeepsInv(s, w);
    assert Real(w, s.tasks[t].host, s.tasks[t].probed.value, forward);
  }

  lemma WorldStepKeepsInv(s: State, w: World)
    requires Inv(s) && WorldInv(w) && Evolves(s.world, w)
    ensures Inv(s.(world := w))
  {
    CacheFollows(s.world, w, s.cache);
    TasksFollow(s, w);
  }

  lemma RememberKeepsInv(s: State, t: nat)
    requires Inv(s) && Enabled(s, Remember(t))
    ensures Inv(Do(s, Remember(t)))
  {
    var task := s.tasks[t];
    assert Real(s.world, task.host, task.probed.value, task.armed.value);
  }

  ghost predicate Run(s: State, acts: seq<Action>, t: State)
    decreases |acts|
  {
    if acts == [] then s == t
    else Enabled(s, acts[0]) && Run(Do(s, acts[0]), acts[1..], t)
  }

  lemma {:induction false} RunKeepsInv(s: State, acts: seq<Action>, t: State)
    requires Inv(s) && Run(s, acts, t)
    ensures Inv(t)
    decreases |acts|
  {
    if acts != [] {
      StepKeepsInv(s, acts[0]);
      RunKeepsInv(Do(s, acts[0]), acts[1..], t);
    }
  }

  // ---------- what the invariant gives ----------

  /** In every run a cached key with the live generation is a forward of that very master,
      and no forward is cached under two generations. */
  lemma CacheIsReal(acts: seq<Action>, s: State, k: Key, j: Key)
    requires Run(START, acts, s) && k in s.cache && j in s.cache
    ensures k.host in s.world.live && s.world.live[k.host] == k.generation ==>
      k.generation in s.world.tables && k.forward in s.world.tables[k.generation]
    ensures SameForward(k, j) ==> k == j
  {
    RunKeepsInv(START, acts, s);
  }

  /** Only `Drop`, by the holder of that host's lease, takes a forward out of what is
      desired; only `Remember` adds one; nothing else touches the cache. */
  lemma DesiredChanges(s: State, act: Action, host: Host)
    requires Enabled(s, act)
    ensures Desired(Do(s, act).cache, host) ==
      match act
      case Drop(t) => if s.tasks[t].host == host then {} else Desired(s.cache, host)
      case Remember(t) =>
        if s.tasks[t].host == host then Desired(s.cache, host) + {s.tasks[t].armed.value} else Desired(s.cache, host)
      case _ => Desired(s.cache, host)
  {
    match act
    case Drop(t) =>
      assert forall k :: k in Do(s, act).cache <==> k in s.cache && k.host != s.tasks[t].host;
    case Remember(t) =>
      RememberedDesired(s.cache, Key(s.tasks[t].host, s.tasks[t].probed.value, s.tasks[t].armed.value), host);
    case _ =>
  }

  lemma RememberedDesired(cache: set<Key>, key: Key, host: Host)
    ensures Desired(Remembered(cache, key), host)
      == if key.host == host then Desired(cache, host) + {key.forward} else Desired(cache, host)
  {
    var after := Remembered(cache, key);
    assert key in after;
    forall f | f in Desired(cache, host) ensures f in Desired(after, host) {
      var k :| k in cache && k.host == host && k.forward == f;
      if SameForward(k, key) {
        assert key in after && key.forward == f && key.host == host;
      } else {
        assert k in after;
      }
    }
  }

  /** When a host's forwards are dropped nobody has one armed and about to be remembered, and
      nobody else is inside that host's lease: one cached later was armed later, by an
      operation that took the lease later. */
  lemma DropIsFinal(acts: seq<Action>, s: State, t: nat)
    requires Run(START, acts, s) && Enabled(s, Drop(t))
    ensures Desired(Do(s, Drop(t)).cache, s.tasks[t].host) == {}
    ensures forall u :: u in s.tasks ==> s.tasks[u].armed.None? && (u != t ==> s.tasks[u].host != s.tasks[t].host)
  {
    RunKeepsInv(START, acts, s);
    DesiredChanges(s, Drop(t), s.tasks[t].host);
  }

  // ---------- two destinations on one listen port ----------

  /** Every desired forward is on the master the host has now. */
  ghost predicate AllArmed(s: State, host: Host) {
    host in s.world.live && forall f :: f in Desired(s.cache, host) ==> Key(host, s.world.live[host], f) in s.cache
  }

  /** The success of the reconcile task `t` is in: every desired forward of its host is
      cached under the generation it probed. */
  ghost predicate Reconciled(s: State, t: nat) {
    && t in s.tasks && s.tasks[t].probed.Some?
    && forall f :: f in Desired(s.cache, s.tasks[t].host) ==> Key(s.tasks[t].host, s.tasks[t].probed.value, f) in s.cache
  }

  predicate Clash(f: Forward, e: Forward) {
    f != e && f.listen == e.listen
  }

  ghost predicate ClashesWith(cache: set<Key>, host: Host, f: Forward) {
    exists e :: e in Desired(cache, host) && Clash(f, e)
  }

  ghost predicate Conflict(cache: set<Key>, host: Host) {
    exists f, e :: f in Desired(cache, host) && e in Desired(cache, host) && Clash(f, e)
  }

  lemma ConflictNeverArmed(s: State, host: Host)
    requires Inv(s) && Conflict(s.cache, host)
    ensures !AllArmed(s, host)
  {
  }

  /** A reconcile that succeeds has armed the master the host still has exactly when that is
      the one it probed. */
  lemma ReconciledIsArmedIff(s: State, t: nat)
    requires Inv(s) && Reconciled(s, t) && Desired(s.cache, s.tasks[t].host) != {}
    ensures AllArmed(s, s.tasks[t].host)
      <==> s.tasks[t].host in s.world.live && s.world.live[s.tasks[t].host] == s.tasks[t].probed.value
  {
    var host := s.tasks[t].host;
    var f :| f in Desired(s.cache, host);
    if AllArmed(s, host) {
      assert SameForward(Key(host, s.world.live[host], f), Key(host, s.tasks[t].probed.value, f));
    }
  }

  /** So with a conflict among the desired forwards, success means the probed master is gone. */
  lemma ConflictReconciledOnDead(s: State, t: nat)
    requires Inv(s) && Reconciled(s, t) && Conflict(s.cache, s.tasks[t].host)
    ensures !(s.tasks[t].host in s.world.live && s.world.live[s.tasks[t].host] == s.tasks[t].probed.value)
  {
    ConflictNeverArmed(s, s.tasks[t].host);
    ReconciledIsArmedIff(s, t);
  }

  predicate DropsHost(s: State, act: Action, host: Host) {
    act.Drop? && act.t in s.tasks && s.tasks[act.t].host == host
  }

  ghost predicate NeverDrops(s: State, acts: seq<Action>, host: Host)
    decreases |acts|
  {
    acts != [] ==>
      !DropsHost(s, acts[0], host) && (Enabled(s, acts[0]) ==> NeverDrops(Do(s, acts[0]), acts[1..], host))
  }

  /** Until they are dropped, two desired forwards on one listen port are never both on the
      host's master, in any run. */
  lemma {:induction false} ConflictPersists(s: State, acts: seq<Action>, t: State, host: Host)
    requires Inv(s) && Conflict(s.cache, host) && Run(s, acts, t) && NeverDrops(s, acts, host)
    ensures Conflict(t.cache, host) && !AllArmed(t, host)
    decreases |acts|
  {
    if acts == [] {
      ConflictNeverArmed(s, host);
    } else {
      var f, e :| f in Desired(s.cache, host) && e in Desired(s.cache, host) && Clash(f, e);
      StepKeepsInv(s, acts[0]);
      DesiredChanges(s, acts[0], host);
      assert f in Desired(Do(s, acts[0]).cache, host) && e in Desired(Do(s, acts[0]).cache, host);
      ConflictPersists(Do(s, acts[0]), acts[1..], t, host);
    }
  }

  // ---------- what can still be reached ----------

  /** A run that drops nothing of the host. */
  ghost predicate Leads(s: State, host: Host, t: State) {
    exists acts :: Run(s, acts, t) && NeverDrops(s, acts, host)
  }

  lemma LeadsNowhere(s: State, host: Host)
    ensures Leads(s, host, s)
  {
    assert Run(s, [], s) && NeverDrops(s, [], host);
  }

  lemma LeadsBy(s: State, act: Action, host: Host, t: State)
    requires Enabled(s, act) && !act.Drop? && Leads(Do(s, act), host, t)
    ensures Leads(s, host, t)
  {
    var acts :| Run(Do(s, act), acts, t) && NeverDrops(Do(s, act), acts, host);
    assert ([act] + acts)[1..] == acts;
    assert Run(s, [act] + acts, t) && NeverDrops(s, [act] + acts, host);
  }

  lemma LeadsOn(s: State, host: Host, t: State, u: State)
    requires Leads(s, host, t) && Leads(t, host, u)
    ensures Leads(s, host, u)
  {
    var acts :| Run(s, acts, t) && NeverDrops(s, acts, host);
    RunOn(s, acts, t, host, u);
  }

  lemma {:induction false} RunOn(s: State, acts: seq<Action>, t: State, host: Host, u: State)
    requires Run(s, acts, t) && NeverDrops(s, acts, host) && Leads(t, host, u)
    ensures Leads(s, host, u)
    decreases |acts|
  {
    if acts != [] {
      RunOn(Do(s, acts[0]), acts[1..], t, host, u);
      var rest :| Run(Do(s, acts[0]), rest, u) && NeverDrops(Do(s, acts[0]), rest, host);
      assert ([acts[0]] + rest)[1..] == rest;
      assert Run(s, [acts[0]] + rest, u) && NeverDrops(s, [acts[0]] + rest, host);
    }
  }

  /** Nobody is inside the host's lease or holds the tunnel lock. */
  predicate Quiet(s: State, host: Host) {
    forall u :: u in s.tasks ==> s.tasks[u].host != host && !s.tasks[u].locked
  }

  /** Task `t` may arm: it has probed `g` and holds both locks. */
  predicate Ready(s: State, t: nat, host: Host, g: Generation) {
    t in s.tasks && s.tasks[t] == Task(host, Some(g), true, None)
  }

  lemma OneStep(s: State, act: Action, host: Host) returns (t: State)
    requires Inv(s) && Enabled(s, act) && !act.Drop?
    ensures t == Do(s, act) && Inv(t) && Leads(s, host, t)
  {
    t := Do(s, act);
    StepKeepsInv(s, act);
    LeadsNowhere(t, host);
    LeadsBy(s, act, host, t);
  }

  /** Whoever is inside a lease or holds the lock may let go. */
  lemma {:induction false} LetGo(s: State, host: Host) returns (s': State)
    requires Inv(s)
    ensures Leads(s, host, s') && Inv(s') && Quiet(s', host) && s'.cache == s.cache
    decreases |s.tasks|
  {
    if t :| t in s.tasks {
      var next := OneStep(s, Release(t), host);
      s' := LetGo(next, host);
      LeadsOn(s, host, next, s');
    } else {
      s' := s;
      LeadsNowhere(s, host);
    }
  }

  /** The host's master is replaced by one with nothing on it. */
  lemma Replaced(s: State, host: Host) returns (s': State)
    requires Inv(s)
    ensures Leads(s, host, s') && Inv(s') && s'.cache == s.cache && s'.tasks == s.tasks
    ensures s'.world == Spawned(Died(s.world, host), host)
  {
    var died := OneStep(s, Die(host), host);
    s' := OneStep(died, Spawn(host), host);
    LeadsOn(s, host, died, s');
  }

  /** From any quiet state a task gets ready on a master with nothing on it. */
  lemma FreshStart(s: State, host: Host) returns (t: nat, g: Generation, s': State)
    requires Inv(s) && Quiet(s, host)
    ensures Leads(s, host, s') && Inv(s') && Ready(s', t, host, g) && s'.cache == s.cache
    ensures host in s'.world.live && s'.world.live[host] == g && s'.world.tables[g] == {}
    ensures s'.tasks == s.tasks[t := Task(host, Some(g), true, None)] && t !in s.tasks
  {
    t, g := Unused(s.tasks.Keys), s.world.next;
    var bare := Replaced(s, host);
    s' := GetReady(bare, t, host);
    LeadsOn(s, host, bare, s');
  }

  lemma GetReady(s: State, t: nat, host: Host) returns (s': State)
    requires Inv(s) && Quiet(s, host) && t !in s.tasks && host in s.world.live
    ensures Leads(s, host, s') && Inv(s') && Ready(s', t, host, s.world.live[host])
    ensures s'.cache == s.cache && s'.world == s.world
    ensures s'.tasks == s.tasks[t := Task(host, Some(s.world.live[host]), true, None)]
  {
    var leased := OneStep(s, Lease(t, host), host);
    s' := ProbeAndLock(leased, t, host);
    LeadsOn(s, host, leased, s');
  }

  lemma ProbeAndLock(s: State, t: nat, host: Host) returns (s': State)
    requires Inv(s) && t in s.tasks && s.tasks[t] == Task(host, None, false, None) && host in s.world.live
    requires forall u :: u in s.tasks ==> !s.tasks[u].locked
    ensures Leads(s, host, s') && Inv(s') && s'.cache == s.cache && s'.world == s.world
    ensures s'.tasks == s.tasks[t := Task(host, Some(s.world.live[host]), true, None)]
  {
    var probed := OneStep(s, Probe(t), host);
    s' := OneStep(probed, Lock(t), host);
    LeadsOn(s, host, probed, s');
  }

  /** A ready task arms a forward its host's master has room for, and remembers it. */
  lemma ArmOne(s: State, t: nat, host: Host, g: Generation, f: Forward) returns (s': State)
    requires Inv(s) && Ready(s, t, host, g) && CanArm(s.world, host, f)
    ensures Leads(s, host, s') && Inv(s') && Ready(s', t, host, g) && s'.tasks == s.tasks
    ensures s'.world == ArmedOn(s.world, host, f)
    ensures s'.cache == Remembered(s.cache, Key(host, g, f))
    ensures Desired(s'.cache, host) == Desired(s.cache, host) + {f}
  {
    ArmThenRemember(s, t, host, g, f);
    var armed := OneStep(s, Arm(t, f), host);
    s' := OneStep(armed, Remember(t), host);
    LeadsOn(s, host, armed, s');
    RememberedDesired(s.cache, Key(host, g, f), host);
  }

  lemma ArmThenRemember(s: State, t: nat, host: Host, g: Generation, f: Forward)
    requires Ready(s, t, host, g) && CanArm(s.world, host, f)
    ensures Enabled(s, Arm(t, f)) && Enabled(Do(s, Arm(t, f)), Remember(t))
    ensures Do(Do(s, Arm(t, f)), Remember(t))
         == State(ArmedOn(s.world, host, f), Remembered(s.cache, Key(host, g, f)), s.tasks)
  {
  }

  /** Without a conflict a ready task can go through all that is desired on one master. */
  lemma {:induction false} ArmAll(s: State, t: nat, host: Host, g: Generation, rest: set<Forward>) returns (s': State)
    requires Inv(s) && Ready(s, t, host, g) && !Conflict(s.cache, host)
    requires host in s.world.live && s.world.live[host] == g && s.world.tables[g] <= Desired(s.cache, host)
    requires rest <= Desired(s.cache, host)
    requires forall f :: f in Desired(s.cache, host) - rest ==> Key(host, g, f) in s.cache
    ensures Leads(s, host, s') && AllArmed(s', host)
    decreases |rest|
  {
    if rest == {} {
      s' := s;
      LeadsNowhere(s, host);
    } else {
      var f :| f in rest;
      assert forall e :: e in s.world.tables[g] ==> !Clash(f, e);
      var next := ArmOne(s, t, host, g, f);
      assert Desired(next.cache, host) == Desired(s.cache, host);
      assert Key(host, g, f) in next.cache;
      s' := ArmAll(next, t, host, g, rest - {f});
      LeadsOn(s, host, next, s');
    }
  }

  /** The desired forwards of a host can all come to be on one master, without dropping any,
      exactly when no two of them share a listen port. */
  lemma ArmableIff(s: State, host: Host)
    requires Inv(s)
    ensures (exists t :: Leads(s, host, t) && AllArmed(t, host)) <==> !Conflict(s.cache, host)
  {
    if Conflict(s.cache, host) {
      forall t | Leads(s, host, t) ensures !AllArmed(t, host) {
        var acts :| Run(s, acts, t) && NeverDrops(s, acts, host);
        ConflictPersists(s, acts, t, host);
      }
    } else {
      var quiet := LetGo(s, host);
      var t, g, ready := FreshStart(quiet, host);
      var armed := ArmAll(ready, t, host, g, Desired(s.cache, host));
      LeadsOn(quiet, host, ready, armed);
      LeadsOn(s, host, quiet, armed);
    }
  }

  lemma ArmOnReplacement(s: State, t: nat, host: Host, g: Generation, f: Forward) returns (s': State)
    requires Inv(s) && Ready(s, t, host, g)
    ensures Leads(s, host, s') && Inv(s') && s'.tasks == s.tasks
    ensures s'.cache == Remembered(s.cache, Key(host, g, f))
    ensures Desired(s'.cache, host) == Desired(s.cache, host) + {f}
  {
    var bare := Replaced(s, host);
    s' := ArmOne(bare, t, host, g, f);
    LeadsOn(s, host, bare, s');
  }

  /** With the master replaced before each arm, a ready task can cache everything under the
      generation it once probed. */
  lemma {:induction false} ArmEach(s: State, t: nat, host: Host, g: Generation, rest: set<Forward>) returns (s': State)
    requires Inv(s) && Ready(s, t, host, g) && rest <= Desired(s.cache, host)
    requires forall f :: f in Desired(s.cache, host) - rest ==> Key(host, g, f) in s.cache
    ensures Leads(s, host, s') && Reconciled(s', t) && s'.tasks == s.tasks
    ensures Desired(s'.cache, host) == Desired(s.cache, host)
    decreases |rest|
  {
    if rest == {} {
      s' := s;
      LeadsNowhere(s, host);
    } else {
      var f :| f in rest;
      var next := ArmOnReplacement(s, t, host, g, f);
      assert Desired(next.cache, host) == Desired(s.cache, host);
      s' := ArmEach(next, t, host, g, rest - {f});
      LeadsOn(s, host, next, s');
    }
  }

  lemma ReportsSuccess(s: State, host: Host) returns (t: nat, u: State)
    requires Inv(s)
    ensures Leads(s, host, u) && Reconciled(u, t) && u.tasks[t].host == host
    ensures Desired(u.cache, host) == Desired(s.cache, host)
  {
    var quiet := LetGo(s, host);
    var g, ready;
    t, g, ready := FreshStart(quiet, host);
    u := ArmEach(ready, t, host, g, Desired(s.cache, host));
    LeadsOn(quiet, host, ready, u);
    LeadsOn(s, host, quiet, u);
  }

  /** So a reconcile may report success whatever is desired: the report alone does not mean
      that the forwards are there, only that they were armed since the probe. */
  lemma ReconcileMayReport(s: State, host: Host)
    requires Inv(s)
    ensures exists t, u ::
      Leads(s, host, u) && Reconciled(u, t) && u.tasks[t].host == host && Desired(u.cache, host) == Desired(s.cache, host)
  {
    var t, u := ReportsSuccess(s, host);
  }

  // ---------- how a conflict comes about ----------

  /** Remembering makes a conflict exactly when one was there or the new forward clashes
      with a desired one. */
  lemma RememberConflictsIff(s: State, t: nat)
    requires Enabled(s, Remember(t))
    ensures var host, f := s.tasks[t].host, s.tasks[t].armed.value;
      Conflict(Do(s, Remember(t)).cache, host) <==> Conflict(s.cache, host) || ClashesWith(s.cache, host, f)
  {
    var host, f := s.tasks[t].host, s.tasks[t].armed.value;
    DesiredChanges(s, Remember(t), host);
    var was, now := Desired(s.cache, host), Desired(Do(s, Remember(t)).cache, host);
    assert now == was + {f};
    if a, b :| a in now && b in now && Clash(a, b) {
      assert a in was || b in was;
    }
    if e :| e in was && Clash(f, e) {
      assert f in now && e in now;
    }
    if a, b :| a in was && b in was && Clash(a, b) {
      assert a in now && b in now;
    }
  }

  predicate Dies(act: Action, host: Host) {
    act == Die(host)
  }

  ghost predicate KeepsMaster(acts: seq<Action>, host: Host) {
    forall i :: 0 <= i < |acts| ==> !Dies(acts[i], host)
  }

  /** The live master has no room for the forward, and nobody has it armed. */
  ghost predicate ShutOut(s: State, host: Host, f: Forward) {
    && host in s.world.live && s.world.live[host] in s.world.tables
    && !PortFree(s.world.tables[s.world.live[host]], f)
    && f !in Desired(s.cache, host)
    && forall u :: u in s.tasks && s.tasks[u].host == host ==> s.tasks[u].armed != Some(f)
  }

  lemma StepShutOut(s: State, act: Action, host: Host, f: Forward)
    requires Inv(s) && ShutOut(s, host, f) && Enabled(s, act) && !Dies(act, host)
    ensures ShutOut(Do(s, act), host, f)
  {
    DesiredChanges(s, act, host);
  }

  lemma {:induction false} RunShutOut(s: State, acts: seq<Action>, t: State, host: Host, f: Forward)
    requires Inv(s) && ShutOut(s, host, f) && Run(s, acts, t) && KeepsMaster(acts, host)
    ensures f !in Desired(t.cache, host)
    decreases |acts|
  {
    if acts != [] {
      StepKeepsInv(s, acts[0]);
      StepShutOut(s, acts[0], host, f);
      RunShutOut(Do(s, acts[0]), acts[1..], t, host, f);
    }
  }

  /** A forward that is not desired yet can come to be, while the host keeps its master,
      exactly when that master has no other destination on its listen port. So a clash with
      a forward that is really there takes a replacement of the master in between. */
  lemma NewForwardIff(s: State, host: Host, f: Forward)
    requires Inv(s) && Quiet(s, host) && host in s.world.live && f !in Desired(s.cache, host)
    ensures (exists acts, t :: Run(s, acts, t) && KeepsMaster(acts, host) && f in Desired(t.cache, host))
      <==> PortFree(s.world.tables[s.world.live[host]], f)
  {
    if PortFree(s.world.tables[s.world.live[host]], f) {
      var t := Unused(s.tasks.Keys);
      var acts := [Lease(t, host), Probe(t), Lock(t), Arm(t, f), Remember(t)];
      assert KeepsMaster(acts, host);
      AddsOnMaster(s, host, f, t, acts);
    } else {
      assert ShutOut(s, host, f);
      forall acts, t | Run(s, acts, t) && KeepsMaster(acts, host) ensures f !in Desired(t.cache, host) {
        RunShutOut(s, acts, t, host, f);
      }
    }
  }

  lemma AddsOnMaster(s: State, host: Host, f: Forward, t: nat, acts: seq<Action>)
    requires Inv(s) && Quiet(s, host) && host in s.world.live && t !in s.tasks
    requires PortFree(s.world.tables[s.world.live[host]], f)
    requires acts == [Lease(t, host), Probe(t), Lock(t), Arm(t, f), Remember(t)]
    ensures exists u :: Run(s, acts, u) && f in Desired(u.cache, host)
  {
    var s1 := Do(s, acts[0]);
    var s2 := Do(s1, acts[1]);
    var s3 := Do(s2, acts[2]);
    assert Ready(s3, t, host, s.world.live[host]) && s3.world == s.world;
    var s4, u := ArmAndRemember(s3, t, host, f);
    RunFive(s, acts, s1, s2, s3, s4, u);
  }

  lemma ArmAndRemember(s: State, t: nat, host: Host, f: Forward) returns (s1: State, s2: State)
    requires t in s.tasks && s.tasks[t].host == host && s.tasks[t].locked && s.tasks[t].probed.Some?
    requires s.tasks[t].armed.None? && CanArm(s.world, host, f)
    ensures Enabled(s, Arm(t, f)) && s1 == Do(s, Arm(t, f))
    ensures Enabled(s1, Remember(t)) && s2 == Do(s1, Remember(t)) && f in Desired(s2.cache, host)
  {
    s1 := Do(s, Arm(t, f));
    s2 := Do(s1, Remember(t));
    DesiredChanges(s1, Remember(t), host);
  }

  lemma RunFive(s: State, acts: seq<Action>, s1: State, s2: State, s3: State, s4: State, u: State)
    requires |acts| == 5
    requires Enabled(s, acts[0]) && s1 == Do(s, acts[0]) && Enabled(s1, acts[1]) && s2 == Do(s1, acts[1])
    requires Enabled(s2, acts[2]) && s3 == Do(s2, acts[2]) && Enabled(s3, acts[3]) && s4 == Do(s3, acts[3])
    requires Enabled(s4, acts[4]) && u == Do(s4, acts[4])
    ensures Run(s, acts, u)
  {
    var a1, a2, a3, a4 := acts[1..], acts[2..], acts[3..], acts[4..];
    assert a1[1..] == a2 && a2[1..] == a3 && a3[1..] == a4 && a4[1..] == [];
    assert Run(s4, a4, u);
    assert Run(s3, a3, u);
    assert Run(s2, a2, u);
    assert Run(s1, a1, u);
  }

  /** A whole operation that adds a forward on a fresh master and lets its locks go. */
  lemma AddsForward(s: State, host: Host, f: Forward) returns (s': State)
    requires Inv(s) && Quiet(s, host)
    ensures Leads(s, host, s') && Inv(s') && Quiet(s', host)
    ensures Desired(s'.cache, host) == Desired(s.cache, host) + {f}
  {
    var t, g, ready := FreshStart(s, host);
    var armed := ArmOne(ready, t, host, g, f);
    s' := OneStep(armed, Release(t), host);
    LeadsOn(ready, host, armed, s');
    LeadsOn(s, host, ready, s');
  }

  /** Two forwards that clash come to be desired: one is ensured; the warm before the other
      re-arms it on a new master; that master is replaced too, and the other is armed on the
      next. */
  lemma EnsuresBoth(host: Host, f: Forward, e: Forward) returns (s: State)
    requires Clash(f, e)
    ensures Leads(START, host, s) && Inv(s) && Quiet(s, host) && Conflict(s.cache, host)
  {
    var ensured := AddsForward(START, host, f);
    var warmed := AddsForward(ensured, host, f);
    s := AddsForward(warmed, host, e);
    LeadsOn(START, host, ensured, warmed);
    LeadsOn(START, host, warmed, s);
    assert f in Desired(s.cache, host) && e in Desired(s.cache, host);
  }

  /** So a conflict is reached from the start, for any two forwards that clash. */
  lemma ConflictReachable(host: Host, f: Forward, e: Forward)
    requires Clash(f, e)
    ensures exists acts, s :: Run(START, acts, s) && Inv(s) && Quiet(s, host) && Conflict(s.cache, host)
  {
    var s := EnsuresBoth(host, f, e);
    var acts :| Run(START, acts, s) && NeverDrops(START, acts, host);
  }

  /** And a reconcile reports success there. */
  lemma ReportedWithConflict(host: Host, f: Forward, e: Forward)
    requires Clash(f, e)
    ensures exists acts, u, t: nat ::
      Run(START, acts, u) && Reconciled(u, t) && u.tasks[t].host == host && Conflict(u.cache, host)
  {
    var s := EnsuresBoth(host, f, e);
    var t, u := ReportsSuccess(s, host);
    LeadsOn(START, host, s, u);
    var acts :| Run(START, acts, u) && NeverDrops(START, acts, host);
  }

  // ---------- the operations ----------

  predicate Before(a: Forward, b: Forward) {
    a.listen < b.listen || (a.listen == b.listen && a.mac < b.mac)
  }

  ghost predicate Ascending(fs: seq<Forward>) {
    forall i, j :: 0 <= i < j < |fs| ==> Before(fs[i], fs[j])
  }

  /** Collects, sorts and deduplicates. */
  method Sorted(wanted: set<Forward>) returns (fs: seq<Forward>)
    ensures Ascending(fs) && forall f :: f in fs <==> f in wanted
  {
    fs := [];
    var rest := wanted;
    while rest != {}
      invariant rest <= wanted && Ascending(fs) && forall f :: f in fs <==> f in wanted - rest
      decreases |rest|
    {
      var f :| f in rest;
      rest := rest - {f};
      fs := Inserted(fs, f);
    }
  }

  lemma InsertedInOrder(fs: seq<Forward>, k: nat, f: Forward, more: seq<Forward>)
    requires Ascending(fs) && k <= |fs| && more == fs[..k] + [f] + fs[k..]
    requires (k > 0 ==> Before(fs[k - 1], f)) && (k < |fs| ==> Before(f, fs[k]))
    ensures Ascending(more)
  {
    forall i, j | 0 <= i < j < |more| ensures Before(more[i], more[j]) {
      if i == k {
        assert more[i] == f && more[j] == fs[j - 1];
        assert j - 1 > k ==> Before(fs[k], fs[j - 1]);
      } else if j == k {
        assert more[j] == f && more[i] == fs[i];
        assert i < k - 1 ==> Before(fs[i], fs[k - 1]);
      } else {
        var a, b := if i < k then i else i - 1, if j < k then j else j - 1;
        assert more[i] == fs[a] && more[j] == fs[b];
      }
    }
  }

  method Inserted(fs: seq<Forward>, f: Forward) returns (r: seq<Forward>)
    requires Ascending(fs) && f !in fs
    ensures Ascending(r) && forall e :: e in r <==> e in fs || e == f
  {
    var k := 0;
    while k < |fs| && Before(fs[k], f)
      invariant 0 <= k <= |fs| && forall i :: 0 <= i < k ==> Before(fs[i], f)
    {
      k := k + 1;
    }
    assert fs == fs[..k] + fs[k..];
    r := fs[..k] + [f] + fs[k..];
    InsertedInOrder(fs, k, f, r);
  }

  /** `TunnelControlState`, and the masters outside the process. Each method runs with its
      host's lease and, where it touches the cache, the tunnel lock; meanwhile masters may
      die and be replaced at any point. */
  class TunnelControl {
    var reverseTunnels: set<Key>
    var legacyRetired: map<Host, int>
    var world: World
    /** The hosts with masters at the socket names of older versions. */
    var legacyUp: set<Host>
    /** How often something outside failed: a probe found no master, a forward was not bound,
        masters could not be closed. */
    ghost var setbacks: nat

    ghost predicate Valid()
      reads `reverseTunnels, `world
    {
      WorldInv(world) && CacheInv(world, reverseTunnels)
    }

    constructor Default(w: World, legacy: set<Host>)
      requires WorldInv(w)
      ensures Valid() && reverseTunnels == {} && world == w && legacyUp == legacy && setbacks == 0
    {
      reverseTunnels, legacyRetired, world, legacyUp, setbacks := {}, map[], w, legacy, 0;
    }

    method MastersChange()
      requires Valid()
      modifies `world
      ensures Valid() && Evolves(old(world), world)
    {
      var n :| 0 <= n;
      for _ := 0 to n
        invariant Valid() && Evolves(old(world), world)
      {
        var host: Host, dies: bool := *, *;
        if dies {
          DieEvolves(world, host);
          CacheFollows(world, Died(world, host), reverseTunnels);
          world := Died(world, host);
        } else if host !in world.live {
          SpawnEvolves(world, host);
          CacheFollows(world, Spawned(world, host), reverseTunnels);
          world := Spawned(world, host);
        }
      }
    }

    /** `verified_control_master_generation`. */
    method ProbeGeneration(host: Host) returns (g: Option<Generation>)
      requires Valid()
      modifies `world, `setbacks
      ensures Valid() && (g.Some? ==> g.value < world.next)
      ensures g == if host in world.live then Some(world.live[host]) else None
      ensures setbacks == old(setbacks) + if g.Some? then 0 else 1
    {
      MastersChange();
      g := if host in world.live then Some(world.live[host]) else None;
      if g.None? { setbacks := setbacks + 1; }
    }

    /** `ssh -O forward` and the reading of its answer. On success the forward is on
        whatever master took the request, so it is real for the probed one. */
    method ArmForward(host: Host, forward: Forward) returns (bound: bool)
      requires Valid()
      modifies `world, `setbacks
      ensures Valid() && Evolves(old(world), world)
      ensures setbacks == old(setbacks) + if bound then 0 else 1
      ensures bound ==> forall g: Generation :: g < old(world).next ==> Real(world, host, g, forward)
    {
      MastersChange();
      var answered: bool := *;
      bound := answered && CanArm(world, host, forward);
      if bound {
        ArmEvolves(world, host, forward);
        CacheFollows(world, ArmedOn(world, host, forward), reverseTunnels);
        world := ArmedOn(world, host, forward);
      } else {
        setbacks := setbacks + 1;
      }
    }

    /** `remember_armed_reverse_tunnel`. */
    method Remember(key: Key)
      requires Valid() && key.generation < world.next && Real(world, key.host, key.generation, key.forward)
      modifies `reverseTunnels
      ensures Valid() && key in reverseTunnels
      ensures forall k :: !SameForward(k, key) ==> (k in reverseTunnels <==> k in old(reverseTunnels))
      ensures Desired(reverseTunnels, key.host) == Desired(old(reverseTunnels), key.host) + {key.forward}
      ensures forall h :: h != key.host ==> Desired(reverseTunnels, h) == Desired(old(reverseTunnels), h)
    {
      RememberedDesired(reverseTunnels, key, key.host);
      forall h | h != key.host ensures Desired(Remembered(reverseTunnels, key), h) == Desired(reverseTunnels, h) {
        RememberedDesired(reverseTunnels, key, h);
      }
      reverseTunnels := (set k | k in reverseTunnels && !SameForward(k, key));
      reverseTunnels := reverseTunnels + {key};
    }

    /** `reconcile_desired_reverse_tunnels_locked`: never changes what is desired, of any
        host; on success every desired forward of this host is armed on the probed
        generation, hence on the live master if that is still it. */
    method Reconcile(host: Host) returns (r: Option<Generation>)
      requires Valid()
      modifies `reverseTunnels, `world, `setbacks
      ensures Valid() && (r.Some? <==> setbacks == old(setbacks))
      ensures forall h :: Desired(reverseTunnels, h) == Desired(old(reverseTunnels), h)
      ensures r.Some? ==> forall f :: f in Desired(reverseTunnels, host) ==>
        Key(host, r.value, f) in reverseTunnels && Real(world, host, r.value, f)
      ensures forall k: Key :: k.host != host ==> (k in reverseTunnels <==> k in old(reverseTunnels))
    {
      var probed := ProbeGeneration(host);
      if probed.None? { return None; }
      var g := probed.value;
      var desired := Sorted(set k | k in reverseTunnels && k.host == host :: k.forward);
      for i := 0 to |desired|
        invariant Valid() && g < world.next && setbacks == old(setbacks)
        invariant forall h :: Desired(reverseTunnels, h) == Desired(old(reverseTunnels), h)
        invariant forall k: Key :: k.host != host ==> (k in reverseTunnels <==> k in old(reverseTunnels))
        invariant forall j :: 0 <= j < i ==> Key(host, g, desired[j]) in reverseTunnels
      {
        var current := Key(host, g, desired[i]);
        assert forall j :: 0 <= j < i ==> !SameForward(Key(host, g, desired[j]), current);
        var armed := ReconcileOne(current);
        if !armed { return None; }
      }
      return Some(g);
    }

    /** One desired forward: a hit is left alone, a miss is armed and remembered. */
    method ReconcileOne(current: Key) returns (ok: bool)
      requires Valid() && current.generation < world.next
      requires current.forward in Desired(reverseTunnels, current.host)
      modifies `reverseTunnels, `world, `setbacks
      ensures Valid() && current.generation < world.next
      ensures setbacks == old(setbacks) + if ok then 0 else 1
      ensures ok ==> current in reverseTunnels
      ensures forall k :: !SameForward(k, current) ==> (k in reverseTunnels <==> k in old(reverseTunnels))
      ensures forall h :: Desired(reverseTunnels, h) == Desired(old(reverseTunnels), h)
    {
      if current in reverseTunnels { return true; }
      ok := ArmForward(current.host, current.forward);
      if ok { Remember(current); }
    }

    /** The locked part of `ensure_reverse_tunnel`, after its warm: a hit answers without
        arming again, a miss arms and adds one forward. */
    method EnsureReverse(host: Host, forward: Forward) returns (r: Option<Generation>)
      requires Valid()
      modifies `reverseTunnels, `world, `setbacks
      ensures Valid() && (r.Some? <==> setbacks == old(setbacks))
      ensures r.Some? ==> Key(host, r.value, forward) in reverseTunnels && Real(world, host, r.value, forward)
      ensures r.Some? ==> Desired(reverseTunnels, host) == Desired(old(reverseTunnels), host) + {forward}
      ensures forall h :: h != host || r.None? ==> Desired(reverseTunnels, h) == Desired(old(reverseTunnels), h)
    {
      var probed := ProbeGeneration(host);
      if probed.None? { return None; }
      var key := Key(host, probed.value, forward);
      if key in reverseTunnels {
        assert forward in Desired(reverseTunnels, host);
        return probed;
      }
      var bound := ArmForward(host, forward);
      if !bound { return None; }
      Remember(key);
      return probed;
    }

    /** `ssh_close_control_masters`, which may fail. */
    method CloseMasters(host: Host) returns (ok: bool)
      requires Valid()
      modifies `world, `setbacks
      ensures Valid() && (ok ==> host !in world.live)
      ensures setbacks == old(setbacks) + if ok then 0 else 1
    {
      MastersChange();
      ok := *;
      if ok {
        DieEvolves(world, host);
        CacheFollows(world, Died(world, host), reverseTunnels);
        world := Died(world, host);
      } else {
        setbacks := setbacks + 1;
      }
    }

    /** `invalidate_ssh_control_masters`: the masters go, what is desired stays. */
    method Invalidate(host: Host) returns (ok: bool)
      requires Valid()
      modifies `world, `setbacks
      ensures Valid() && (ok ==> host !in world.live) && (ok <==> setbacks == old(setbacks))
    {
      ok := CloseMasters(host);
    }

    /** `discard_ssh_control_state`. */
    method Discard(host: Host)
      requires Valid()
      modifies `reverseTunnels, `legacyRetired
      ensures Valid()
      ensures forall k :: k in reverseTunnels <==> k in old(reverseTunnels) && k.host != host
      ensures legacyRetired == old(legacyRetired) - {host}
    {
      reverseTunnels := set k | k in reverseTunnels && k.host != host;
      legacyRetired := legacyRetired - {host};
    }

    /** `forget_ssh_control_masters`: a failure to close leaves the bookkeeping alone. */
    method Forget(host: Host) returns (ok: bool)
      requires Valid()
      modifies `reverseTunnels, `legacyRetired, `world, `setbacks
      ensures Valid() && (ok ==> host !in world.live) && (ok <==> setbacks == old(setbacks))
      ensures ok ==> forall k :: k in reverseTunnels <==> k in old(reverseTunnels) && k.host != host
      ensures legacyRetired == if ok then old(legacyRetired) - {host} else old(legacyRetired)
      ensures !ok ==> reverseTunnels == old(reverseTunnels)
    {
      ok := CloseMasters(host);
      if ok { Discard(host); }
    }

    /** Is this revision of the host's record marked as done? */
    predicate Marked(host: Host, revision: int)
      reads `legacyRetired
    {
      host in legacyRetired && legacyRetired[host] == revision
    }

    /** `retire_legacy_ssh_masters_once`: once per revision of the host's record. A host that
        is not marked with it loses its legacy masters, unless that fails; then it is not
        marked and the next call tries again. */
    method RetireLegacyOnce(host: Host, revision: int) returns (ok: bool)
      modifies `legacyRetired, `legacyUp, `setbacks
      ensures if old(Marked(host, revision)) then ok && legacyUp == old(legacyUp)
              else legacyUp == old(legacyUp) - if ok then {host} else {}
      ensures legacyRetired == if ok then old(legacyRetired)[host := revision] else old(legacyRetired)
      ensures ok <==> setbacks == old(setbacks)
    {
      if host in legacyRetired && legacyRetired[host] == revision {
        assert legacyRetired == legacyRetired[host := revision];
        return true;
      }
      ok := *;
      if ok {
        legacyUp := legacyUp - {host};
        legacyRetired := legacyRetired[host := revision];
      } else {
        setbacks := setbacks + 1;
      }
    }
  }
}
