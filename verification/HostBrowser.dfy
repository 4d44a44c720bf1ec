/** Host-resident browsers: the registry of bridges keyed by worktree slug, the per-host
    lease, and host rows that change underneath (crates/agentum-server/src/host_browser.rs). */
module HostBrowser {
  import opened Basics

  type HostId = nat

  type Slug = string

  type Generation = nat

  datatype Destination = Local | Ssh(user: string, hostname: string, port: nat)

  datatype Entry = Entry(generation: Generation, host: HostId, destination: Destination, hasStore: bool)

  datatype Kind = Stop | Status | Navigate | Screencast

  /** One request, by how far it has got. From `Leased` on it holds the lease of its host,
      except when it is `Outdated`: then it has found the host gone or changed and given the
      lease back. `at` is the destination of the host it resolved. */
  datatype Task =
    | Starting(host: HostId, at: Destination, slug: Slug)
    | Looked(kind: Kind, slug: Slug, entry: Entry)
    | Leased(kind: Kind, slug: Slug, entry: Entry)
    | Resolved(kind: Kind, slug: Slug, entry: Entry, at: Destination)
    | Checked(kind: Kind, slug: Slug, entry: Entry, at: Destination)
    | Forgotten(slug: Slug, entry: Entry, at: Destination)
    | Outdated(slug: Slug, entry: Entry)
    | Mutating(host: HostId, at: Destination)
    | Retiring(host: HostId, at: Destination, todo: map<Slug, Entry>)

  /** A tmux kill or a probe sent to `at` on account of `entry`; `registered` is the start
      that last registered the browser living there. */
  datatype Touch = Touch(slug: Slug, entry: Entry, at: Destination, registered: Option<Generation>)

  datatype State = State(
    rows: map<HostId, Destination>,
    registry: map<Slug, Entry>,
    latest: map<(Destination, Slug), Generation>,
    next: Generation,
    tasks: map<nat, Task>,
    touches: seq<Touch>)

  datatype Action =
    | CreateHost(host: HostId, destination: Destination)
    | BeginStart(t: nat, host: HostId, slug: Slug)
    | Register(t: nat, hasStore: bool)
    | Lookup(t: nat, kind: Kind, slug: Slug)
    | TakeLease(t: nat)
    | Resolve(t: nat)
    | CheckSame(t: nat)
    | ForgetToStop(t: nat)
    | ForgetOutdated(t: nat)
    | SendTouch(t: nat)
    | BeginMutation(t: nat, host: HostId)
    | Snapshot(t: nat)
    | RetireKill(t: nat, slug: Slug)
    | RetireForget(t: nat, slug: Slug)
    | Commit(t: nat, row: Option<Destination>)
    | Leave(t: nat)

  const START := State(map[], map[], map[], 0, map[], [])

  // ---------- the code's small decisions ----------

  /** `forget_if_same`'s and `is_same_entry`'s comparison: by generation only. */
  predicate Same(registry: map<Slug, Entry>, slug: Slug, expected: Entry) {
    slug in registry && registry[slug].generation == expected.generation
  }

  function Forget(registry: map<Slug, Entry>, slug: Slug, expected: Entry): map<Slug, Entry> {
    if Same(registry, slug, expected) then registry - {slug} else registry
  }

  datatype Resolution = Fresh(at: Destination) | Stale | Refused

  /** `resolve_current_host`, under the lease. */
  function ResolveHost(rows: map<HostId, Destination>, e: Entry): Resolution {
    if !e.hasStore then (if e.destination == Local then Fresh(Local) else Refused)
    else if e.host !in rows then Stale
    else if rows[e.host] != e.destination then Stale
    else Fresh(rows[e.host])
  }

  // ---------- steps ----------

  function Lease(task: Task): Option<HostId> {
    match task
    case Starting(h, _, _) => Some(h)
    case Looked(_, _, _) => None
    case Leased(_, _, e) => Some(e.host)
    case Resolved(_, _, e, _) => Some(e.host)
    case Checked(_, _, e, _) => Some(e.host)
    case Forgotten(_, e, _) => Some(e.host)
    case Outdated(_, _) => None
    case Mutating(h, _) => Some(h)
    case Retiring(h, _, _) => Some(h)
  }

  predicate LeaseFree(s: State, host: HostId) {
    forall t :: t in s.tasks ==> Lease(s.tasks[t]) != Some(host)
  }

  /** Saved hosts are distinct endpoints. */
  predicate NewEndpoint(s: State, host: HostId, destination: Destination) {
    forall h :: h in s.rows && h != host ==> s.rows[h] != destination
  }

  predicate Enabled(s: State, act: Action) {
    match act
    case CreateHost(h, d) => h !in s.rows && NewEndpoint(s, h, d)
    case BeginStart(t, h, _) => t !in s.tasks && h in s.rows && LeaseFree(s, h)
    case Register(t, _) => t in s.tasks && s.tasks[t].Starting?
    case Lookup(t, _, slug) => t !in s.tasks && slug in s.registry
    case TakeLease(t) => t in s.tasks && s.tasks[t].Looked? && LeaseFree(s, s.tasks[t].entry.host)
    case Resolve(t) => t in s.tasks && s.tasks[t].Leased?
    case CheckSame(t) => t in s.tasks && s.tasks[t].Resolved? && s.tasks[t].kind != Stop
    case ForgetToStop(t) => t in s.tasks && s.tasks[t].Resolved? && s.tasks[t].kind == Stop
    case ForgetOutdated(t) => t in s.tasks && s.tasks[t].Outdated?
    case SendTouch(t) => t in s.tasks && (s.tasks[t].Checked? || s.tasks[t].Forgotten?)
    case BeginMutation(t, h) => t !in s.tasks && h in s.rows && s.rows[h] != Local && LeaseFree(s, h)
    case Snapshot(t) => t in s.tasks && s.tasks[t].Mutating?
    case RetireKill(t, slug) =>
      && t in s.tasks && s.tasks[t].Retiring? && slug in s.tasks[t].todo
      && s.tasks[t].todo[slug].destination == s.tasks[t].at
    case RetireForget(t, slug) => t in s.tasks && s.tasks[t].Retiring? && slug in s.tasks[t].todo
    case Commit(t, row) =>
      && t in s.tasks && s.tasks[t].Retiring? && s.tasks[t].todo == map[]
      && (row.Some? ==> row.value != Local && NewEndpoint(s, s.tasks[t].host, row.value))
    case Leave(t) => t in s.tasks
  }

  function Goto(s: State, t: nat, task: Task): State {
    s.(tasks := s.tasks[t := task])
  }

  function Done(s: State, t: nat): State {
    s.(tasks := s.tasks - {t})
  }

  function Touched(s: State, slug: Slug, e: Entry, at: Destination): State {
    var registered := if (at, slug) in s.latest then Some(s.latest[(at, slug)]) else None;
    s.(touches := s.touches + [Touch(slug, e, at, registered)])
  }

  function EntriesOf(registry: map<Slug, Entry>, host: HostId): map<Slug, Entry> {
    map slug | slug in registry && registry[slug].host == host :: registry[slug]
  }

  function Do(s: State, act: Action): State
    requires Enabled(s, act)
  {
    match act
    case CreateHost(h, d) => s.(rows := s.rows[h := d])
    case BeginStart(t, h, slug) => Goto(s, t, Starting(h, s.rows[h], slug))
    case Register(t, hasStore) => Registered(s, t, hasStore)
    case Lookup(t, kind, slug) => Goto(s, t, Looked(kind, slug, s.registry[slug]))
    case TakeLease(t) => Goto(s, t, Leased(s.tasks[t].kind, s.tasks[t].slug, s.tasks[t].entry))
    case Resolve(t) => ResolvedTask(s, t)
    case CheckSame(t) =>
      var k := s.tasks[t];
      if Same(s.registry, k.slug, k.entry) then Goto(s, t, Checked(k.kind, k.slug, k.entry, k.at)) else Done(s, t)
    case ForgetToStop(t) =>
      var k := s.tasks[t];
      if Same(s.registry, k.slug, k.entry)
      then Goto(s, t, Forgotten(k.slug, k.entry, k.at)).(registry := s.registry - {k.slug})
      else Done(s, t)
    case ForgetOutdated(t) => Done(s, t).(registry := Forget(s.registry, s.tasks[t].slug, s.tasks[t].entry))
    case SendTouch(t) => Touched(s, s.tasks[t].slug, s.tasks[t].entry, s.tasks[t].at)
    case BeginMutation(t, h) => Goto(s, t, Mutating(h, s.rows[h]))
    case Snapshot(t) =>
      Goto(s, t, Retiring(s.tasks[t].host, s.tasks[t].at, EntriesOf(s.registry, s.tasks[t].host)))
    case RetireKill(t, slug) => Touched(s, slug, s.tasks[t].todo[slug], s.tasks[t].at)
    case RetireForget(t, slug) =>
      var k := s.tasks[t];
      Goto(s, t, k.(todo := k.todo - {slug})).(registry := Forget(s.registry, slug, k.todo[slug]))
    case Commit(t, row) =>
      Done(s, t).(rows := if row.Some? then s.rows[s.tasks[t].host := row.value] else s.rows - {s.tasks[t].host})
    case Leave(t) => Done(s, t)
  }

  function Registered(s: State, t: nat, hasStore: bool): State
    requires t in s.tasks && s.tasks[t].Starting?
  {
    var k := s.tasks[t];
    Done(s, t).(
      registry := s.registry[k.slug := Entry(s.next, k.host, k.at, hasStore)],
      latest := s.latest[(k.at, k.slug) := s.next],
      next := s.next + 1)
  }

  function ResolvedTask(s: State, t: nat): State
    requires t in s.tasks && s.tasks[t].Leased?
  {
    var k := s.tasks[t];
    match ResolveHost(s.rows, k.entry)
    case Fresh(at) => Goto(s, t, Resolved(k.kind, k.slug, k.entry, at))
    case Stale => Goto(s, t, Outdated(k.slug, k.entry))
    case Refused => Done(s, t)
  }

  ghost predicate Run(s: State, acts: seq<Action>, t: State)
    decreases |acts|
  {
    if acts == [] then s == t
    else Enabled(s, acts[0]) && Run(Do(s, acts[0]), acts[1..], t)
  }

  // ---------- the invariant ----------

  predicate RowIs(s: State, host: HostId, d: Destination) {
    host in s.rows && s.rows[host] == d
  }

  predicate LatestIs(s: State, d: Destination, slug: Slug, g: Generation) {
    (d, slug) in s.latest && s.latest[(d, slug)] == g
  }

  /** A registered bridge is on its host's current destination, and is the last one
      registered there for its slug. */
  predicate EntryOk(s: State, slug: Slug, e: Entry) {
    e.generation < s.next && RowIs(s, e.host, e.destination) && LatestIs(s, e.destination, slug, e.generation)
  }

  /** A copy of an entry, taken some time ago. */
  predicate CopyOk(s: State, slug: Slug, e: Entry) {
    && e.generation < s.next
    && (Same(s.registry, slug, e) ==> s.registry[slug] == e)
    && (e.destination == Local ==> RowIs(s, e.host, Local))
  }

  predicate TodoOk(s: State, host: HostId, at: Destination, slug: Slug, e: Entry) {
    && e.host == host && e.destination == at && e.generation < s.next && LatestIs(s, at, slug, e.generation)
    && (Same(s.registry, slug, e) ==> s.registry[slug] == e)
  }

  ghost predicate TaskOk(s: State, task: Task) {
    match task
    case Starting(h, at, _) => RowIs(s, h, at)
    case Looked(_, slug, e) => CopyOk(s, slug, e)
    case Leased(_, slug, e) => CopyOk(s, slug, e)
    case Resolved(_, slug, e, at) => CopyOk(s, slug, e) && at == e.destination && RowIs(s, e.host, at)
    case Checked(_, slug, e, at) =>
      at == e.destination && RowIs(s, e.host, at) && LatestIs(s, at, slug, e.generation)
    case Forgotten(slug, e, at) =>
      at == e.destination && RowIs(s, e.host, at) && LatestIs(s, at, slug, e.generation)
    case Outdated(slug, e) => e.generation < s.next && !Same(s.registry, slug, e)
    case Mutating(h, at) => RowIs(s, h, at) && at != Local
    case Retiring(h, at, todo) =>
      && RowIs(s, h, at) && at != Local
      && (forall slug :: slug in todo ==> TodoOk(s, h, at, slug, todo[slug]))
      && (forall slug :: slug in s.registry && s.registry[slug].host == h ==>
            slug in todo && todo[slug] == s.registry[slug])
  }

  predicate TouchOk(touch: Touch) {
    touch.at == touch.entry.destination && touch.registered == Some(touch.entry.generation)
  }

  ghost predicate RowsDistinct(s: State) {
    forall h, i :: h in s.rows && i in s.rows && s.rows[h] == s.rows[i] ==> h == i
  }

  predicate SameLease(k: Task, l: Task) {
    Lease(k).Some? && Lease(k) == Lease(l)
  }

  ghost predicate LeasesExclusive(s: State) {
    forall t, u :: t in s.tasks && u in s.tasks && SameLease(s.tasks[t], s.tasks[u]) ==> t == u
  }

  ghost predicate Inv(s: State) {
    && RowsDistinct(s)
    && LeasesExclusive(s)
    && (forall slug :: slug in s.registry ==> EntryOk(s, slug, s.registry[slug]))
    && (forall t :: t in s.tasks ==> TaskOk(s, s.tasks[t]))
    && (forall i :: 0 <= i < |s.touches| ==> TouchOk(s.touches[i]))
  }

  /** A task inside another host's lease, or outside any, does not mind a registration. */
  lemma RegisterKeepsTask(s: State, t: nat, hasStore: bool, k: Task)
    requires t in s.tasks && s.tasks[t].Starting? && TaskOk(s, s.tasks[t]) && RowsDistinct(s)
    requires TaskOk(s, k) && Lease(k) != Some(s.tasks[t].host)
    ensures TaskOk(Registered(s, t, hasStore), k)
  {
    var after, slug := Registered(s, t, hasStore), s.tasks[t].slug;
    if k.Retiring? {
      forall other | other in k.todo ensures TodoOk(after, k.host, k.at, other, k.todo[other]) {
        assert TodoOk(s, k.host, k.at, other, k.todo[other]);
      }
    }
  }

  lemma RegisterKeepsInv(s: State, t: nat, hasStore: bool)
    requires Inv(s) && Enabled(s, Register(t, hasStore))
    ensures Inv(Registered(s, t, hasStore))
  {
    var after, k := Registered(s, t, hasStore), s.tasks[t];
    assert TaskOk(s, k);
    forall u | u in after.tasks ensures TaskOk(after, after.tasks[u]) {
      RegisterKeepsTask(s, t, hasStore, s.tasks[u]);
    }
    forall slug | slug in after.registry ensures EntryOk(after, slug, after.registry[slug]) {
      assert slug != k.slug ==> EntryOk(s, slug, s.registry[slug]);
    }
  }

  /** A change of one host's row leaves the tasks of other hosts, and those waiting, alone. */
  lemma RowChangeKeepsTask(s: State, after: State, host: HostId, k: Task)
    requires after.registry == s.registry && after.latest == s.latest && after.next == s.next
    requires host in s.rows && s.rows[host] != Local
    requires forall h, d :: h != host && RowIs(s, h, d) ==> RowIs(after, h, d)
    requires TaskOk(s, k) && Lease(k) != Some(host)
    ensures TaskOk(after, k)
  {
    if k.Retiring? {
      forall other | other in k.todo ensures TodoOk(after, k.host, k.at, other, k.todo[other]) {
        assert TodoOk(s, k.host, k.at, other, k.todo[other]);
      }
    }
  }

  lemma CommitKeepsInv(s: State, t: nat, row: Option<Destination>)
    requires Inv(s) && Enabled(s, Commit(t, row))
    ensures Inv(Do(s, Commit(t, row)))
  {
    var after, k := Do(s, Commit(t, row)), s.tasks[t];
    assert TaskOk(s, k);
    forall u | u in after.tasks ensures TaskOk(after, after.tasks[u]) {
      RowChangeKeepsTask(s, after, k.host, s.tasks[u]);
    }
    forall slug | slug in after.registry ensures EntryOk(after, slug, after.registry[slug]) {
      assert EntryOk(s, slug, s.registry[slug]);
    }
  }

  /** Entries only leave the registry, and one task moves on. */
  lemma ShrinkKeepsInv(s: State, after: State, t: nat)
    requires Inv(s)
    requires after.rows == s.rows && after.latest == s.latest && after.next == s.next && after.touches == s.touches
    requires forall slug :: slug in after.registry ==> slug in s.registry && after.registry[slug] == s.registry[slug]
    requires forall u :: u in after.tasks && u != t ==> u in s.tasks && after.tasks[u] == s.tasks[u]
    requires t in after.tasks ==>
      TaskOk(after, after.tasks[t])
      && (Lease(after.tasks[t]).Some? ==>
            (t in s.tasks && Lease(after.tasks[t]) == Lease(s.tasks[t])) || LeaseFree(s, Lease(after.tasks[t]).value))
    ensures Inv(after)
  {
    forall u | u in after.tasks ensures TaskOk(after, after.tasks[u]) {
      if u != t {
        assert TaskOk(s, s.tasks[u]);
      }
    }
    forall slug | slug in after.registry ensures EntryOk(after, slug, after.registry[slug]) {
      assert EntryOk(s, slug, s.registry[slug]);
    }
  }

  lemma TouchKeepsInv(s: State, slug: Slug, e: Entry, at: Destination)
    requires Inv(s) && at == e.destination && LatestIs(s, at, slug, e.generation)
    ensures Inv(Touched(s, slug, e, at))
  {
    var after := Touched(s, slug, e, at);
    forall u | u in after.tasks ensures TaskOk(after, after.tasks[u]) {
      assert TaskOk(s, s.tasks[u]);
    }
    forall slug | slug in after.registry ensures EntryOk(after, slug, after.registry[slug]) {
      assert EntryOk(s, slug, s.registry[slug]);
    }
  }

  lemma CreateKeepsInv(s: State, h: HostId, d: Destination)
    requires Inv(s) && Enabled(s, CreateHost(h, d))
    ensures Inv(Do(s, CreateHost(h, d)))
  {
    var after := Do(s, CreateHost(h, d));
    forall u | u in after.tasks ensures TaskOk(after, after.tasks[u]) {
      assert TaskOk(s, s.tasks[u]);
    }
    forall slug | slug in after.registry ensures EntryOk(after, slug, after.registry[slug]) {
      assert EntryOk(s, slug, s.registry[slug]);
    }
  }

  lemma StepKeepsInv(s: State, act: Action)
    requires Inv(s) && Enabled(s, act)
    ensures Inv(Do(s, act))
  {
    match act
    case CreateHost(h, d) => CreateKeepsInv(s, h, d);
    case Register(t, hasStore) => RegisterKeepsInv(s, t, hasStore);
    case Commit(t, row) => CommitKeepsInv(s, t, row);
    case SendTouch(t) =>
      assert TaskOk(s, s.tasks[t]);
      TouchKeepsInv(s, s.tasks[t].slug, s.tasks[t].entry, s.tasks[t].at);
    case RetireKill(t, slug) =>
      assert TaskOk(s, s.tasks[t]);
      TouchKeepsInv(s, slug, s.tasks[t].todo[slug], s.tasks[t].at);
    case BeginStart(_, _, _) => BeginKeepsInv(s, act);
    case BeginMutation(_, _) => BeginKeepsInv(s, act);
    case Lookup(_, _, _) => BeginKeepsInv(s, act);
    case Snapshot(t) => SnapshotKeepsInv(s, t);
    case RetireForget(t, slug) => RetireForgetKeepsInv(s, t, slug);
    case Resolve(t) => ResolveKeepsInv(s, t);
    case CheckSame(_) => CompareKeepsInv(s, act);
    case ForgetToStop(_) => CompareKeepsInv(s, act);
    case ForgetOutdated(_) => LeaseKeepsInv(s, act);
    case TakeLease(_) => LeaseKeepsInv(s, act);
    case Leave(_) => LeaseKeepsInv(s, act);
  }

  lemma BeginKeepsInv(s: State, act: Action)
    requires Inv(s) && Enabled(s, act) && (act.BeginStart? || act.BeginMutation? || act.Lookup?)
    ensures Inv(Do(s, act))
  {
    assert act.Lookup? ==> EntryOk(s, act.slug, s.registry[act.slug]);
    ShrinkKeepsInv(s, Do(s, act), act.t);
  }

  lemma LeaseKeepsInv(s: State, act: Action)
    requires Inv(s) && Enabled(s, act) && (act.TakeLease? || act.Leave? || act.ForgetOutdated?)
    ensures Inv(Do(s, act))
  {
    assert TaskOk(s, s.tasks[act.t]);
    ShrinkKeepsInv(s, Do(s, act), act.t);
  }

  lemma SnapshotKeepsInv(s: State, t: nat)
    requires Inv(s) && Enabled(s, Snapshot(t))
    ensures Inv(Do(s, Snapshot(t)))
  {
    var k := s.tasks[t];
    assert TaskOk(s, k);
    forall slug | slug in EntriesOf(s.registry, k.host)
      ensures TodoOk(s, k.host, k.at, slug, s.registry[slug]) {
      assert EntryOk(s, slug, s.registry[slug]);
    }
    ShrinkKeepsInv(s, Do(s, Snapshot(t)), t);
  }

  lemma RetireForgetKeepsInv(s: State, t: nat, slug: Slug)
    requires Inv(s) && Enabled(s, RetireForget(t, slug))
    ensures Inv(Do(s, RetireForget(t, slug)))
  {
    var k, after := s.tasks[t], Do(s, RetireForget(t, slug));
    assert TaskOk(s, k) && TodoOk(s, k.host, k.at, slug, k.todo[slug]);
    forall other | other in after.tasks[t].todo
      ensures TodoOk(after, k.host, k.at, other, k.todo[other]) {
      assert TodoOk(s, k.host, k.at, other, k.todo[other]);
    }
    assert TaskOk(after, after.tasks[t]);
    ShrinkKeepsInv(s, after, t);
  }

  /** A copy whose host is gone or changed is of no bridge that is registered. */
  lemma ResolvedOk(s: State, k: Task)
    requires Inv(s) && k.Leased? && TaskOk(s, k)
    ensures match ResolveHost(s.rows, k.entry)
      case Fresh(at) => TaskOk(s, Resolved(k.kind, k.slug, k.entry, at))
      case Stale => TaskOk(s, Outdated(k.slug, k.entry))
      case Refused => true
  {
    if Same(s.registry, k.slug, k.entry) {
      RegisteredIsCurrent(s, k.slug, k.entry);
    }
  }

  lemma ResolveKeepsInv(s: State, t: nat)
    requires Inv(s) && Enabled(s, Resolve(t))
    ensures Inv(Do(s, Resolve(t)))
  {
    var after := ResolvedTask(s, t);
    assert t in after.tasks ==> TaskOk(after, after.tasks[t]) by {
      ResolvedOk(s, s.tasks[t]);
    }
    ShrinkKeepsInv(s, after, t);
  }

  lemma CompareKeepsInv(s: State, act: Action)
    requires Inv(s) && Enabled(s, act) && (act.CheckSame? || act.ForgetToStop?)
    ensures Inv(Do(s, act))
  {
    var k := s.tasks[act.t];
    assert TaskOk(s, k);
    if Same(s.registry, k.slug, k.entry) {
      assert EntryOk(s, k.slug, s.registry[k.slug]);
    }
    ShrinkKeepsInv(s, Do(s, act), act.t);
  }

  lemma {:induction false} RunKeepsInv(s: State, acts: seq<Action>, t: State)
    requires Inv(s) && Run(s, acts, t)
    ensures Inv(t)
    decreases |acts|
  {
    if acts != [] {
      StepKeepsInv(s, acts[0]);
      RunKeepsInv(Do(s, acts[0]), acts[1..], t);
    }
  }

  // ---------- what the invariant gives ----------

  /** In every interleaving, each kill and probe made on account of an entry goes to that
      entry's own destination, where no later start has registered a browser for the slug. */
  lemma TouchesOnlyItsOwn(acts: seq<Action>, s: State, i: nat)
    requires Run(START, acts, s) && i < |s.touches|
    ensures s.touches[i].at == s.touches[i].entry.destination
    ensures s.touches[i].registered == Some(s.touches[i].entry.generation)
  {
    RunKeepsInv(START, acts, s);
    assert TouchOk(s.touches[i]);
  }

  /** The registry never holds a bridge whose host is gone or has moved: an outdated copy
      is met by requests only. What such a request forgets, after it has given the lease
      back and whatever was registered meanwhile, is nothing. */
  lemma RegistryIsCurrent(acts: seq<Action>, s: State, slug: Slug)
    requires Run(START, acts, s)
    ensures slug in s.registry ==> RowIs(s, s.registry[slug].host, s.registry[slug].destination)
    ensures forall t :: Enabled(s, ForgetOutdated(t)) ==> Do(s, ForgetOutdated(t)).registry == s.registry
  {
    RunKeepsInv(START, acts, s);
    assert slug in s.registry ==> EntryOk(s, slug, s.registry[slug]);
    forall t | Enabled(s, ForgetOutdated(t)) ensures Do(s, ForgetOutdated(t)).registry == s.registry {
      assert TaskOk(s, s.tasks[t]);
    }
  }

  lemma RegisteredIsCurrent(s: State, slug: Slug, e: Entry)
    requires Inv(s) && CopyOk(s, slug, e) && Same(s.registry, slug, e)
    ensures RowIs(s, e.host, e.destination)
  {
    assert EntryOk(s, slug, s.registry[slug]);
  }

  /** When a host's row is about to change, no bridge of that host is registered. */
  lemma RetiredBeforeCommit(acts: seq<Action>, s: State, t: nat, row: Option<Destination>, slug: Slug)
    requires Run(START, acts, s) && Enabled(s, Commit(t, row)) && slug in s.registry
    ensures s.registry[slug].host != s.tasks[t].host
  {
    RunKeepsInv(START, acts, s);
    assert TaskOk(s, s.tasks[t]);
  }

  /** And retiring takes nobody else's bridge, even one that took over the slug meanwhile. */
  lemma RetireSparesOthers(acts: seq<Action>, s: State, t: nat, slug: Slug, other: Slug)
    requires Run(START, acts, s) && Enabled(s, RetireForget(t, slug))
    requires other in s.registry && s.registry[other].host != s.tasks[t].host
    ensures other in Do(s, RetireForget(t, slug)).registry
    ensures Do(s, RetireForget(t, slug)).registry[other] == s.registry[other]
  {
    RunKeepsInv(START, acts, s);
    var k := s.tasks[t];
    assert TaskOk(s, k) && TodoOk(s, k.host, k.at, slug, k.todo[slug]);
  }

  // ---------- the registry and the retirement of a host's bridges, in place ----------

  // ---------- requests that go through ----------

  predicate Resolvable(e: Entry) {
    e.hasStore || e.destination == Local
  }

  predicate Goes(s: State, a: Action, b: Action, c: Action) {
    Enabled(s, a) && Enabled(Do(s, a), b) && Enabled(Do(Do(s, a), b), c)
  }

  function Afterwards(s: State, a: Action, b: Action, c: Action): State
    requires Goes(s, a, b, c)
  {
    Do(Do(Do(s, a), b), c)
  }

  /** Under the lease the host of a registered launch resolves at the bridge's destination. */
  lemma RegisteredResolves(s: State, t: nat, kind: Kind, slug: Slug, e: Entry)
    requires Inv(s) && t in s.tasks && s.tasks[t] == Leased(kind, slug, e) && Same(s.registry, slug, e)
    ensures s.registry[slug] == e && LatestIs(s, e.destination, slug, e.generation)
    ensures Do(s, Resolve(t))
         == if Resolvable(e) then Goto(s, t, Resolved(kind, slug, e, e.destination)) else Done(s, t)
  {
    assert TaskOk(s, s.tasks[t]);
    assert EntryOk(s, slug, s.registry[slug]);
  }

  lemma OtherwiseStops(s: State, t: nat, kind: Kind, slug: Slug, e: Entry)
    requires t in s.tasks && s.tasks[t] == Leased(kind, slug, e) && !(Resolvable(e) && Same(s.registry, slug, e))
    ensures !Goes(s, Resolve(t), ForgetToStop(t), SendTouch(t)) && !Goes(s, Resolve(t), CheckSame(t), SendTouch(t))
  {
    var s1 := Do(s, Resolve(t));
    assert s1.registry == s.registry && (t in s1.tasks && s1.tasks[t].Resolved? ==> s1.tasks[t].entry == e && Resolvable(e));
  }

  lemma StopGoes(s: State, t: nat, slug: Slug, e: Entry)
    requires t in s.tasks && Same(s.registry, slug, e) && LatestIs(s, e.destination, slug, e.generation)
    requires s.tasks[t] == Resolved(Stop, slug, e, e.destination)
    ensures Enabled(s, ForgetToStop(t)) && Enabled(Do(s, ForgetToStop(t)), SendTouch(t))
    ensures Do(Do(s, ForgetToStop(t)), SendTouch(t)).registry == s.registry - {slug}
    ensures Do(Do(s, ForgetToStop(t)), SendTouch(t)).touches
         == s.touches + [Touch(slug, e, e.destination, Some(e.generation))]
  {
  }

  lemma ProbeGoes(s: State, t: nat, kind: Kind, slug: Slug, e: Entry)
    requires t in s.tasks && kind != Stop && Same(s.registry, slug, e) && LatestIs(s, e.destination, slug, e.generation)
    requires s.tasks[t] == Resolved(kind, slug, e, e.destination)
    ensures Enabled(s, CheckSame(t)) && Enabled(Do(s, CheckSame(t)), SendTouch(t))
    ensures Do(Do(s, CheckSame(t)), SendTouch(t)).registry == s.registry
    ensures Do(Do(s, CheckSame(t)), SendTouch(t)).touches
         == s.touches + [Touch(slug, e, e.destination, Some(e.generation))]
  {
  }

  /** A stop that holds the lease of its bridge's host gets as far as its kill exactly when
      its entry is still the registered launch and can be resolved; then the bridge is
      forgotten and its own destination gets the kill. */
  lemma StopKillsIff(s: State, t: nat, slug: Slug, e: Entry)
    requires Inv(s) && t in s.tasks && s.tasks[t] == Leased(Stop, slug, e)
    ensures Goes(s, Resolve(t), ForgetToStop(t), SendTouch(t)) <==> Resolvable(e) && Same(s.registry, slug, e)
    ensures Goes(s, Resolve(t), ForgetToStop(t), SendTouch(t)) ==>
      var after := Afterwards(s, Resolve(t), ForgetToStop(t), SendTouch(t));
      && after.registry == s.registry - {slug}
      && after.touches == s.touches + [Touch(slug, e, e.destination, Some(e.generation))]
  {
    if Resolvable(e) && Same(s.registry, slug, e) {
      RegisteredResolves(s, t, Stop, slug, e);
      StopGoes(Do(s, Resolve(t)), t, slug, e);
    } else {
      OtherwiseStops(s, t, Stop, slug, e);
    }
  }

  /** Any other request gets as far as its probe under the same condition; then the probe
      goes to the bridge's own destination, and the registry stays. */
  lemma ProbeIff(s: State, t: nat, kind: Kind, slug: Slug, e: Entry)
    requires Inv(s) && t in s.tasks && s.tasks[t] == Leased(kind, slug, e) && kind != Stop
    ensures Goes(s, Resolve(t), CheckSame(t), SendTouch(t)) <==> Resolvable(e) && Same(s.registry, slug, e)
    ensures Goes(s, Resolve(t), CheckSame(t), SendTouch(t)) ==>
      var after := Afterwards(s, Resolve(t), CheckSame(t), SendTouch(t));
      && after.registry == s.registry
      && after.touches == s.touches + [Touch(slug, e, e.destination, Some(e.generation))]
  {
    if Resolvable(e) && Same(s.registry, slug, e) {
      RegisteredResolves(s, t, kind, slug, e);
      ProbeGoes(Do(s, Resolve(t)), t, kind, slug, e);
    } else {
      OtherwiseStops(s, t, kind, slug, e);
    }
  }

  /** The static registry. The lease of `host` is held by the caller of `Retire` throughout,
      so others may at any point register bridges of other hosts and forget any bridge, but
      register none of `host`. */
  class Bridges {
    var entries: map<Slug, Entry>
    var next: Generation
    /** What retiring has sent kills for, and what it has taken out. */
    var killed: seq<(Entry, Destination)>
    var forgotten: set<(Slug, Entry)>
    /** How many kills failed. */
    ghost var failures: nat

    ghost predicate Valid()
      reads `entries, `next
    {
      forall slug :: slug in entries ==> entries[slug].generation < next
    }

    constructor ()
      ensures Valid() && entries == map[] && killed == [] && forgotten == {} && failures == 0
    {
      entries, next, killed, forgotten, failures := map[], 0, [], {}, 0;
    }

    /** The end of `start_host_browser_inner`: no copy of an entry made before is taken for
        the new one, so a request that still holds one neither touches nor forgets it. */
    method Register(slug: Slug, host: HostId, at: Destination, hasStore: bool)
      requires Valid()
      modifies `entries, `next
      ensures Valid() && entries == old(entries)[slug := Entry(old(next), host, at, hasStore)]
      ensures next > old(next)
      ensures forall e: Entry :: e.generation < old(next) ==> Forget(entries, slug, e) == entries
    {
      entries := entries[slug := Entry(next, host, at, hasStore)];
      next := next + 1;
    }

    method ForgetIfSame(slug: Slug, expected: Entry) returns (same: bool)
      requires Valid()
      modifies `entries
      ensures Valid() && same == Same(old(entries), slug, expected)
      ensures entries == if same then old(entries) - {slug} else old(entries)
    {
      same := slug in entries && entries[slug].generation == expected.generation;
      if same { entries := entries - {slug}; }
    }

    method Others(host: HostId)
      requires Valid()
      modifies `entries, `next
      ensures Valid() && next >= old(next) && ByOthers(old(entries), old(next), entries, host)
    {
      var n :| 0 <= n;
      for _ := 0 to n
        invariant Valid() && next >= old(next) && ByOthers(old(entries), old(next), entries, host)
      {
        var slug: Slug, other: HostId, at: Destination, registers: bool := *, *, *, *;
        if registers && other != host {
          Register(slug, other, at, true);
        } else if slug in entries {
          var _ := ForgetIfSame(slug, entries[slug]);
        }
      }
    }

    /** The kill, where the destination still matches. */
    method KillOne(entry: Entry, destination: Destination) returns (ok: bool)
      requires Valid()
      modifies `entries, `next, `killed, `failures
      ensures Valid() && next >= old(next) && ByOthers(old(entries), old(next), entries, entry.host)
      ensures failures == old(failures) + if ok then 0 else 1
      ensures KilledOwn(old(killed), killed, entry.host, destination)
      ensures ok && entry.destination == destination ==> killed == old(killed) + [(entry, destination)]
      ensures entry.destination != destination ==> ok && killed == old(killed)
    {
      ok := true;
      if entry.destination == destination {
        ok := *;
        if ok { killed := killed + [(entry, destination)]; } else { failures := failures + 1; }
      }
      Others(entry.host);
    }

    /** `retire_host_bridges_for_mutation`: unless a kill fails, the host's bridges at its own
        destination are killed and no bridge of the host is left. It kills only there and
        takes out only the host's own bridges, also where somebody else took over a slug
        meanwhile. */
    method Retire(host: HostId, destination: Destination) returns (ok: bool)
      requires Valid()
      modifies this
      ensures Valid()
      ensures ok ==> forall slug :: slug in entries ==> entries[slug].host != host
      ensures ok ==> KilledAll(old(entries), map[], killed, host, destination)
      ensures ok <==> failures == old(failures)
      ensures KilledOwn(old(killed), killed, host, destination)
      ensures forall x :: x in forgotten ==> x in old(forgotten) || x.1.host == host
    {
      var todo := map slug | slug in entries && entries[slug].host == host :: entries[slug];
      while todo != map[]
        invariant Valid() && Pending(entries, next, todo, host)
        invariant KilledOwn(old(killed), killed, host, destination)
        invariant KilledAll(old(entries), todo, killed, host, destination) && failures == old(failures)
        invariant forall slug :: slug in todo ==> slug in old(entries) && todo[slug] == old(entries)[slug]
        invariant forall x :: x in forgotten ==> x in old(forgotten) || x.1.host == host
        decreases |todo|
      {
        var slug :| slug in todo;
        var entry := todo[slug];
        ghost var was := killed;
        ok := RetireOne(slug, entry, todo, destination);
        KilledOwnThen(old(killed), was, killed, host, destination);
        if !ok { return; }
        todo := todo - {slug};
      }
      return true;
    }

    /** One bridge of the snapshot: the kill, then the comparison and the removal. */
    method RetireOne(slug: Slug, entry: Entry, ghost todo: map<Slug, Entry>, destination: Destination) returns (ok: bool)
      requires Valid() && Pending(entries, next, todo, entry.host) && slug in todo && todo[slug] == entry
      modifies this
      ensures Valid() && (ok ==> Pending(entries, next, todo - {slug}, entry.host))
      ensures KilledOwn(old(killed), killed, entry.host, destination)
      ensures ok && entry.destination == destination ==> (entry, destination) in killed
      ensures failures == old(failures) + if ok then 0 else 1
      ensures forgotten == old(forgotten) || forgotten == old(forgotten) + {(slug, entry)}
    {
      ghost var before, limit := entries, next;
      ok := KillOne(entry, destination);
      if !ok { return; }
      PendingAmongOthers(before, limit, entries, next, todo, entry.host);
      var same := ForgetIfSame(slug, entry);
      if same { forgotten := forgotten + {(slug, entry)}; }
      before, limit := entries, next;
      Others(entry.host);
      PendingAmongOthers(before, limit, entries, next, todo - {slug}, entry.host);
    }
  }

  lemma KilledOwnThen(a: seq<(Entry, Destination)>, b: seq<(Entry, Destination)>, c: seq<(Entry, Destination)>,
                      host: HostId, at: Destination)
    requires KilledOwn(a, b, host, at) && KilledOwn(b, c, host, at)
    ensures KilledOwn(a, c, host, at)
  {
  }

  /** What others, without the lease of `host`, may have made of the registry. */
  ghost predicate ByOthers(was: map<Slug, Entry>, wasNext: Generation, entries: map<Slug, Entry>, host: HostId) {
    forall slug :: slug in entries ==>
      (slug in was && entries[slug] == was[slug]) || (entries[slug].host != host && entries[slug].generation >= wasNext)
  }

  /** The host's bridges are all in `todo`, and whatever looks like one there is that one. */
  ghost predicate Pending(entries: map<Slug, Entry>, next: Generation, todo: map<Slug, Entry>, host: HostId) {
    && (forall slug :: slug in todo ==> todo[slug].host == host && todo[slug].generation < next)
    && (forall slug :: slug in entries && entries[slug].host == host ==> slug in todo)
    && (forall slug :: slug in entries && slug in todo ==>
          if entries[slug].host == host then entries[slug] == todo[slug]
          else entries[slug].generation != todo[slug].generation)
  }

  ghost predicate KilledOwn(was: seq<(Entry, Destination)>, now: seq<(Entry, Destination)>, host: HostId, at: Destination) {
    was <= now && forall i :: |was| <= i < |now| ==> now[i].0.host == host && now[i].0.destination == at && now[i].1 == at
  }

  /** The host's bridges at `at`, but for those still to do, have been killed there. */
  ghost predicate KilledAll(was: map<Slug, Entry>, todo: map<Slug, Entry>, killed: seq<(Entry, Destination)>,
                            host: HostId, at: Destination) {
    forall slug :: slug in was && slug !in todo && was[slug].host == host && was[slug].destination == at ==>
      (was[slug], at) in killed
  }

  lemma PendingAmongOthers(was: map<Slug, Entry>, wasNext: Generation, entries: map<Slug, Entry>, next: Generation,
                           todo: map<Slug, Entry>, host: HostId)
    requires Pending(was, wasNext, todo, host) && ByOthers(was, wasNext, entries, host) && wasNext <= next
    ensures Pending(entries, next, todo, host)
  {
  }
}
