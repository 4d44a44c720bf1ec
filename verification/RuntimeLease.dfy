/** The embedded-runtime lease (crates/agentum-server/src/lib.rs): a directory made by
    `mkdir`, an owner record inside it, and recovery of a stale directory by rename. */
module RuntimeLease {
  import opened Basics

  /** Seconds during which a directory without a readable record may not be claimed. */
  const GRACE: nat := 30

  /** The owner file: missing, opened by `a` but not yet complete, or the record of `a`.
      A record names its process by pid and start time, here the process's number. */
  datatype OwnerFile = Absent | Partial(a: nat) | Owned(a: nat)

  /** The lock path. `maker` is bookkeeping: no step looks at it. */
  datatype Dir = NoDir | Dir(owner: OwnerFile, modified: nat, maker: nat)

  /** Where an attempt stands in `acquire_at`, then in `drop`. */
  datatype Phase =
    | Idle | Claiming | Made | Writing | Held
    | CleanFile | CleanDir
    | DropFile | DropDir
    | Gone

  datatype Attempt = Attempt(process: nat, phase: Phase)

  datatype State = State(now: nat, launched: set<nat>, alive: set<nat>, attempts: map<nat, Attempt>, dir: Dir)

  /** `ok` is false where the system call fails. */
  datatype Action =
    | Launch(p: nat)
    | Crash(p: nat)
    | Tick(seconds: nat)
    | Begin(a: nat, process: nat)
    | Make(a: nat)
    | GiveUp(a: nat)
    | CheckStale(a: nat)
    | Rename(a: nat)
    | Open(a: nat, ok: bool)
    | Write(a: nat, written: bool, ok: bool)
    | Compare(a: nat)
    | RemoveFile(a: nat, ok: bool)
    | RemoveDir(a: nat, ok: bool)

  const START := State(0, {}, {}, map[], NoDir)

  predicate Live(s: State, a: nat) {
    a in s.attempts && s.attempts[a].process in s.alive
  }

  predicate At(s: State, a: nat, phase: Phase) {
    Live(s, a) && s.attempts[a].phase == phase
  }

  /** `active_runtime_owner` finds nobody: the recorded process is gone, or there is no
      readable record and the directory is old. */
  predicate Stale(s: State) {
    s.dir.Dir? &&
    match s.dir.owner
    case Owned(b) => b !in s.attempts || s.attempts[b].process !in s.alive
    case _ => s.now - s.dir.modified >= GRACE
  }

  predicate Enabled(s: State, act: Action) {
    match act
    case Launch(p) => p !in s.launched
    case Crash(p) => p in s.alive
    case Tick(_) => true
    case Begin(a, process) => a !in s.attempts && process in s.alive
    case Make(a) => At(s, a, Idle) && s.dir.NoDir?
    case GiveUp(a) => At(s, a, Idle) || At(s, a, Claiming)
    case CheckStale(a) => At(s, a, Idle) && Stale(s)
    case Rename(a) => At(s, a, Claiming)
    case Open(a, _) => At(s, a, Made)
    case Write(a, written, ok) => At(s, a, Writing) && (ok ==> written)
    case Compare(a) => At(s, a, Held)
    case RemoveFile(a, _) => At(s, a, CleanFile) || At(s, a, DropFile)
    case RemoveDir(a, _) => At(s, a, CleanDir) || At(s, a, DropDir)
  }

  function Goto(s: State, a: nat, phase: Phase): State
    requires a in s.attempts
  {
    s.(attempts := s.attempts[a := s.attempts[a].(phase := phase)])
  }

  /** The step on whatever is at the lock path, whoever put it there. */
  function Do(s: State, act: Action): State
    requires Enabled(s, act)
  {
    match act
    case Launch(p) => s.(launched := s.launched + {p}, alive := s.alive + {p})
    case Crash(p) => s.(alive := s.alive - {p})
    case Tick(seconds) => s.(now := s.now + seconds)
    case Begin(a, process) => s.(attempts := s.attempts[a := Attempt(process, Idle)])
    case Make(a) => Goto(s, a, Made).(dir := Dir(Absent, s.now, a))
    case GiveUp(a) => Goto(s, a, Gone)
    case CheckStale(a) => Goto(s, a, Claiming)
    case Rename(a) => Goto(s, a, Idle).(dir := NoDir)
    case Open(a, ok) =>
      if ok && s.dir.Dir? && s.dir.owner == Absent
      then Goto(s, a, Writing).(dir := s.dir.(owner := Partial(a), modified := s.now))
      else Goto(s, a, CleanFile)
    case Write(a, written, ok) =>
      var next := Goto(s, a, if ok then Held else CleanFile);
      if written && s.dir.Dir? && s.dir.owner == Partial(a) then next.(dir := s.dir.(owner := Owned(a))) else next
    case Compare(a) =>
      Goto(s, a, if s.dir.Dir? && s.dir.owner == Owned(a) then DropFile else Gone)
    case RemoveFile(a, ok) =>
      var next := Goto(s, a, if s.attempts[a].phase == CleanFile then CleanDir else DropDir);
      if ok && s.dir.Dir? && s.dir.owner != Absent then next.(dir := s.dir.(owner := Absent, modified := s.now)) else next
    case RemoveDir(a, ok) =>
      var next := Goto(s, a, Gone);
      if ok && s.dir.Dir? && s.dir.owner == Absent then next.(dir := NoDir) else next
  }

  // ---------- what the lease relies on ----------

  /** Between `mkdir` and the end of the attempt or of the drop. */
  predicate Occupies(s: State, a: nat) {
    Live(s, a) && s.attempts[a].phase in {Made, Writing, Held, CleanFile, CleanDir, DropFile, DropDir}
  }

  /** Of the clock: a live attempt whose record is not in place is not left for the whole
      grace period. Of the claim: what is renamed is still stale. Nothing else is asked;
      in particular the compare and the two removals of `drop` are separate steps. */
  predicate Timely(s: State, act: Action) {
    match act
    case Tick(seconds) =>
      s.dir.Dir? && s.dir.owner != Owned(s.dir.maker) && Occupies(s, s.dir.maker) ==>
        s.now + seconds - s.dir.modified < GRACE
    case Rename(_) => s.dir.Dir? ==> Stale(s)
    case _ => true
  }

  ghost predicate Enters(s: State, acts: seq<Action>, t: State)
    decreases |acts|
  {
    if acts == [] then s == t
    else Enabled(s, acts[0]) && Enters(Do(s, acts[0]), acts[1..], t)
  }

  ghost predicate AllTimely(s: State, acts: seq<Action>)
    decreases |acts|
  {
    acts != [] ==> Timely(s, acts[0]) && (Enabled(s, acts[0]) ==> AllTimely(Do(s, acts[0]), acts[1..]))
  }

  ghost predicate Leads(s: State, acts: seq<Action>, t: State) {
    Enters(s, acts, t) && AllTimely(s, acts)
  }

  ghost predicate Reachable(s: State) {
    exists acts :: Leads(START, acts, s)
  }

  // ---------- safety ----------

  predicate OwnRecord(dir: Dir)
    requires dir.Dir?
  {
    dir.owner in {Absent, Partial(dir.maker), Owned(dir.maker)}
  }

  /** Each live occupant made the directory that is there, and it is either recorded or young. */
  ghost predicate Inv(s: State) {
    && s.alive <= s.launched
    && (forall a :: a in s.attempts ==> s.attempts[a].process in s.launched)
    && (s.dir.Dir? ==> s.dir.maker in s.attempts && s.dir.modified <= s.now && OwnRecord(s.dir))
    && forall a :: Occupies(s, a) ==> Settled(s, a)
  }

  ghost predicate Settled(s: State, a: nat)
    requires a in s.attempts
  {
    && s.dir.Dir? && s.dir.maker == a
    && (s.dir.owner != Owned(a) ==> s.now - s.dir.modified < GRACE)
    && match s.attempts[a].phase
       case Made => s.dir.owner == Absent
       case Writing => s.dir.owner == Partial(a)
       case Held => s.dir.owner == Owned(a)
       case DropFile => s.dir.owner == Owned(a)
       case _ => true
  }

  /** A directory with a live occupant is not stale. */
  lemma OccupiedIsNotStale(s: State, a: nat)
    requires Inv(s) && Occupies(s, a)
    ensures s.dir.Dir? && !Stale(s)
  {
    assert Settled(s, a);
  }

  lemma StepKeepsInv(s: State, act: Action)
    requires Inv(s) && Enabled(s, act) && Timely(s, act)
    ensures Inv(Do(s, act))
  {
    var t := Do(s, act);
    match act
    case Launch(_) => assert forall b :: Occupies(t, b) ==> Occupies(s, b);
    case Crash(_) => assert forall b :: Occupies(t, b) ==> Occupies(s, b);
    case Tick(_) => assert forall b :: Occupies(t, b) ==> Occupies(s, b) && Settled(s, b);
    case Begin(_, _) => assert forall b :: Occupies(t, b) ==> Occupies(s, b);
    case Make(a) =>
      forall b | Occupies(s, b) ensures false {
        OccupiedIsNotStale(s, b);
      }
      assert forall b :: Occupies(t, b) && b != a ==> Occupies(s, b);
    case GiveUp(_) => assert forall b :: Occupies(t, b) ==> Occupies(s, b);
    case CheckStale(_) => assert forall b :: Occupies(t, b) ==> Occupies(s, b);
    case Rename(_) =>
      forall b | Occupies(s, b) ensures false {
        OccupiedIsNotStale(s, b);
      }
      assert forall b :: Occupies(t, b) ==> Occupies(s, b);
    case _ => OccupantStepKeepsInv(s, act);
  }

  /** The steps of the one live occupant. */
  lemma OccupantStepKeepsInv(s: State, act: Action)
    requires Inv(s) && Enabled(s, act)
    requires act.Open? || act.Write? || act.Compare? || act.RemoveFile? || act.RemoveDir?
    ensures Inv(Do(s, act))
  {
    var t, a := Do(s, act), act.a;
    assert Occupies(s, a) && Settled(s, a);
    forall b | Occupies(t, b) ensures Settled(t, b) {
      assert Occupies(s, b) && Settled(s, b);
    }
  }

  lemma {:induction false} RunKeepsInv(s: State, acts: seq<Action>, t: State)
    requires Inv(s) && Leads(s, acts, t)
    ensures Inv(t)
    decreases |acts|
  {
    if acts != [] {
      StepKeepsInv(s, acts[0]);
      RunKeepsInv(Do(s, acts[0]), acts[1..], t);
    }
  }

  lemma ReachableInv(s: State)
    requires Reachable(s)
    ensures Inv(s)
  {
    var acts :| Leads(START, acts, s);
    RunKeepsInv(START, acts, s);
  }

  lemma SoleOccupant(s: State, a: nat, b: nat)
    requires Inv(s) && Occupies(s, a) && Occupies(s, b)
    ensures a == b
  {
    assert Settled(s, a) && Settled(s, b);
  }

  /** In every run, at most one live attempt is anywhere between `mkdir` and release; so at
      most one holds the lease. */
  lemma AtMostOneHolder(s: State, a: nat, b: nat)
    requires Reachable(s) && Occupies(s, a) && Occupies(s, b)
    ensures a == b
  {
    ReachableInv(s);
    SoleOccupant(s, a, b);
  }

  /** In every run, a release or a clean-up that changes what is at the path finds there
      the directory its own attempt made. */
  lemma RemovesOnlyItsOwn(s: State, act: Action)
    requires Reachable(s) && (act.RemoveFile? || act.RemoveDir?) && Enabled(s, act)
    requires Do(s, act).dir != s.dir
    ensures s.dir.Dir? && s.dir.maker == act.a
  {
    ReachableInv(s);
    assert Settled(s, act.a);
  }

  /** And a claim never takes the directory of a live attempt. */
  lemma ClaimsOnlyTheDead(s: State, a: nat, b: nat)
    requires Reachable(s) && Enabled(s, Rename(a)) && Timely(s, Rename(a)) && s.dir.Dir?
    ensures !Occupies(s, b)
  {
    ReachableInv(s);
    if Occupies(s, b) {
      OccupiedIsNotStale(s, b);
    }
  }

  // ---------- recovery ----------

  /** One more step of a run. */
  ghost function Extend(s: State, act: Action): (t: State)
    requires Reachable(s) && Enabled(s, act) && Timely(s, act)
    ensures Reachable(t) && t == Do(s, act)
  {
    ReachableStep(s, act);
    Do(s, act)
  }

  lemma ReachableStep(s: State, act: Action)
    requires Reachable(s) && Enabled(s, act) && Timely(s, act)
    ensures Reachable(Do(s, act))
  {
    var acts :| Leads(START, acts, s);
    Append(START, acts, s, act);
  }

  lemma {:induction false} Append(s: State, acts: seq<Action>, t: State, act: Action)
    requires Leads(s, acts, t) && Enabled(t, act) && Timely(t, act)
    ensures Leads(s, acts + [act], Do(t, act))
    decreases |acts|
  {
    if acts == [] {
      assert Leads(Do(t, act), [], Do(t, act));
      Prepend(s, act, [], Do(t, act));
      assert [act] + [] == acts + [act];
    } else {
      Append(Do(s, acts[0]), acts[1..], t, act);
      Prepend(s, acts[0], acts[1..] + [act], Do(t, act));
      assert [acts[0]] + (acts[1..] + [act]) == acts + [act];
    }
  }

  lemma Prepend(s: State, act: Action, acts: seq<Action>, t: State)
    requires Enabled(s, act) && Timely(s, act) && Leads(Do(s, act), acts, t)
    ensures Leads(s, [act] + acts, t)
  {
    assert ([act] + acts)[1..] == acts;
  }

  ghost predicate OthersKept(s: State, t: State, a: nat) {
    t.alive == s.alive && forall b :: b in s.attempts && b != a ==> b in t.attempts && t.attempts[b] == s.attempts[b]
  }

  predicate RecordedBy(s: State, a: nat) {
    s.dir.Dir? && s.dir.owner == Owned(a)
  }

  lemma FreePathIsTaken(s: State, a: nat)
    requires At(s, a, Idle) && s.dir.NoDir?
    ensures exists acts, t :: |acts| == 3 && Leads(s, acts, t) && At(t, a, Held) && OthersKept(s, t, a) && RecordedBy(t, a)
  {
    var s1 := Do(s, Make(a));
    var s2 := Do(s1, Open(a, true));
    var t := Do(s2, Write(a, true, true));
    Prepend(s2, Write(a, true, true), [], t);
    Prepend(s1, Open(a, true), [Write(a, true, true)] + [], t);
    Prepend(s, Make(a), [Open(a, true)] + ([Write(a, true, true)] + []), t);
    assert OthersKept(s, t, a) && RecordedBy(t, a);
  }

  /** When the process that made the directory is dead, a newcomer holds the lease after
      the grace period and five steps. */
  lemma RecoversFromCrash(s: State, a: nat)
    requires Inv(s) && At(s, a, Idle) && s.dir.Dir? && !Live(s, s.dir.maker)
    ensures exists acts, t :: |acts| == 6 && acts[0] == Tick(GRACE) && Leads(s, acts, t) && At(t, a, Held)
  {
    var s1 := Do(s, Tick(GRACE));
    var s2 := Do(s1, CheckStale(a));
    var s3 := Do(s2, Rename(a));
    FreePathIsTaken(s3, a);
    var acts, t :| |acts| == 3 && Leads(s3, acts, t) && At(t, a, Held);
    Prepend(s2, Rename(a), acts, t);
    Prepend(s1, CheckStale(a), [Rename(a)] + acts, t);
    Prepend(s, Tick(GRACE), [CheckStale(a)] + ([Rename(a)] + acts), t);
  }

  // ---------- why the stale check and the rename must not be parted ----------

  ghost predicate TwoHolders(s: State) {
    exists x, y :: x != y && At(s, x, Held) && At(s, y, Held)
  }

  /** Some steps, none of them late, lead to two holders. */
  ghost predicate MayBreak(s: State) {
    exists acts, t :: Leads(s, acts, t) && TwoHolders(t)
  }

  lemma MayBreakLater(s: State, act: Action)
    requires Enabled(s, act) && Timely(s, act) && MayBreak(Do(s, act))
    ensures MayBreak(s)
  {
    var acts, t :| Leads(Do(s, act), acts, t) && TwoHolders(t);
    Prepend(s, act, acts, t);
  }

  lemma MayBreakAfter(s: State, acts: seq<Action>, t: State)
    requires Leads(s, acts, t) && MayBreak(t)
    ensures MayBreak(s)
    decreases |acts|
  {
    if acts != [] {
      MayBreakAfter(Do(s, acts[0]), acts[1..], t);
      MayBreakLater(s, acts[0]);
    }
  }

  /** An attempt that nobody has begun. */
  ghost function Newcomer(s: State): (c: nat)
    ensures c !in s.attempts
  {
    Unused(s.attempts.Keys)
  }

  /** One attempt holds the lease and the path is free: a newcomer makes it two. */
  lemma HolderOfNothing(s: State, x: nat)
    requires At(s, x, Held) && s.dir.NoDir?
    ensures MayBreak(s)
  {
    var c := Newcomer(s);
    var act := Begin(c, s.attempts[x].process);
    var s1 := Do(s, act);
    FreePathIsTaken(s1, c);
    var acts, t :| |acts| == 3 && Leads(s1, acts, t) && At(t, c, Held) && OthersKept(s1, t, c);
    assert x != c && At(t, x, Held) && TwoHolders(t);
    MayBreakAfter(s1, acts, t) by { Stays(t); }
    MayBreakLater(s, act);
  }

  lemma Stays(t: State)
    requires TwoHolders(t)
    ensures MayBreak(t)
  {
    assert Leads(t, [], t);
  }

  /** One attempt is about to write its record into a directory that is gone: the newcomer
      that makes the next one lends it, fails, and clears the path. */
  lemma MakerOfNothing(s: State, x: nat)
    requires At(s, x, Made) && s.dir.NoDir?
    ensures MayBreak(s)
  {
    var c := Newcomer(s);
    var begin := Begin(c, s.attempts[x].process);
    var s1 := Do(s, begin);
    var s2 := Do(s1, Make(c));
    WritesIntoBorrowed(s2, x, c);
    MayBreakLater(s1, Make(c));
    MayBreakLater(s, begin);
  }

  lemma WritesIntoBorrowed(s: State, x: nat, c: nat)
    requires At(s, x, Made) && At(s, c, Made) && x != c && s.dir.Dir? && s.dir.owner == Absent
    ensures MayBreak(s)
  {
    var s1 := Do(s, Open(x, true));
    var s2 := Do(s1, Write(x, true, true));
    BorrowedDir(s2, x, c);
    MayBreakLater(s1, Write(x, true, true));
    MayBreakLater(s, Open(x, true));
  }

  lemma BorrowedDir(s: State, x: nat, c: nat)
    requires At(s, x, Held) && At(s, c, Made) && x != c && s.dir.Dir? && s.dir.owner == Owned(x)
    ensures MayBreak(s)
  {
    var s1 := Do(s, Open(c, true));
    var s2 := Do(s1, RemoveFile(c, true));
    var s3 := Do(s2, RemoveDir(c, true));
    HolderOfNothing(s3, x);
    MayBreakLater(s2, RemoveDir(c, true));
    MayBreakLater(s1, RemoveFile(c, true));
    MayBreakLater(s, Open(c, true));
  }

  /** One attempt is about to remove whatever is at the path, the path is free, and another
      is idle: it acquires the lease and loses the directory. */
  lemma RemoverOfNothing(s: State, x: nat, a: nat)
    requires (At(s, x, CleanFile) || At(s, x, DropFile)) && At(s, a, Idle) && s.dir.NoDir?
    ensures MayBreak(s)
  {
    FreePathIsTaken(s, a);
    var acts, t :| |acts| == 3 && Leads(s, acts, t) && At(t, a, Held) && OthersKept(s, t, a) && RecordedBy(t, a);
    RemovesHolders(t, x, a);
    MayBreakAfter(s, acts, t);
  }

  lemma RemovesHolders(s: State, x: nat, a: nat)
    requires (At(s, x, CleanFile) || At(s, x, DropFile)) && At(s, a, Held) && RecordedBy(s, a)
    ensures MayBreak(s)
  {
    var s1 := Do(s, RemoveFile(x, true));
    var s2 := Do(s1, RemoveDir(x, true));
    HolderOfNothing(s2, a);
    MayBreakLater(s1, RemoveDir(x, true));
    MayBreakLater(s, RemoveFile(x, true));
  }

  /** Likewise with only the directory left to remove. */
  lemma DirRemoverOfNothing(s: State, x: nat, a: nat)
    requires (At(s, x, CleanDir) || At(s, x, DropDir)) && At(s, a, Idle) && s.dir.NoDir?
    ensures MayBreak(s)
  {
    var s1 := Do(s, Make(a));
    var s2 := Do(s1, RemoveDir(x, true));
    MakerOfNothing(s2, a);
    MayBreakLater(s1, RemoveDir(x, true));
    MayBreakLater(s, Make(a));
  }

  /** A rename that was decided earlier can lead to two holders exactly when somebody live is
      between `mkdir` and release at the moment it is carried out: the holder, an attempt
      still recording itself, or one that is cleaning up or dropping. */
  lemma LateRenameBreaksIff(s: State, a: nat)
    requires Reachable(s) && At(s, a, Claiming)
    ensures MayBreak(Do(s, Rename(a))) <==> exists b :: Occupies(s, b)
  {
    var after := Do(s, Rename(a));
    ReachableInv(s);
    if b :| Occupies(s, b) {
      RenameUnderOccupant(s, a, b);
    } else {
      assert Inv(after) by {
        assert forall b :: Occupies(after, b) ==> Occupies(s, b);
      }
      forall acts, t | Leads(after, acts, t) ensures !TwoHolders(t) {
        RunKeepsInv(after, acts, t);
        forall x, y | At(t, x, Held) && At(t, y, Held) ensures x == y {
          SoleOccupant(t, x, y);
        }
      }
    }
  }

  lemma RenameUnderOccupant(s: State, a: nat, b: nat)
    requires At(s, a, Claiming) && Occupies(s, b)
    ensures MayBreak(Do(s, Rename(a)))
  {
    var after := Do(s, Rename(a));
    match s.attempts[b].phase
    case Held => HolderOfNothing(after, b);
    case Writing =>
      HolderOfNothing(Do(after, Write(b, true, true)), b);
      MayBreakLater(after, Write(b, true, true));
    case Made => MakerOfNothing(after, b);
    case CleanFile => RemoverOfNothing(after, b, a);
    case DropFile => RemoverOfNothing(after, b, a);
    case _ => DirRemoverOfNothing(after, b, a);
  }

  /** Such a state is reached wherever two attempts may find the same directory stale: one
      of them has acquired the lease before the other renames. */
  lemma LateRenameIsReachable(s: State, a: nat, b: nat)
    requires Reachable(s) && Stale(s) && a != b && At(s, a, Idle) && At(s, b, Idle)
    ensures exists t :: Reachable(t) && At(t, a, Claiming) && At(t, b, Held)
  {
    var s1 := Extend(Extend(s, CheckStale(a)), CheckStale(b));
    AcquiresBeside(Extend(s1, Rename(b)), a, b);
  }

  lemma AcquiresBeside(s: State, a: nat, b: nat)
    requires Reachable(s) && a != b && At(s, a, Claiming) && At(s, b, Idle) && s.dir.NoDir?
    ensures exists t :: Reachable(t) && At(t, a, Claiming) && At(t, b, Held)
  {
    FreePathIsTaken(s, b);
    var acts, t :| |acts| == 3 && Leads(s, acts, t) && At(t, b, Held) && OthersKept(s, t, b);
    ReachableRun(s, acts, t);
    assert At(t, a, Claiming);
  }

  lemma {:induction false} ReachableRun(s: State, acts: seq<Action>, t: State)
    requires Reachable(s) && Leads(s, acts, t)
    ensures Reachable(t)
    decreases |acts|
  {
    if acts != [] {
      ReachableRun(Extend(s, acts[0]), acts[1..], t);
    }
  }

  /** And it does: a directory whose maker died before recording itself is found stale by
      two later attempts, each of which has yet to act. */
  lemma CrashLeavesStale(s: State, p: nat, a: nat, b: nat)
    requires Reachable(s) && s.dir.Dir? && !s.dir.owner.Owned? && !Live(s, s.dir.maker)
    requires p in s.alive && a !in s.attempts && b !in s.attempts && a != b
    ensures exists t :: Reachable(t) && Stale(t) && At(t, a, Idle) && At(t, b, Idle)
  {
    ReachableInv(s);
    var t := Extend(Extend(Extend(s, Begin(a, p)), Begin(b, p)), Tick(GRACE));
    assert Stale(t);
  }

  lemma CrashWhileMaking()
    ensures exists s :: Reachable(s) && s.dir.Dir? && !s.dir.owner.Owned? && !Live(s, s.dir.maker)
              && 1 in s.alive && s.attempts.Keys == {0}
  {
    HalfMade();
    var s :| Reachable(s) && At(s, 0, Made) && s.attempts.Keys == {0} && s.launched == {0} && s.dir == Dir(Absent, 0, 0);
    var t := Extend(Extend(s, Crash(s.attempts[0].process)), Launch(1));
    assert s.attempts[0].process != 1 by { ReachableInv(s); }
  }

  lemma HalfMade()
    ensures exists s :: Reachable(s) && At(s, 0, Made) && s.attempts.Keys == {0} && s.launched == {0}
              && s.dir == Dir(Absent, 0, 0)
  {
    assert Leads(START, [], START);
    var s := Extend(Extend(Extend(START, Launch(0)), Begin(0, 0)), Make(0));
    assert s.launched == {0};
  }

  // ---------- `acquire_at` and `drop`, among rivals ----------

  datatype Outcome = Acquired | AlreadyRunning | StillInitializing | Failed | Contended | Displaced

  /** The machine an attempt runs on. Its methods take the steps above, one by one, and
      any number of steps of others may fall between two of them. */
  class Machine {
    var s: State
    /** How many removals of this attempt failed. */
    var stuck: nat
    /** How many of its other system calls failed, and how often it found a directory gone
        that had been there when it tried to make one. */
    ghost var faults: nat
    ghost var vanished: nat

    constructor (start: State)
      requires Inv(start)
      ensures s == start && stuck == 0 && faults == 0 && vanished == 0
    {
      s, stuck, faults, vanished := start, 0, 0, 0;
    }

    method Step(act: Action)
      requires Inv(s) && Enabled(s, act) && Timely(s, act)
      modifies `s
      ensures Inv(s) && s == Do(old(s), act)
    {
      StepKeepsInv(s, act);
      s := Do(s, act);
    }

    /** Rivals, crashes elsewhere and time; this attempt's process lives on. */
    method Others(a: nat)
      requires Inv(s) && Live(s, a)
      modifies `s
      ensures Inv(s) && Live(s, a) && s.attempts[a] == old(s).attempts[a]
      ensures Occupies(s, a) ==> s.dir == old(s).dir
      ensures IsMaker(s, a) ==> IsMaker(old(s), a)
    {
      var n :| 0 <= n;
      for _ := 0 to n
        invariant Inv(s) && Live(s, a) && s.attempts[a] == old(s).attempts[a]
        invariant Occupies(s, a) ==> s.dir == old(s).dir
        invariant IsMaker(s, a) ==> IsMaker(old(s), a)
      {
        var act: Action := *;
        if Enabled(s, act) && Timely(s, act) && !Moves(act, a) && act != Crash(s.attempts[a].process) {
          OthersKeepMyDir(s, act, a);
          Step(act);
        }
      }
    }

    method RemoveAll(a: nat)
      requires Inv(s) && (At(s, a, CleanFile) || At(s, a, DropFile))
      modifies `s, `stuck
      ensures Inv(s) && At(s, a, Gone)
      ensures stuck == old(stuck) ==> !IsMaker(s, a)
    {
      var ok: bool := *;
      Step(RemoveFile(a, ok));
      if !ok { stuck := stuck + 1; }
      Others(a);
      ok := *;
      Step(RemoveDir(a, ok));
      if !ok { stuck := stuck + 1; }
    }

    /** `write_runtime_owner` in the directory just made, with its clean-up on failure. */
    method WriteOwner(a: nat) returns (ok: bool)
      requires Inv(s) && At(s, a, Made)
      modifies `s, `stuck, `faults
      ensures Inv(s)
      ensures if ok then At(s, a, Held) && faults == old(faults) else At(s, a, Gone) && faults > old(faults)
      ensures ok ==> s.dir.Dir? && s.dir.owner == Owned(a) && stuck == old(stuck)
      ensures !ok && stuck == old(stuck) ==> !IsMaker(s, a)
    {
      Others(a);
      var created: bool := *;
      Step(Open(a, created));
      if s.attempts[a].phase != Writing { faults := faults + 1; }
      Others(a);
      if At(s, a, Writing) {
        var written: bool, synced: bool := *, *;
        ok := written && synced;
        Step(Write(a, written, ok));
        if ok {
          assert Occupies(s, a) && Settled(s, a);
          return;
        }
        faults := faults + 1;
        Others(a);
      }
      RemoveAll(a);
      ok := false;
    }

    /** What `acquire_at` does with a directory that was there already. Rivals may step
        between the stale check and the rename too: then the path may be free, and the rename
        finds nothing, or it may be a rival's, which `Displaced` reports. */
    method ClaimStale(a: nat) returns (r: Option<Outcome>)
      requires Inv(s) && At(s, a, Idle) && !IsMaker(s, a)
      modifies `s, `faults, `vanished
      ensures r == Some(Displaced) ==> LateFor(a)
      ensures if r == Some(Failed) then Hindered(old(faults), old(vanished))
              else faults == old(faults) && vanished == old(vanished)
      ensures r != Some(Displaced) ==> Inv(s) && !IsMaker(s, a)
      ensures r.None? ==> At(s, a, Idle)
      ensures r.Some? && r.value != Displaced ==> At(s, a, Gone)
      ensures r.Some? ==> r.value != Acquired && r.value != Contended && Explained(r.value)
    {
      Others(a);
      if s.dir.Dir? && Stale(s) {
        Step(CheckStale(a));
        Others(a);
        r := RenameClaimed(a);
        return;
      }
      if s.dir.NoDir? { vanished := vanished + 1; }
      r := Some(if s.dir.NoDir? then Failed else if s.dir.owner.Owned? then AlreadyRunning else StillInitializing);
      Step(GiveUp(a));
    }

    /** The rename and the deletion of what it took. */
    method RenameClaimed(a: nat) returns (r: Option<Outcome>)
      requires Inv(s) && At(s, a, Claiming) && !IsMaker(s, a)
      modifies `s, `faults
      ensures r in {None, Some(Failed), Some(Displaced)}
      ensures faults == old(faults) + if r == Some(Failed) then 1 else 0
      ensures r == Some(Displaced) ==> LateFor(a)
      ensures r != Some(Displaced) ==> Inv(s) && !IsMaker(s, a) && At(s, a, if r.None? then Idle else Gone)
    {
      if s.dir.Dir? && !Stale(s) {
        s := Do(s, Rename(a));
        return Some(Displaced);
      }
      var found, renamed := s.dir.Dir?, true;
      if found { renamed := *; }
      if renamed {
        Step(Rename(a));
        var deleted: bool := *;
        if deleted || !found { return None; }
      }
      faults := faults + 1;
      Step(GiveUp(a));
      return Some(Failed);
    }

    /** Something went wrong since the counts were these. */
    ghost predicate Hindered(faultsBefore: nat, vanishedBefore: nat)
      reads `faults, `vanished
    {
      faults > faultsBefore || vanished > vanishedBefore
    }

    /** The state is what a late rename made of one in which the directory was not stale. */
    ghost predicate LateFor(a: nat)
      reads `s
    {
      exists before :: Inv(before) && At(before, a, Claiming) && before.dir.Dir? && !Stale(before)
        && s == Do(before, Rename(a))
    }

    /** A refusal names a live owner, or a directory younger than the grace period. */
    ghost predicate Explained(r: Outcome)
      reads `s
    {
      && (r == AlreadyRunning ==> s.dir.Dir? && s.dir.owner.Owned? && Live(s, s.dir.owner.a))
      && (r == StillInitializing ==> s.dir.Dir? && !s.dir.owner.Owned? && s.now - s.dir.modified < GRACE)
    }

    /** `mkdir` at a free path, and the record. */
    method MakeAt(a: nat) returns (ok: bool)
      requires Inv(s) && At(s, a, Idle) && s.dir.NoDir?
      modifies `s, `stuck, `faults
      ensures Inv(s)
      ensures if ok then At(s, a, Held) && RecordedBy(s, a) else At(s, a, Gone) && (stuck == old(stuck) ==> !IsMaker(s, a))
      ensures if ok then faults == old(faults) else faults > old(faults)
    {
      ok := *;
      if ok {
        Step(Make(a));
        ok := WriteOwner(a);
      } else {
        faults := faults + 1;
        Step(GiveUp(a));
      }
    }

    /** One pass of the loop; `None` when a stale directory was got out of the way. */
    method Pass(a: nat) returns (r: Option<Outcome>)
      requires Inv(s) && At(s, a, Idle) && !IsMaker(s, a)
      modifies this
      ensures r.None? ==> Inv(s) && At(s, a, Idle) && !IsMaker(s, a) && stuck == old(stuck)
      ensures r.Some? ==> Ended(a, r.value, old(stuck)) && r.value != Contended
      ensures r == Some(Failed) <==> Hindered(old(faults), old(vanished))
      ensures r.None? ==> faults == old(faults) && vanished == old(vanished)
    {
      Others(a);
      if s.dir.NoDir? {
        var ok := MakeAt(a);
        return Some(if ok then Acquired else Failed);
      }
      r := ClaimStale(a);
    }

    /** How an attempt may leave things. */
    ghost predicate Ended(a: nat, r: Outcome, stuckBefore: nat)
      reads `s, `stuck
    {
      && (if r == Displaced then LateFor(a) else Inv(s))
      && (r == Acquired ==> At(s, a, Held) && RecordedBy(s, a))
      && (r !in {Acquired, Displaced} ==> At(s, a, Gone) && (stuck == stuckBefore ==> !IsMaker(s, a)))
      && Explained(r)
    }

    /** One attempt; `claims` counts the stale directories it got out of the way. */
    method AcquireAt(a: nat, process: nat) returns (r: Outcome, ghost claims: nat)
      requires Inv(s) && a !in s.attempts && process in s.alive
      modifies this
      ensures Ended(a, r, old(stuck))
      ensures r == Failed <==> Hindered(old(faults), old(vanished))
      ensures r == Contended ==> claims == 4
    {
      claims := 0;
      Step(Begin(a, process));
      for pass := 0 to 4
        invariant claims == pass && faults == old(faults) && vanished == old(vanished)
        invariant Inv(s) && At(s, a, Idle) && stuck == old(stuck) && !IsMaker(s, a)
      {
        var over := Pass(a);
        if over.Some? { return over.value, claims; }
        claims := claims + 1;
      }
      Step(GiveUp(a));
      return Contended, claims;
    }

    method Drop(a: nat)
      requires Inv(s) && At(s, a, Held)
      modifies this
      ensures Inv(s) && At(s, a, Gone)
      ensures stuck == old(stuck) ==> !IsMaker(s, a)
    {
      Others(a);
      assert Occupies(s, a) && Settled(s, a);
      Step(Compare(a));
      if s.attempts[a].phase == DropFile {
        Others(a);
        RemoveAll(a);
      }
    }
  }

  predicate IsMaker(s: State, a: nat) {
    s.dir.Dir? && s.dir.maker == a
  }

  predicate Moves(act: Action, a: nat) {
    match act
    case Launch(_) => false
    case Crash(_) => false
    case Tick(_) => false
    case _ => act.a == a
  }

  /** While an attempt occupies the path no other step changes what is there. */
  lemma OthersKeepMyDir(s: State, act: Action, a: nat)
    requires Inv(s) && Enabled(s, act) && Timely(s, act) && Live(s, a)
    requires !Moves(act, a) && act != Crash(s.attempts[a].process)
    ensures Live(Do(s, act), a) && Do(s, act).attempts[a] == s.attempts[a]
    ensures Occupies(s, a) ==> Do(s, act).dir == s.dir
    ensures IsMaker(Do(s, act), a) ==> IsMaker(s, a)
  {
    if Occupies(s, a) {
      OccupiedIsNotStale(s, a);
      assert Settled(s, a);
      if act.Open? || act.Write? || act.RemoveFile? || act.RemoveDir? {
        SoleOccupant(s, a, act.a);
      }
    }
  }
}
