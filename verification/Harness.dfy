/** The harness driver: role phases around a feature loop around a two-gate retry loop
    (crates/agentum-server/src/harness.rs). */
module Harness {
  import opened Basics
  import opened Backlog
  import P = PhaseLog
  import Decimal
  import opened Text

  datatype HarnessState =
    | Idle | InitVerifying | Running | Verifying | AwaitingConfirmation | Blocked | Done | Failed

  datatype GateDecision = Advance | Retry | Block | AwaitConfirm

  function DecideGate(passed: bool, attempt: u32, maxRetries: u32, hitlOnBlock: bool): GateDecision {
    if passed then Advance
    else if attempt > maxRetries then (if hitlOnBlock then GateDecision.AwaitConfirm else Block)
    else Retry
  }

  /** A red gate can stop being retried exactly when the limit is below the counter's top:
      at `u32::MAX` the test `attempt > max_retries` never holds. */
  lemma RetriesEndIff(maxRetries: u32, hitlOnBlock: bool)
    ensures (exists attempt: u32 :: DecideGate(false, attempt, maxRetries, hitlOnBlock) != Retry)
      <==> maxRetries < 0xFFFF_FFFF
  {
    assert maxRetries < 0xFFFF_FFFF ==> DecideGate(false, 0xFFFF_FFFF, maxRetries, hitlOnBlock) != Retry;
  }

  predicate HasRole(p: P.SpecPhase) {
    p.Authoring? || p.Architecture? || p.Review?
  }

  predicate IsPlanning(p: P.SpecPhase) {
    p.Authoring? || p.Architecture?
  }

  /** The phases before the feature loop, with it, and after it. */
  const PLANNING := [P.Authoring, P.Architecture, P.SpecPhase.Decompose, P.Executing]
  const CLOSING := [P.Review, P.SpecPhase.Done]

  // ---------- what a drive leaves behind ----------

  datatype GateEvent =
    | Prompted(id: string)
    | UnitGate(id: string, green: bool)
    | QaGate(id: string, green: bool)
    | Finished(id: string)

  /** Which event comes right after which: a prompt leads to the unit gate, a green unit gate
      to the QA gate, a red gate back to a prompt, a green QA gate to the end of the feature,
      unless a human has to confirm: then nothing follows. */
  predicate Follows(hitlAtQa: bool, a: GateEvent, b: GateEvent) {
    match a
    case Prompted(id) => b.UnitGate? && b.id == id
    case UnitGate(id, true) => b.QaGate? && b.id == id
    case QaGate(id, true) => !hitlAtQa && b == Finished(id)
    case Finished(_) => b.Prompted?
    case _ => b == Prompted(a.id)
  }

  predicate Opens(g: seq<GateEvent>, hitlAtQa: bool, e: GateEvent) {
    if g == [] then e.Prompted? else Follows(hitlAtQa, g[|g| - 1], e)
  }

  predicate GatedAt(g: seq<GateEvent>, hitlAtQa: bool, k: nat)
    requires k < |g|
  {
    Opens(g[..k], hitlAtQa, g[k])
  }

  predicate Latest(g: seq<GateEvent>, e: GateEvent) {
    |g| >= 1 && g[|g| - 1] == e
  }

  predicate RedLast(g: seq<GateEvent>, id: string) {
    Latest(g, UnitGate(id, false)) || Latest(g, QaGate(id, false))
  }

  /** No feature is between its prompt and its end. */
  predicate BetweenGates(g: seq<GateEvent>) {
    g == [] || g[|g| - 1].Finished?
  }

  predicate AllGated(g: seq<GateEvent>, hitlAtQa: bool) {
    forall k: nat :: k < |g| ==> GatedAt(g, hitlAtQa, k)
  }

  lemma GatedSnoc(g: seq<GateEvent>, hitlAtQa: bool, e: GateEvent)
    requires AllGated(g, hitlAtQa) && Opens(g, hitlAtQa, e)
    ensures AllGated(g + [e], hitlAtQa)
  {
    var longer := g + [e];
    forall k: nat | k < |longer| ensures GatedAt(longer, hitlAtQa, k) {
      assert longer[..k] == g[..k];
      if k < |g| {
        assert GatedAt(g, hitlAtQa, k) && longer[k] == g[k];
      } else {
        assert g[..k] == g && longer[k] == e;
      }
    }
  }

  /** With a human to confirm, no drive finishes a feature. */
  lemma NothingFinishes(g: seq<GateEvent>)
    requires AllGated(g, true)
    ensures forall id :: Finished(id) !in g
  {
    forall k: nat | k < |g| ensures !g[k].Finished? {
      assert GatedAt(g, true, k);
    }
  }

  // ---------- the outside world ----------

  /** Scripts, agents, the file system and verdict files: any answer is possible. */
  method Ask() returns (answer: bool) {
    answer := *;
  }

  /** What the QA gate goes by: the script's exit, or the verdict file of the agent. Without
      either there is nothing to check. */
  datatype Evidence = NoScript | Script(exitedZero: bool) | Agent(file: VerdictFile)

  datatype VerdictFile = Missing | Garbled | Says(passed: bool, summary: string)

  predicate Shows(e: Evidence) {
    match e
    case NoScript => true
    case Script(exitedZero) => exitedZero
    case Agent(file) => file.Says? && file.passed
  }

  method AskEvidence() returns (answer: Evidence) {
    answer := *;
  }

  method AskVerdict() returns (answer: VerdictFile) {
    answer := *;
  }

  method AskCount() returns (answer: nat) {
    var n: int := *;
    answer := if n < 0 then 0 else n;
  }

  method AskText() returns (answer: string) {
    answer := *;
  }

  /** No attempt count exceeds it. */
  const TOP: u32 := 0xFFFF_FFFF

  datatype FeatureOutcome = Error | Halted | Again | Green

  // ---------- the run ----------

  class HarnessRun {
    const maxRetries: u32
    const hitlAtQa: bool
    const hitlOnBlock: bool
    /** Role gates are on and a spec is named. */
    const phasesOn: bool

    var state: HarnessState
    var features: seq<Feature>
    var phase: P.SpecPhase
    var phaseAttempts: u32
    /** The text of `decisions.md`. */
    var decisions: string
    var driving: bool

    /** This drive's coding prompts, gate verdicts and finished features, in order. */
    ghost var gates: seq<GateEvent>
    /** How often this drive ran each feature's unit gate and each role gate. */
    ghost var unitRuns: multiset<string>
    ghost var roleRuns: multiset<P.SpecPhase>
    /** The role gates this drive passed. */
    ghost var passedRoles: set<P.SpecPhase>
    /** How often this drive put the run, a feature or the phase on hold for a human. */
    ghost var parks: nat
    /** The backlog at every step of this drive, and the ids in flight before it. */
    ghost var boards: seq<seq<Feature>>
    ghost var stuck: set<string>
    /** Once a new backlog replaced the old one: the old one's boards, and the ids that were
        in flight in it. None of the new features was in flight before. */
    ghost var replaced: bool
    ghost var oldBoards: seq<seq<Feature>>
    ghost var oldStuck: set<string>
    /** A role gate that cannot run out of retries was still going when the drive was last
        looked at. */
    var unending: bool
    /** `init.sh` of this drive was green. */
    ghost var initGreen: bool
    /** Something this drive needed went wrong: a file operation, a script that could not be
        started, a session, or the smoke test. */
    ghost var faulted: bool
    /** The spec this drive read its backlog from. */
    ghost var specRead: Option<string>
    /** The phases this drive entered, in order. */
    ghost var entered: seq<P.SpecPhase>
    /** The phase and log this drive began with, and what it did to them. */
    ghost var origin: P.Record
    ghost var trail: seq<P.Record>
    ghost var ops: seq<P.Op>

    /** Registers a run: the backlog as loaded, the phase as the decision log has it. */
    constructor Start(loaded: seq<Feature>, log: string, maxRetries: u32, hitlAtQa: bool, hitlOnBlock: bool, phasesOn: bool)
      ensures state == Idle && features == loaded && decisions == log && !driving
      ensures phase == P.Resume(log) && phaseAttempts == 0
      ensures this.maxRetries == maxRetries && this.phasesOn == phasesOn
      ensures this.hitlAtQa == hitlAtQa && this.hitlOnBlock == hitlOnBlock
    {
      state, features, driving := Idle, loaded, false;
      phase, phaseAttempts, decisions := P.Resume(log), 0, log;
      this.maxRetries, this.phasesOn := maxRetries, phasesOn;
      this.hitlAtQa, this.hitlOnBlock := hitlAtQa, hitlOnBlock;
    }

    ghost predicate Unique() reads `features { DistinctIds(features) }

    ghost predicate Gated() reads `gates { AllGated(gates, hitlAtQa) }

    /** Why a drive may end in an error. */
    ghost predicate Excused() reads `faulted, `specRead, `unending {
      || faulted
      || SpecGives([])
      || (unending && maxRetries == TOP)
    }

    /** What the spec of this drive says the backlog is. */
    ghost predicate SpecGives(fs: seq<Feature>) reads `specRead {
      specRead.Some? && exists at :: Derived(Lines(specRead.value), at, fs)
    }

    /** A step that the outside can refuse. */
    method Try() returns (ok: bool)
      modifies `faulted
      ensures !ok ==> faulted
      ensures ok ==> faulted == old(faulted)
    {
      ok := *;
      if !ok {
        faulted := true;
      }
    }

    ghost predicate Opening(e: GateEvent) reads `gates {
      Opens(gates, hitlAtQa, e)
    }

    ghost predicate EachInOrder() reads `boards, `stuck {
      forall k :: 0 <= k < |boards| ==> OneInFlight(boards[k], stuck)
    }

    /** The boards end in the backlog as it is now. */
    ghost predicate Orderly() reads `boards, `stuck, `features {
      EachInOrder() && boards != [] && boards[|boards| - 1] == features
    }

    /** The boards before a replacement, judged by themselves. */
    ghost predicate WasOrderly() reads `replaced, `oldBoards, `oldStuck, `stuck {
      && (forall k :: 0 <= k < |oldBoards| ==> OneInFlight(oldBoards[k], oldStuck))
      && stuck == if replaced then {} else oldStuck
    }

    /** No feature but the `i`-th is under way in this drive. */
    ghost predicate OthersRest(i: nat) reads `features, `stuck {
      forall j :: 0 <= j < |features| && j != i ==> !Moving(features[j], stuck)
    }

    ghost predicate AllRest() reads `features, `stuck {
      forall j :: 0 <= j < |features| ==> !Moving(features[j], stuck)
    }

    ghost predicate Focused(id: string, i: nat) reads `features, `stuck {
      Unique() && i < |features| && features[i].id == id && OthersRest(i)
    }

    /** Why a run stopped at a feature: a red gate with its retries used up, or a green QA gate
        that a human has to confirm. */
    ghost predicate HaltedOn(f: Feature) reads `state, `gates {
      || (state == HarnessState.Blocked && f.state == FeatureState.Blocked && f.attempts >= maxRetries && RedLast(gates, f.id))
      || (hitlAtQa && state == AwaitingConfirmation && f.state == FeatureState.AwaitingConfirm
          && Latest(gates, QaGate(f.id, true)))
    }

    /** The phase in memory and the log on disk. */
    function Record(): P.Record reads `phase, `decisions {
      P.Record(phase, decisions)
    }

    /** Everything that happened to the phase and the log is in `ops`. */
    ghost predicate Tracked() reads `phase, `decisions, `origin, `trail, `ops {
      P.Trail(trail, ops) && trail[0] == origin && trail[|ops|] == Record()
    }

    /** Begun in agreement, and with every write landing and no entry holding the marker, a
        restart finds the phase that is in memory. */
    ghost predicate ResumesIfDurable() reads `phase, `decisions, `origin, `ops {
      P.Agrees(origin) && (forall op :: op in ops ==> P.Durable(op)) ==> P.Agrees(Record())
    }

    lemma DurableResumes()
      requires Tracked()
      ensures ResumesIfDurable() && P.Run(origin, ops) == Record()
    {
      P.TrailIsRun(trail, ops);
      if P.Agrees(origin) && forall op :: op in ops ==> P.Durable(op) {
        P.DurableRunAgrees(origin, ops);
      }
    }

    // ---------- engine mutators ----------

    method SetState(s: HarnessState)
      modifies `state, `parks
      ensures state == s
      ensures parks == old(parks) + if s == AwaitingConfirmation then 1 else 0
    {
      state := s;
      if s == AwaitingConfirmation {
        parks := parks + 1;
      }
    }

    /** Updates memory first; persisting can then fail. */
    method SetFeatureState(id: string, s: FeatureState, ghost i: nat) returns (ok: bool)
      requires Focused(id, i) && Orderly()
      modifies `features, `boards, `parks, `faulted
      ensures features == old(features)[i := old(features)[i].(state := s)]
      ensures Focused(id, i) && Orderly()
      ensures parks == old(parks) + if s == FeatureState.AwaitingConfirm then 1 else 0
      ensures !ok ==> faulted
    {
      var found := IndexOfId(features, id);
      features := features[found.value := features[found.value].(state := s)];
      boards := boards + [features];
      if s == FeatureState.AwaitingConfirm {
        parks := parks + 1;
      }
      ok := Try();
    }

    method RecordFeatureFailure(id: string, ghost i: nat) returns (blocked: Option<bool>)
      requires Focused(id, i) && Orderly()
      modifies `features, `boards, `faulted
      ensures features == old(features)[i := AfterFailure(old(features)[i], maxRetries)]
      ensures Focused(id, i) && Orderly()
      ensures blocked.Some? ==> blocked.value == (features[i].attempts >= maxRetries)
      ensures blocked.None? ==> faulted
    {
      var found := IndexOfId(features, id).value;
      var n := WrappingSucc(features[found].attempts);
      var isBlocked := n >= maxRetries;
      features := features[found := features[found].(
        attempts := n, state := if isBlocked then FeatureState.Blocked else Coding)];
      boards := boards + [features];
      var ok := Try();
      blocked := if ok then Some(isBlocked) else None;
    }

    /** Gives every blocked feature a fresh budget. */
    method ResetBlockedFeatures() returns (ok: bool)
      requires Unique() && AllRest() && Orderly()
      modifies `features, `boards, `faulted
      ensures Unique() && AllRest() && Orderly()
      ensures features == ResetAll(old(features))
      ensures !ok ==> faulted
    {
      var reset := false;
      ghost var before := features;
      for i := 0 to |features|
        invariant |features| == |before| && boards == old(boards)
        invariant forall j :: 0 <= j < i ==> features[j] == Reset(before[j])
        invariant forall j :: i <= j < |before| ==> features[j] == before[j]
      {
        if features[i].state == FeatureState.Blocked {
          features := features[i := features[i].(state := Pending, attempts := 0)];
          reset := true;
        }
      }
      assert AllRest() && OneInFlight(features, stuck) by {
        assert forall j :: 0 <= j < |features| ==> Moving(features[j], stuck) == Moving(before[j], stuck);
      }
      boards := boards + [features];
      if reset {
        ok := Try();
      } else {
        ok := true;
      }
    }

    /** An append that may stop after any number of characters; its error is ignored. */
    method WriteEntry(entry: string) returns (ghost kept: nat)
      modifies `decisions
      ensures Record() == P.Step(old(Record()), P.Decide(entry, kept))
    {
      var written := AskCount();
      decisions := decisions + P.Part(entry, written);
      kept := written;
    }

    method AppendDecision(entry: string)
      requires Tracked()
      modifies `decisions, `trail, `ops
      ensures Tracked()
      ensures |ops| == |old(ops)| + 1 && old(ops) <= ops
      ensures ops[|old(ops)|].Decide? && ops[|old(ops)|].entry == entry
    {
      ghost var kept := WriteEntry(entry);
      Track(P.Decide(entry, kept));
    }

    /** The last thing noted is the transition to `to`. */
    ghost predicate Noted(before: seq<P.Op>, to: P.SpecPhase) reads `ops {
      |ops| == |before| + 1 && before <= ops && ops[|before|].SetPhase? && ops[|before|].to == to
    }

    /** Notes one step that has just been taken. */
    ghost method Track(op: P.Op)
      requires P.Trail(trail, ops) && trail[0] == origin && Record() == P.Step(trail[|ops|], op)
      modifies `trail, `ops
      ensures Tracked() && ops == old(ops) + [op]
    {
      P.TrailSnoc(trail, ops, op, Record());
      trail, ops := trail + [Record()], ops + [op];
    }

    /** A transition resets the gate counter and, unless it stays put, is logged. */
    method SetPhase(to: P.SpecPhase)
      requires Tracked()
      modifies `phase, `phaseAttempts, `decisions, `trail, `ops, `entered, `parks
      ensures Tracked() && Noted(old(ops), to)
      ensures phase == to && phaseAttempts == 0 && entered == old(entered) + [to]
      ensures parks == old(parks) + if to == P.SpecPhase.AwaitingConfirm then 1 else 0
    {
      ghost var kept := EnterPhase(to);
      Track(P.SetPhase(to, kept));
      entered := entered + [to];
      if to == P.SpecPhase.AwaitingConfirm {
        parks := parks + 1;
      }
    }

    method EnterPhase(to: P.SpecPhase) returns (ghost kept: nat)
      modifies `phase, `phaseAttempts, `decisions
      ensures Record() == P.Step(old(Record()), P.SetPhase(to, kept))
      ensures phase == to && phaseAttempts == 0
    {
      var from := phase;
      phase := to;
      phaseAttempts := 0;
      var written := AskCount();
      if from != to {
        decisions := decisions + P.Part(P.EnteredEntry(to, from), written);
      }
      kept := written;
    }

    // ---------- one feature ----------

    /** Runs `verify.sh`; `None` is an error on the way. */
    method RunVerifyOnce(id: string, ghost i: nat) returns (green: Option<bool>)
      requires Focused(id, i) && Orderly() && Gated() && Latest(gates, Prompted(id))
      modifies `state, `parks, `features, `boards, `gates, `unitRuns, `faulted
      ensures Focused(id, i) && Orderly() && Gated()
      ensures features == old(features)[i := old(features)[i].(state := FeatureState.Verifying)]
      ensures green.None? ==> gates == old(gates)
      ensures green.Some? ==> gates == old(gates) + [UnitGate(id, green.value)]
      ensures unitRuns == old(unitRuns) + if green.Some? then multiset{id} else multiset{}
      ensures parks == old(parks)
      ensures green.None? ==> faulted
    {
      var ok := SetFeatureState(id, FeatureState.Verifying, i);
      if !ok { return None; }
      SetState(HarnessState.Verifying);
      ok := Try();
      if !ok { return None; }
      var passed := Ask();
      GatedSnoc(gates, hitlAtQa, UnitGate(id, passed));
      gates := gates + [UnitGate(id, passed)];
      unitRuns := unitRuns + multiset{id};
      green := Some(passed);
    }

    /** Runs `qa.sh`, or a QA agent whose missing or unreadable verdict is a red gate. */
    method RunQaGate(id: string, ghost i: nat) returns (green: Option<bool>, ghost evidence: Evidence)
      requires Focused(id, i) && Orderly() && Gated() && Latest(gates, UnitGate(id, true))
      modifies `features, `boards, `gates, `parks, `faulted
      ensures Focused(id, i) && Orderly() && Gated()
      ensures features == old(features)[i := old(features)[i].(state := ReadyToTest)]
      ensures green.None? ==> gates == old(gates)
      ensures green.Some? ==> gates == old(gates) + [QaGate(id, green.value)]
      ensures green == Some(true) <==> green.Some? && Shows(evidence)
      ensures parks == old(parks)
      ensures green.None? ==> faulted
    {
      evidence := Script(false);
      var ok := SetFeatureState(id, ReadyToTest, i);
      if !ok { return None, evidence; }
      ok := Try();
      if !ok { return None, evidence; }
      var found := AskEvidence();
      var passed :=
        match found
        case NoScript => true
        case Script(exitedZero) => exitedZero
        case Agent(Says(verdict, _)) => verdict
        case Agent(_) => false;
      GatedSnoc(gates, hitlAtQa, QaGate(id, passed));
      gates := gates + [QaGate(id, passed)];
      green, evidence := Some(passed), found;
    }

    /** Types a prompt to the coding agent and waits for it to settle. */
    method Prompt(id: string) returns (ok: bool)
      requires Gated() && Opening(Prompted(id))
      modifies `gates, `faulted
      ensures Gated() && gates == old(gates) + [Prompted(id)]
      ensures !ok ==> faulted
    {
      GatedSnoc(gates, hitlAtQa, Prompted(id));
      gates := gates + [Prompted(id)];
      ok := Try();
    }

    /** Records a red gate; `Some(true)` halts the run, `Some(false)` goes round again. */
    method HandleGateFailure(id: string, ghost i: nat) returns (r: FeatureOutcome)
      requires Focused(id, i) && Orderly() && Gated() && RedLast(gates, id)
      modifies `state, `parks, `features, `boards, `gates, `faulted
      ensures Focused(id, i) && Orderly() && Gated()
      ensures features == old(features)[i := AfterFailure(old(features)[i], maxRetries)]
      ensures old(gates) <= gates
      ensures parks == old(parks)
      ensures r in {Error, Halted, Again}
      ensures r == Halted ==> gates == old(gates)
      ensures r == Halted ==> HaltedOn(features[i])
      ensures r == Again ==> features[i].attempts < maxRetries && gates == old(gates) + [Prompted(id)]
      ensures r == Error ==> faulted
    {
      var blocked := RecordFeatureFailure(id, i);
      if blocked.None? { return Error; }
      if blocked.value {
        SetState(HarnessState.Blocked);
        return Halted;
      }
      SetState(Running);
      var ok := Prompt(id);
      r := if ok then Again else Error;
    }

    method MarkFeatureDone(id: string, ghost i: nat) returns (ok: bool)
      requires Focused(id, i) && Orderly() && Gated()
      requires Latest(gates, QaGate(id, true)) && !hitlAtQa
      modifies `features, `boards, `gates, `parks, `faulted
      ensures Focused(id, i) && Orderly() && Gated()
      ensures features == old(features)[i := old(features)[i].(state := FeatureState.Done)]
      ensures gates == old(gates) + [Finished(id)]
      ensures parks == old(parks)
      ensures !ok ==> faulted
    {
      ok := SetFeatureState(id, FeatureState.Done, i);
      GatedSnoc(gates, hitlAtQa, Finished(id));
      gates := gates + [Finished(id)];
      if ok {
        ok := Try();
      }
    }

    method AwaitConfirm(id: string, ghost i: nat) returns (ok: bool)
      requires Focused(id, i) && Orderly()
      modifies `features, `boards, `state, `parks, `faulted
      ensures Focused(id, i) && Orderly()
      ensures features == old(features)[i := old(features)[i].(state := FeatureState.AwaitingConfirm)]
      ensures ok ==> state == AwaitingConfirmation
      ensures !ok ==> faulted
    {
      ok := SetFeatureState(id, FeatureState.AwaitingConfirm, i);
      if ok {
        SetState(AwaitingConfirmation);
      }
    }

    /** The second half of a pass, after a green unit gate. */
    method QaStage(id: string, ghost i: nat) returns (r: FeatureOutcome)
      requires Focused(id, i) && Orderly() && Gated()
      requires Latest(gates, UnitGate(id, true))
      modifies `state, `parks, `features, `boards, `gates, `faulted
      ensures Focused(id, i) && Orderly() && Gated()
      ensures OnlyTouches(old(features), features, i)
      ensures old(gates) <= gates
      ensures !hitlAtQa ==> parks == old(parks)
      ensures features[i].state == FeatureState.Done ==> Finished(id) in gates
      ensures r == Green ==> features[i].state == FeatureState.Done && Latest(gates, Finished(id))
      ensures r == Again ==> features[i].attempts == WrappingSucc(old(features)[i].attempts) < maxRetries
      ensures r == Again ==> Latest(gates, Prompted(id))
      ensures r == Halted ==> HaltedOn(features[i])
      ensures r == Error ==> faulted
    {
      ghost var evidence;
      var qa;
      qa, evidence := RunQaGate(id, i);
      if qa.None? { return Error; }
      if !qa.value {
        r := HandleGateFailure(id, i);
      } else if hitlAtQa {
        var ok := AwaitConfirm(id, i);
        r := if ok then Halted else Error;
      } else {
        var ok := MarkFeatureDone(id, i);
        assert gates[|gates| - 1] == Finished(id);
        r := if ok then Green else Error;
      }
    }

    /** One pass of the retry loop: unit gate, then QA gate, then done or parked. */
    method GateRound(id: string, ghost i: nat) returns (r: FeatureOutcome)
      requires Focused(id, i) && Orderly() && Gated() && Latest(gates, Prompted(id))
      modifies `state, `parks, `features, `boards, `gates, `unitRuns, `faulted
      ensures Focused(id, i) && Orderly() && Gated()
      ensures OnlyTouches(old(features), features, i)
      ensures old(gates) <= gates
      ensures unitRuns == old(unitRuns) || unitRuns == old(unitRuns) + multiset{id}
      ensures !hitlAtQa ==> parks == old(parks)
      ensures features[i].state == FeatureState.Done ==> Finished(id) in gates
      ensures r == Green ==> features[i].state == FeatureState.Done && Latest(gates, Finished(id))
      ensures r == Again ==> features[i].attempts == WrappingSucc(old(features)[i].attempts) < maxRetries
      ensures r == Again ==> Latest(gates, Prompted(id))
      ensures r == Halted ==> HaltedOn(features[i])
      ensures r == Error ==> faulted
    {
      var unit := RunVerifyOnce(id, i);
      if unit.None? { return Error; }
      if unit.value {
        r := QaStage(id, i);
      } else {
        r := HandleGateFailure(id, i);
      }
    }

    /** Spawns the coding agent and prompts it. */
    method StartFeature(id: string, ghost i: nat) returns (ok: bool)
      requires Focused(id, i) && Orderly() && Gated() && BetweenGates(gates)
      modifies `state, `parks, `features, `boards, `gates, `faulted
      ensures Focused(id, i) && Orderly() && Gated()
      ensures features == old(features) || features == old(features)[i := old(features)[i].(state := Coding)]
      ensures gates == old(gates) || gates == old(gates) + [Prompted(id)]
      ensures ok ==> features[i].state == Coding && Latest(gates, Prompted(id))
      ensures parks == old(parks)
      ensures !ok ==> faulted
    {
      SetState(Running);
      ok := Try();
      if !ok { return; }
      ok := SetFeatureState(id, Coding, i);
      if !ok { return; }
      ok := Prompt(id);
    }

    /** Starts the agent on a feature and goes round the gates until the feature is
        done, parked or blocked, or the drive fails. */
    method DriveFeature(id: string, ghost i: nat) returns (r: FeatureOutcome)
      requires Focused(id, i) && Orderly() && Gated() && BetweenGates(gates)
      modifies `state, `parks, `features, `boards, `gates, `unitRuns, `faulted
      ensures Focused(id, i) && Orderly() && Gated()
      ensures OnlyTouches(old(features), features, i)
      ensures old(gates) <= gates
      ensures forall other :: other != id ==> unitRuns[other] == old(unitRuns)[other]
      ensures unitRuns[id] <= old(unitRuns)[id] + FailuresLeft(old(features)[i].attempts, maxRetries)
      ensures !hitlAtQa ==> parks == old(parks)
      ensures features[i].state == FeatureState.Done && old(features)[i].state != FeatureState.Done ==> Finished(id) in gates
      ensures r == Green ==> features[i].state == FeatureState.Done && BetweenGates(gates)
      ensures r == Halted ==> HaltedOn(features[i])
      ensures r != Again
      ensures r == Error ==> faulted
    {
      var ok := StartFeature(id, i);
      r := if ok then Again else Error;
      while r == Again
        invariant Focused(id, i) && Orderly() && Gated()
        invariant OnlyTouches(old(features), features, i)
        invariant old(gates) <= gates
        invariant forall other :: other != id ==> unitRuns[other] == old(unitRuns)[other]
        invariant unitRuns[id] + (if r == Again then FailuresLeft(features[i].attempts, maxRetries) else 0)
               <= old(unitRuns)[id] + FailuresLeft(old(features)[i].attempts, maxRetries)
        invariant !hitlAtQa ==> parks == old(parks)
        invariant r == Again ==> Latest(gates, Prompted(id))
        invariant features[i].state == FeatureState.Done && old(features)[i].state != FeatureState.Done ==> Finished(id) in gates
        invariant r == Green ==> features[i].state == FeatureState.Done && BetweenGates(gates)
        invariant r == Halted ==> HaltedOn(features[i])
        invariant r == Error ==> faulted
        decreases r == Again, FailuresLeft(features[i].attempts, maxRetries)
      {
        r := GateRound(id, i);
      }
    }

    // ---------- role gates ----------

    /** Agent runs that a role's gate may take. */
    function Allowed(gated: bool): nat {
      if gated then maxRetries as nat + 1 else 0
    }

    predicate Held() reads `state, `phase {
      || (!hitlOnBlock && state == HarnessState.Blocked && phase == P.SpecPhase.Blocked)
      || (hitlOnBlock && state == AwaitingConfirmation && phase == P.SpecPhase.AwaitingConfirm)
    }

    /** Each role's gate took no more agent runs than the limit allows. */
    ghost predicate RolesBounded() reads `roleRuns {
      maxRetries < TOP ==> forall q :: roleRuns[q] <= maxRetries as int + 1
    }

    /** The verdict file of a role's agent: missing or unreadable, the gate is red. */
    method Verdict() returns (passed: bool, summary: string, ghost file: VerdictFile)
      ensures passed <==> file.Says? && file.passed
      ensures file.Says? ==> summary == file.summary
    {
      var found := AskVerdict();
      summary := AskText();
      passed := false;
      if found.Says? {
        passed, summary := found.passed, found.summary;
      }
      file := found;
    }

    /** The last thing noted is an entry about the gate of `p`. */
    ghost predicate Told(before: seq<P.Op>, p: P.SpecPhase, summary: string) reads `ops {
      && |ops| == |before| + 1 && before <= ops && ops[|before|].Decide?
      && exists outcome :: ops[|before|].entry == P.GateEntry(p, outcome, summary)
    }

    /** Logs a decided gate; the summary in the entry is the agent's own text. */
    method LogGate(p: P.SpecPhase, d: GateDecision, summary: string)
      requires Tracked()
      modifies `decisions, `trail, `ops
      ensures Tracked()
      ensures Told(old(ops), p, summary)
    {
      var n := Decimal.Print(phaseAttempts as int);
      var outcome :=
        match d
        case Advance => "PASS (attempt " + n + ")"
        case Block => "BLOCKED after " + n + " attempts"
        case _ => "AWAITING HUMAN after " + n + " attempts";
      LogOutcome(p, outcome, summary);
    }

    method LogOutcome(p: P.SpecPhase, outcome: string, summary: string)
      requires Tracked()
      modifies `decisions, `trail, `ops
      ensures Tracked() && Told(old(ops), p, summary)
    {
      AppendDecision(P.GateEntry(p, outcome, summary));
    }

    /** The run stops at a role gate, and the phase says how. */
    method Hold(p: P.SpecPhase, d: GateDecision, summary: string)
      requires d == if hitlOnBlock then GateDecision.AwaitConfirm else Block
      requires Tracked()
      modifies `state, `phase, `phaseAttempts, `decisions, `trail, `ops, `entered, `parks
      ensures Tracked()
      ensures Held()
      ensures !hitlOnBlock ==> parks == old(parks)
    {
      LogGate(p, d, summary);
      if d == Block {
        SetPhase(P.SpecPhase.Blocked);
        SetState(HarnessState.Blocked);
      } else {
        SetPhase(P.SpecPhase.AwaitingConfirm);
        SetState(AwaitingConfirmation);
      }
    }

    /** What a decision comes to: a pass is logged, a stop holds the run, a retry does nothing. */
    method ActOn(p: P.SpecPhase, d: GateDecision, summary: string)
      requires Tracked() && (d !in {Advance, Retry} ==> d == if hitlOnBlock then GateDecision.AwaitConfirm else Block)
      modifies `state, `phase, `phaseAttempts, `decisions, `trail, `ops, `entered, `parks, `passedRoles
      ensures Tracked()
      ensures passedRoles == old(passedRoles) + if d == Advance then {p} else {}
      ensures !hitlOnBlock ==> parks == old(parks)
      ensures if d in {Advance, Retry}
        then phase == old(phase) && parks == old(parks) && entered == old(entered) && phaseAttempts == old(phaseAttempts)
        else Held()
      ensures d == Advance ==> Told(old(ops), p, summary)
      ensures d == Retry ==> ops == old(ops)
    {
      if d == Advance {
        LogGate(p, d, summary);
        passedRoles := passedRoles + {p};
      } else if d != Retry {
        Hold(p, d, summary);
      }
    }

    /** One run of the agent of `p`'s role and what its verdict decides. */
    method RunRoleOnce(p: P.SpecPhase) returns (decision: Option<GateDecision>, ghost file: VerdictFile)
      requires phaseAttempts <= maxRetries
      requires Tracked()
      modifies `state, `phase, `phaseAttempts, `decisions, `trail, `ops, `entered, `parks, `roleRuns, `passedRoles, `faulted
      ensures Tracked()
      ensures roleRuns == old(roleRuns) + if decision.Some? then multiset{p} else multiset{}
      ensures passedRoles == old(passedRoles) + if decision == Some(Advance) then {p} else {}
      ensures parks == old(parks) || hitlOnBlock
      ensures decision.None? || decision.value in {Advance, Retry} ==>
        phase == old(phase) && parks == old(parks) && entered == old(entered)
      ensures decision == Some(Retry) ==> phaseAttempts == WrappingSucc(old(phaseAttempts)) <= maxRetries
      ensures decision.Some? && decision.value !in {Advance, Retry} ==>
        Held() && old(phaseAttempts) == maxRetries < TOP
      ensures decision.None? ==> faulted
      ensures decision.Some? ==> (decision.value == Advance <==> file.Says? && file.passed)
    {
      var ok := Try();
      file := Missing;
      if !ok { return None, file; }
      var verdict, summary;
      verdict, summary, file := Verdict();
      phaseAttempts := WrappingSucc(phaseAttempts);
      roleRuns := roleRuns + multiset{p};
      var d := DecideGate(verdict, phaseAttempts, maxRetries, hitlOnBlock);
      ActOn(p, d, summary);
      decision := Some(d);
    }

    /** Runs the agent of `p`'s role until its gate passes or its retries run out, which
        holds the run; a phase without a role has nothing to gate. With the limit at its top
        the retries never run out: the gate is then watched for some number of rounds. */
    method RunRoleGate(p: P.SpecPhase) returns (passed: Option<bool>)
      requires phaseAttempts == 0 && !unending
      requires Tracked()
      modifies `state, `phase, `phaseAttempts, `decisions, `trail, `ops, `entered, `parks, `roleRuns, `faulted,
               `passedRoles, `unending
      ensures Tracked()
      ensures forall q :: q != p ==> roleRuns[q] == old(roleRuns)[q]
      ensures maxRetries < TOP ==> roleRuns[p] <= old(roleRuns)[p] + maxRetries as int + 1
      ensures !hitlOnBlock ==> parks == old(parks)
      ensures passed.Some? && !passed.value ==>
        Held() && maxRetries < TOP && roleRuns[p] == old(roleRuns)[p] + maxRetries as int + 1
      ensures unending ==> passed.None? && maxRetries == TOP
      ensures passed.None? || passed.value ==> phase == old(phase) && entered == old(entered)
      ensures passedRoles
           == old(passedRoles) + if passed.Some? && passed.value && HasRole(p) then {p} else {}
      ensures passed.None? ==> faulted || unending
    {
      if !HasRole(p) { return Some(true); }
      var watched := AskCount();
      while true
        invariant Tracked() && phaseAttempts <= maxRetries && !unending
        invariant forall q :: q != p ==> roleRuns[q] == old(roleRuns)[q]
        invariant maxRetries < TOP ==> roleRuns[p] == old(roleRuns)[p] + phaseAttempts as int
        invariant parks == old(parks) && phase == old(phase) && passedRoles == old(passedRoles)
        invariant entered == old(entered)
        decreases if maxRetries < TOP then (maxRetries - phaseAttempts) as int else watched
      {
        if maxRetries == TOP {
          if watched == 0 {
            unending := true;
            return None;
          }
          watched := watched - 1;
        }
        ghost var file;
        var decision;
        decision, file := RunRoleOnce(p);
        if decision.None? { return None; }
        if decision.value != Retry {
          return Some(decision.value == Advance);
        }
      }
    }

    /** The backlog of whatever the spec says now; `None` when it cannot be read. */
    method PlanFromSpec() returns (derived: Option<seq<Feature>>)
      modifies `specRead, `faulted
      ensures derived.None? ==> faulted
      ensures derived.Some? ==> IsFresh(derived.value) && SpecGives(derived.value)
    {
      var ok := Try();
      if !ok { return None; }
      var spec := AskText();
      specRead := Some(spec);
      ghost var at;
      var fs;
      fs, at := DeriveBacklog(spec);
      DerivedIsFresh(Lines(spec), at, fs);
      derived := Some(fs);
    }

    /** Replaces the backlog by one derived from the spec. */
    method Decompose() returns (ok: bool)
      requires AllRest() && Unique() && Orderly() && WasOrderly() && !replaced
      modifies `features, `boards, `stuck, `replaced, `oldBoards, `specRead, `faulted
      ensures AllRest() && Unique() && Orderly() && WasOrderly() && oldBoards <= old(boards)
      ensures replaced == ok && (ok ==> oldBoards == old(boards) && boards == [features])
      ensures ok ==> features != [] && IsFresh(features) && SpecGives(features)
      ensures !ok ==> Excused()
    {
      oldBoards := [];
      var derived := PlanFromSpec();
      if derived.None? || derived.value == [] { return false; }
      ok := Try();
      if !ok { return; }
      features := derived.value;
      Replace();
    }

    ghost method Replace()
      requires EachInOrder() && WasOrderly() && !replaced && IsFresh(features)
      modifies `boards, `stuck, `replaced, `oldBoards
      ensures AllRest() && Orderly() && WasOrderly() && replaced
      ensures oldBoards == old(boards) && boards == [features]
    {
      oldBoards, boards, stuck, replaced := boards, [features], {}, true;
    }

    /** Enters a phase and runs its gate. */
    method RunPhase(p: P.SpecPhase) returns (passed: Option<bool>)
      requires !unending && HasRole(p)
      requires Tracked()
      modifies `state, `phase, `phaseAttempts, `decisions, `trail, `ops, `entered, `parks, `roleRuns, `faulted,
               `passedRoles, `unending
      ensures Tracked()
      ensures unending ==> passed.None? && maxRetries == TOP
      ensures maxRetries < TOP ==> forall q :: roleRuns[q] <= old(roleRuns)[q] + Allowed(q == p)
      ensures !hitlOnBlock ==> parks == old(parks)
      ensures passed.Some? ==> if passed.value then phase == p && entered == old(entered) + [p] else Held()
      ensures passedRoles == old(passedRoles) + if passed.Some? && passed.value then {p} else {}
      ensures passed.None? ==> faulted || unending
    {
      SetPhase(p);
      passed := RunRoleGate(p);
    }

    /** PM gate, then architect gate. */
    method RunPlanningGates() returns (passed: Option<bool>)
      requires !unending
      requires Tracked()
      modifies `state, `phase, `phaseAttempts, `decisions, `trail, `ops, `entered, `parks, `roleRuns, `faulted,
               `passedRoles, `unending
      ensures Tracked()
      ensures unending ==> passed.None? && maxRetries == TOP
      ensures maxRetries < TOP ==> forall q :: roleRuns[q] <= old(roleRuns)[q] + Allowed(IsPlanning(q))
      ensures !hitlOnBlock ==> parks == old(parks)
      ensures passed.Some? && !passed.value ==> Held()
      ensures passed.Some? && passed.value ==>
        {P.Authoring, P.Architecture} <= passedRoles && entered == old(entered) + [P.Authoring, P.Architecture]
      ensures passed.None? ==> faulted || unending
    {
      passed := RunPhase(P.Authoring);
      if passed.Some? && passed.value {
        passed := RunPhase(P.Architecture);
      }
    }

    /** PM gate, architect gate, then the backlog; `false` is an error on the way. */
    method RunPreFeaturePhases() returns (ok: bool)
      requires !unending
      requires AllRest() && Unique() && Orderly()
      requires Tracked() && WasOrderly() && !replaced
      modifies `state, `features, `boards, `stuck, `replaced, `oldBoards, `phase, `phaseAttempts, `decisions, `specRead, `faulted,
               `trail, `ops, `entered, `parks, `roleRuns, `passedRoles, `unending
      ensures Tracked() && WasOrderly() && (ok && phase == P.SpecPhase.Executing ==> replaced)
      ensures unending ==> !ok && maxRetries == TOP
      ensures AllRest() && Unique() && Orderly()
      ensures maxRetries < TOP ==> forall q :: roleRuns[q] <= old(roleRuns)[q] + Allowed(IsPlanning(q))
      ensures !hitlOnBlock ==> parks == old(parks)
      ensures ok ==> Held() || phase == P.SpecPhase.Executing
      ensures ok && phase == P.SpecPhase.Executing ==>
        features != [] && IsFresh(features) && SpecGives(features)
        && {P.Authoring, P.Architecture} <= passedRoles && entered == old(entered) + PLANNING
      ensures !ok ==> Excused()
    {
      var planned := RunPlanningGates();
      if planned.None? || !planned.value { return planned.Some?; }
      ok := PlanFeatures();
    }

    /** From the gates to the feature loop: the backlog is made in between. */
    method PlanFeatures() returns (ok: bool)
      requires AllRest() && Unique() && Orderly()
      requires Tracked() && WasOrderly() && !replaced
      modifies `features, `boards, `stuck, `replaced, `oldBoards, `phase, `phaseAttempts, `decisions, `trail, `specRead, `faulted,
               `ops, `entered, `parks
      ensures Tracked() && WasOrderly() && replaced == ok
      ensures AllRest() && Unique() && Orderly()
      ensures parks == old(parks)
      ensures phase == if ok then P.Executing else P.SpecPhase.Decompose
      ensures ok ==> features != [] && IsFresh(features) && SpecGives(features)
      ensures ok ==> entered == old(entered) + [P.SpecPhase.Decompose, P.Executing]
      ensures !ok ==> Excused()
    {
      SetPhase(P.SpecPhase.Decompose);
      ok := Decompose();
      if ok {
        SetPhase(P.Executing);
      }
    }

    /** The review gate, once no feature is pending. */
    method RunReviewPhase() returns (ok: bool)
      requires !unending
      requires Tracked()
      modifies `state, `phase, `phaseAttempts, `decisions, `trail, `ops, `entered, `parks, `roleRuns, `faulted,
               `passedRoles, `unending
      ensures Tracked()
      ensures unending ==> !ok && maxRetries == TOP
      ensures maxRetries < TOP ==> forall q :: roleRuns[q] <= old(roleRuns)[q] + Allowed(q.Review?)
      ensures !hitlOnBlock ==> parks == old(parks)
      ensures ok ==> Held() || phase == P.SpecPhase.Done
      ensures ok && phase == P.SpecPhase.Done ==>
        passedRoles == old(passedRoles) + {P.Review} && entered == old(entered) + CLOSING
      ensures !ok ==> Excused()
    {
      var reviewed := RunPhase(P.Review);
      if reviewed.Some? && reviewed.value {
        SetPhase(P.SpecPhase.Done);
      }
      ok := reviewed.Some?;
    }

    // ---------- the drive ----------

    /** A feature is only taken when the pending ones before it are done. */
    ghost predicate InOrder(base: seq<Feature>) reads `features {
      && |features| == |base|
      && forall j, k :: 0 <= j < k < |base| && base[j].state == Pending && features[k] != base[k] ==>
        features[j].state == FeatureState.Done
    }

    /** Where the features stand against `base`, the backlog the feature loop began with. */
    ghost predicate Accounted(base: seq<Feature>) reads `features, `gates, `unitRuns {
      && |features| == |base| && InOrder(base)
      && forall j :: 0 <= j < |base| ==>
        && features[j].id == base[j].id
        && unitRuns[base[j].id] <= FailuresLeft(base[j].attempts, maxRetries)
        && (base[j].state != Pending ==> features[j] == base[j])
        && (features[j].state == FeatureState.Done && base[j].state == Pending ==> Finished(base[j].id) in gates)
    }

    /** Nothing is half done: a pending feature is untouched, a touched one is finished. */
    ghost predicate BetweenFeatures(base: seq<Feature>) reads `features, `unitRuns {
      && |features| == |base|
      && forall j :: 0 <= j < |base| && base[j].state == Pending ==>
        if features[j].state == Pending then features[j] == base[j] && unitRuns[base[j].id] == 0
        else features[j].state == FeatureState.Done
    }

    /** Takes pending features in backlog order until none is left or the run stops. */
    method RunFeatureLoop(ghost base: seq<Feature>) returns (r: FeatureOutcome)
      requires Unique() && AllRest() && Orderly() && Gated()
      requires features == base && unitRuns == multiset{} && gates == []
      modifies `state, `parks, `features, `boards, `gates, `unitRuns, `faulted
      ensures Unique() && Orderly() && Gated() && Accounted(base)
      ensures !hitlAtQa ==> parks == old(parks)
      ensures r == Green ==> BetweenFeatures(base) && PendingAt(features) == {} && BetweenGates(gates)
      ensures r == Halted ==> exists j :: 0 <= j < |features| && HaltedOn(features[j])
      ensures r != Again
      ensures r == Error ==> faulted
    {
      r := Again;
      while r == Again
        invariant Unique() && Orderly() && Gated() && Accounted(base)
        invariant !hitlAtQa ==> parks == old(parks)
        invariant r == Again ==> AllRest() && BetweenFeatures(base) && BetweenGates(gates)
        invariant r == Green ==> BetweenFeatures(base) && PendingAt(features) == {} && BetweenGates(gates)
        invariant r == Error ==> faulted
        invariant r == Halted ==> exists j :: 0 <= j < |features| && HaltedOn(features[j])
        decreases r == Again, PendingAt(features)
      {
        var next := FirstPending(features);
        if next.None? {
          r := Green;
        } else {
          r := TakeFeature(next.value, base);
        }
      }
    }

    method TakeFeature(i: nat, ghost base: seq<Feature>) returns (r: FeatureOutcome)
      requires Unique() && AllRest() && Orderly() && Gated() && Accounted(base) && BetweenFeatures(base)
      requires BetweenGates(gates)
      requires i < |features| && features[i].state == Pending
      requires forall j :: 0 <= j < i ==> features[j].state != Pending
      modifies `state, `parks, `features, `boards, `gates, `unitRuns, `faulted
      ensures Unique() && Orderly() && Gated() && Accounted(base)
      ensures !hitlAtQa ==> parks == old(parks)
      ensures r == Again ==> AllRest() && BetweenFeatures(base) && PendingAt(features) < PendingAt(old(features))
      ensures r == Again ==> BetweenGates(gates)
      ensures r == Halted ==> HaltedOn(features[i])
      ensures r != Green
      ensures r == Error ==> faulted
    {
      assert features[i] == base[i] && base[i].state == Pending;
      r := DriveFeature(features[i].id, i);
      assert i in PendingAt(old(features));
      if r == Green {
        r := Again;
      }
    }

    /** `init.sh`; a red one fails the drive. */
    method RunInit() returns (ok: bool)
      requires !initGreen
      modifies `state, `parks, `initGreen, `faulted
      ensures parks == old(parks) && initGreen == ok
      ensures !ok ==> faulted
    {
      SetState(InitVerifying);
      ok := Try();
      if !ok { return; }
      ok := Try();
      initGreen := ok;
      SetState(if ok then Idle else HarnessState.Failed);
    }

    /** Everything was done: no feature is pending and the role gates are green. */
    ghost predicate Completed(base: seq<Feature>)
      reads `features, `unitRuns, `passedRoles, `entered, `gates
    {
      && AllTaken(base)
      && (phasesOn ==> {P.Authoring, P.Architecture, P.Review} <= passedRoles)
      && entered == if phasesOn then PLANNING + CLOSING else []
    }

    /** Where the feature loop starts from: a fresh backlog, or the old one with blocked
        features reset. */
    ghost predicate StartsFrom(before: seq<Feature>, base: seq<Feature>) reads `specRead {
      if phasesOn then base != [] && IsFresh(base) && SpecGives(base) else base == ResetAll(before)
    }

    /** A run that stops without an error says which gate it stopped at. */
    ghost predicate Stopped() reads `state, `phase, `features, `gates {
      || (Held() && BetweenGates(gates))
      || exists j :: 0 <= j < |features| && HaltedOn(features[j])
    }

    /** Only role gates that can never run out of retries keep a drive from ending. */
    ghost predicate Ends(ok: bool) reads `unending {
      unending ==> !ok && phasesOn && maxRetries == TOP
    }

    /** With both flags off nothing waits for a human. */
    ghost predicate Autonomous() reads `parks {
      !hitlAtQa && !hitlOnBlock ==> parks == 0
    }

    /** The drive's books, at any time. */
    ghost predicate Books() reads `features, `boards, `stuck, `replaced, `oldBoards, `oldStuck, `phase, `decisions, `origin,
                                  `trail, `ops, `roleRuns, `parks {
      Unique() && Orderly() && WasOrderly() && Tracked() && RolesBounded() && Autonomous()
    }

    /** Nothing of this drive has happened yet. */
    ghost predicate Begun() reads `features, `boards, `stuck, `replaced, `oldBoards, `oldStuck, `phase, `decisions, `origin,
                                  `trail, `ops, `roleRuns, `parks, `initGreen, `entered, `unending {
      && Books() && AllRest() && !replaced && roleRuns == multiset{} && parks == 0
      && !initGreen && entered == [] && !unending
    }

    /** The feature loop can start: `init.sh` and the planning gates, if any, are green. */
    ghost predicate Ready(before: seq<Feature>)
      reads `features, `boards, `stuck, `replaced, `oldBoards, `oldStuck, `phase, `decisions, `origin,
            `trail, `ops, `roleRuns, `parks, `initGreen, `entered, `unending, `passedRoles, `specRead
    {
      && Books() && AllRest() && initGreen && !unending && StartsFrom(before, features)
      && (phasesOn ==> replaced && {P.Authoring, P.Architecture} <= passedRoles)
      && (maxRetries < TOP ==> roleRuns[P.Review] == 0)
      && entered == if phasesOn then PLANNING else []
    }

    /** The drive ended before the feature loop. */
    ghost predicate Unready(ok: bool)
      reads `features, `boards, `stuck, `replaced, `oldBoards, `oldStuck, `phase, `decisions, `origin,
            `trail, `ops, `roleRuns, `parks, `initGreen, `unending, `state, `faulted, `specRead
    {
      Books() && Ends(ok) && if ok then initGreen && Held() else Excused()
    }

    /** `init.sh`, then a fresh budget for what was blocked. */
    method GetGoing() returns (ok: bool)
      requires Begun()
      modifies `initGreen, `state, `features, `boards, `parks, `faulted
      ensures Books() && AllRest() && parks == 0
      ensures if ok then initGreen && features == ResetAll(old(features)) else faulted
    {
      ok := RunInit();
      if !ok { return; }
      SetState(Running);
      ok := ResetBlockedFeatures();
    }

    /** Everything before the feature loop; `ready` when the loop is to be entered. */
    method Prepare() returns (ok: bool, ready: bool)
      requires Begun()
      modifies `initGreen, `state, `features, `boards, `stuck, `replaced, `oldBoards, `phase, `phaseAttempts, `specRead,
               `faulted, `decisions, `trail, `ops, `entered, `parks, `roleRuns, `passedRoles, `unending
      ensures if ready then ok && Ready(old(features)) else Unready(ok)
    {
      ready := false;
      ok := GetGoing();
      if ok {
        ok, ready := PlanIfAsked(old(features));
      }
    }

    /** Role phases, when they are on. */
    method PlanIfAsked(ghost before: seq<Feature>) returns (ok: bool, ready: bool)
      requires Books() && AllRest() && !replaced && roleRuns == multiset{} && parks == 0
      requires initGreen && entered == [] && !unending && features == ResetAll(before)
      modifies `state, `features, `boards, `stuck, `replaced, `oldBoards, `phase, `phaseAttempts, `specRead, `faulted,
               `decisions, `trail, `ops, `entered, `parks, `roleRuns, `passedRoles, `unending
      ensures if ready then ok && Ready(before) else Unready(ok)
    {
      if !phasesOn { return true, true; }
      ok := RunPreFeaturePhases();
      ready := ok && phase == P.SpecPhase.Executing;
    }

    /** What the feature loop left, and nothing after it touches. */
    ghost predicate Standing(before: seq<Feature>, base: seq<Feature>)
      reads `features, `boards, `stuck, `replaced, `oldBoards, `oldStuck, `initGreen, `specRead, `gates, `unitRuns
    {
      && Unique() && Orderly() && WasOrderly() && Gated() && StartsFrom(before, base) && (phasesOn ==> replaced)
      && Accounted(base) && initGreen
    }

    ghost predicate AllTaken(base: seq<Feature>) reads `features, `unitRuns, `gates {
      BetweenFeatures(base) && PendingAt(features) == {} && BetweenGates(gates)
    }

    /** The books of the role gates. */
    ghost predicate RoleBooks() reads `phase, `decisions, `origin, `trail, `ops, `roleRuns, `parks {
      Tracked() && RolesBounded() && Autonomous()
    }

    /** The feature loop has been entered with `base`, and the drive has ended. */
    ghost predicate Worked(before: seq<Feature>, base: seq<Feature>, ok: bool)
      reads `features, `boards, `stuck, `replaced, `oldBoards, `oldStuck, `phase, `decisions, `origin, `trail, `ops,
            `roleRuns, `parks, `initGreen, `entered, `unending, `passedRoles, `specRead, `state, `gates, `unitRuns, `faulted
    {
      && Standing(before, base) && RoleBooks() && Ends(ok)
      && if !ok then Excused() else if state == HarnessState.Done then Completed(base) else Stopped()
    }

    /** The feature loop has gone through `base`; with `Green` nothing is left to do in it. */
    ghost predicate Looped(before: seq<Feature>, base: seq<Feature>, r: FeatureOutcome)
      reads `features, `boards, `stuck, `replaced, `oldBoards, `oldStuck, `phase, `decisions, `origin, `trail, `ops,
            `roleRuns, `parks, `initGreen, `entered, `unending, `passedRoles, `specRead, `state, `gates, `unitRuns, `faulted
    {
      && Standing(before, base) && RoleBooks() && !unending
      && (phasesOn ==> {P.Authoring, P.Architecture} <= passedRoles)
      && (maxRetries < TOP ==> roleRuns[P.Review] == 0)
      && entered == (if phasesOn then PLANNING else [])
      && (r == Green ==> AllTaken(base))
      && (r == Halted ==> exists j :: 0 <= j < |features| && HaltedOn(features[j]))
      && (r == Error ==> faulted)
    }

    method LoopThrough(ghost before: seq<Feature>) returns (r: FeatureOutcome)
      requires Ready(before) && gates == [] && unitRuns == multiset{}
      modifies `state, `parks, `features, `boards, `gates, `unitRuns, `faulted
      ensures Looped(before, old(features), r) && r != Again
    {
      r := RunFeatureLoop(features);
    }

    /** The feature loop and what follows it. */
    method WorkThrough(ghost before: seq<Feature>) returns (ok: bool)
      requires Ready(before) && gates == [] && unitRuns == multiset{}
      modifies `state, `features, `boards, `gates, `unitRuns, `phase, `phaseAttempts, `decisions, `trail, `ops, `faulted,
               `entered, `parks, `roleRuns, `passedRoles, `unending
      ensures Worked(before, old(features), ok)
    {
      var r := LoopThrough(before);
      ok := r != Error;
      if r == Green {
        ok := FinishWork(before, old(features));
      }
    }

    method FinishWork(ghost before: seq<Feature>, ghost base: seq<Feature>) returns (ok: bool)
      requires Looped(before, base, Green)
      modifies `state, `phase, `phaseAttempts, `decisions, `trail, `ops, `entered, `parks, `roleRuns, `faulted,
               `passedRoles, `unending
      ensures Worked(before, base, ok)
    {
      ok := Finish();
    }

    /** No feature is pending: the review gate, if any, then the run is done. */
    method Finish() returns (ok: bool)
      requires !unending
      requires Tracked()
      modifies `state, `phase, `phaseAttempts, `decisions, `trail, `ops, `entered, `parks, `roleRuns, `faulted,
               `passedRoles, `unending
      ensures Tracked()
      ensures unending ==> !ok && phasesOn && maxRetries == TOP
      ensures old(RolesBounded() && (maxRetries < TOP ==> roleRuns[P.Review] == 0)) ==> RolesBounded()
      ensures !hitlOnBlock ==> parks == old(parks)
      ensures ok ==> if state == HarnessState.Done
        then old(passedRoles) + (if phasesOn then {P.Review} else {}) <= passedRoles
          && entered == old(entered) + (if phasesOn then CLOSING else [])
        else Held()
      ensures !ok ==> Excused()
    {
      if phasesOn {
        ok := RunReviewPhase();
        if !ok || phase != P.SpecPhase.Done { return; }
      }
      SetState(HarnessState.Done);
      ok := true;
    }

    static ghost predicate StartOver(before: seq<Feature>, base: seq<Feature>) {
      |base| == |before| && forall j :: 0 <= j < |before| && before[j].state == FeatureState.Blocked ==>
        base[j] == Feature(before[j].id, before[j].name, Pending, 0)
    }

    /** How a drive that began with `before` may leave things. */
    ghost predicate Outcome(before: seq<Feature>, reached: bool, base: seq<Feature>)
      reads `features, `boards, `stuck, `replaced, `oldBoards, `oldStuck, `gates, `unitRuns, `roleRuns, `parks,
            `specRead
    {
      // At every step at most one feature is in flight, apart from those in flight before;
      // of a new backlog, at most one without exception.
      && WasOrderly() && Orderly() && oldStuck == Stuck(before)
      && (reached && phasesOn ==> replaced && stuck == {})
      // Each prompt, gate and finish came where it may; with a human to confirm, no finish.
      && Gated() && (hitlAtQa ==> forall id :: Finished(id) !in gates)
      // The gates ran no more often than the retry limit and each feature's count allow.
      && (if reached then StartsFrom(before, base) && Accounted(base) else unitRuns == multiset{})
      && RolesBounded()
      // A feature that was blocked starts over.
      && (reached && !phasesOn ==> StartOver(before, base))
      // With both flags off nothing was put on hold for a human.
      && Autonomous()
    }

    /** What a drive without an error means. A finished one leaves every feature done,
        except those that were in flight before it and that it passed over. */
    ghost predicate Concluded(before: seq<Feature>, reached: bool, base: seq<Feature>)
      reads `state, `phase, `features, `unitRuns, `passedRoles, `entered, `initGreen, `gates
    {
      initGreen &&
      if state == HarnessState.Done then
        && reached && Completed(base) && (hitlAtQa ==> PendingAt(base) == {})
        && ((forall j :: 0 <= j < |features| ==> features[j].state == FeatureState.Done)
              <==> (phasesOn || forall j :: 0 <= j < |before| ==> !InFlight(before[j])))
      else Stopped()
    }

    /** How a drive that began with `before` and with the record `was` has ended. */
    ghost predicate Over(before: seq<Feature>, was: P.Record, ok: bool, reached: bool, base: seq<Feature>)
      reads `state, `phase, `features, `unitRuns, `passedRoles, `entered, `initGreen, `gates, `boards, `stuck, `replaced,
            `oldBoards, `oldStuck, `roleRuns, `parks, `specRead, `decisions, `origin, `trail, `ops, `unending, `faulted
    {
      && Outcome(before, reached, base)
      && (if ok then Concluded(before, reached, base) else Excused())
      // The log gained what the phase went through; if every write landed and no entry has
      // the marker, a restart resumes in the phase the drive left.
      && Tracked() && origin == was && ResumesIfDurable()
      // It ends, unless role phases are on and their retries can never run out.
      && Ends(ok)
    }

    /** One drive. Nothing is assumed about scripts, agents, verdicts or the disk. */
    method Drive() returns (ok: bool, ghost reached: bool, ghost base: seq<Feature>)
      requires Unique()
      modifies this
      ensures Over(old(features), old(Record()), ok, reached, base)
      ensures !unending ==> !driving
    {
      ok, reached, base := DriveLogged();
      Release(ok, old(features), old(Record()), reached, base);
    }

    /** The driver slot is given back, and an error fails the run. */
    method Release(ok: bool, ghost before: seq<Feature>, ghost was: P.Record, ghost reached: bool, ghost base: seq<Feature>)
      requires Over(before, was, ok, reached, base)
      modifies `driving, `state
      ensures Over(before, was, ok, reached, base)
      ensures !unending ==> !driving
    {
      if unending { return; }
      driving := false;
      if !ok {
        Fail();
      }
    }

    method DriveLogged() returns (ok: bool, ghost reached: bool, ghost base: seq<Feature>)
      requires Unique()
      modifies this
      ensures Over(old(features), old(Record()), ok, reached, base)
    {
      unending := false;
      BeginLogs();
      ok, reached, base := DriveInner();
      Conclude(old(features), ok, reached, base);
    }

    method DriveInner() returns (ok: bool, ghost reached: bool, ghost base: seq<Feature>)
      requires Begun() && gates == [] && unitRuns == multiset{}
      modifies `initGreen, `state, `features, `boards, `stuck, `replaced, `oldBoards, `gates, `unitRuns, `phase, `specRead,
               `faulted, `phaseAttempts, `decisions, `trail, `ops, `entered, `parks, `roleRuns, `passedRoles, `unending
      ensures if reached then Worked(old(features), base, ok) else Unready(ok) && gates == [] && unitRuns == multiset{}
    {
      var ready;
      ok, ready := Prepare();
      reached, base := ready, features;
      if ready {
        ok := WorkThrough(old(features));
      }
    }

    lemma Conclude(before: seq<Feature>, ok: bool, reached: bool, base: seq<Feature>)
      requires oldStuck == Stuck(before)
      requires if reached then Worked(before, base, ok) else Unready(ok) && gates == [] && unitRuns == multiset{}
      ensures Outcome(before, reached, base) && Tracked() && ResumesIfDurable() && Ends(ok)
      ensures if ok then Concluded(before, reached, base) else Excused()
    {
      DurableResumes();
      if hitlAtQa {
        NothingFinishes(gates);
      }
      if ok && state == HarnessState.Done {
        AllDoneIff(before, base);
        if hitlAtQa { NothingToConfirm(base); }
      }
    }

    /** An error fails the run, unless it was removed meanwhile. */
    method Fail()
      modifies `state
    {
      var stillRegistered := Ask();
      if stillRegistered {
        state := HarnessState.Failed;
      }
    }

    ghost method BeginTrail()
      modifies `origin, `trail, `ops
      ensures Tracked() && origin == Record()
    {
      origin, trail, ops := Record(), [Record()], [];
    }

    ghost method BeginLogs()
      requires Unique() && !unending
      modifies `gates, `unitRuns, `roleRuns, `passedRoles, `parks, `entered, `initGreen, `faulted, `specRead,
               `origin, `trail, `ops, `stuck, `boards, `replaced, `oldBoards, `oldStuck
      ensures Begun() && oldStuck == Stuck(features) && origin == Record()
      ensures gates == [] && unitRuns == multiset{} && !faulted && specRead == None
    {
      BeginCounts();
      BeginTrail();
      BeginBoards();
    }

    ghost method BeginCounts()
      modifies `gates, `unitRuns, `roleRuns, `passedRoles, `parks, `entered, `initGreen, `faulted, `specRead
      ensures gates == [] && !faulted && specRead == None
      ensures unitRuns == multiset{} && roleRuns == multiset{} && parks == 0 && entered == [] && !initGreen
    {
      gates, unitRuns, roleRuns, passedRoles, parks, entered, initGreen := [], multiset{}, multiset{}, {}, 0, [], false;
      faulted, specRead := false, None;
    }

    ghost method BeginBoards()
      modifies `stuck, `boards, `replaced, `oldBoards, `oldStuck
      ensures AllRest() && Orderly() && WasOrderly() && !replaced && oldStuck == Stuck(features)
    {
      stuck, boards, replaced, oldBoards := Stuck(features), [features], false, [];
      oldStuck := stuck;
      assert AllRest();
    }

    /** With a human to confirm, a drive can only finish a backlog without pending features. */
    lemma NothingToConfirm(base: seq<Feature>)
      requires Accounted(base) && Completed(base) && forall id :: Finished(id) !in gates
      ensures PendingAt(base) == {}
    {
      forall j | 0 <= j < |base| ensures base[j].state != Pending {
        assert j !in PendingAt(features);
      }
    }

    /** A finished drive leaves exactly the features that were in flight before it. */
    lemma AllDoneIff(before: seq<Feature>, base: seq<Feature>)
      requires StartsFrom(before, base) && Accounted(base) && Completed(base)
      ensures (forall j :: 0 <= j < |features| ==> features[j].state == FeatureState.Done)
          <==> (phasesOn || forall j :: 0 <= j < |before| ==> !InFlight(before[j]))
    {
      forall j | 0 <= j < |features|
        ensures features[j].state == FeatureState.Done <==> !InFlight(base[j]) && base[j].state != FeatureState.Blocked
      {
        assert j !in PendingAt(features);
      }
      if !phasesOn {
        assert forall j :: 0 <= j < |base| ==>
          base[j].state != FeatureState.Blocked && InFlight(base[j]) == InFlight(before[j]);
      }
    }
  }
}
