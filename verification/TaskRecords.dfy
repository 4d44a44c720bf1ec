/** What the record of a subagent says about the transcript it was read from
    (crates/agentum-core/src/transcript.rs). */
module TaskRecords {
  import opened Basics
  import opened Transcript

  /** No text clears the context after block `k`. */
  ghost predicate UnclearedSince(xs: seq<Event>, k: nat) {
    forall c: nat :: k < c < |xs| ==> !Clears(xs[c])
  }

  ghost predicate ClearedBetween(xs: seq<Event>, h: nat, i: nat) {
    exists c: nat :: h < c < i && c < |xs| && Clears(xs[c])
  }

  /** Block `i` is the first dispatch of `id` since the context was last cleared. */
  ghost predicate Begins(xs: seq<Event>, i: nat, id: string) {
    && DispatchAt(xs, i, id) && UnclearedSince(xs, i)
    && forall h: nat :: h < i && DispatchAt(xs, h, id) ==> ClearedBetween(xs, h, i)
  }

  ghost predicate Begun(xs: seq<Event>, id: string) {
    exists i: nat :: Begins(xs, i, id)
  }

  /** Block `j` is a result of `id` that no create is waiting for. */
  ghost predicate Reports(xs: seq<Event>, j: nat, id: string) {
    ResultAt(xs, j, id) && !Unsettled(xs[..j], id)
  }

  /** It is the first such result after the dispatch. */
  ghost predicate Answers(xs: seq<Event>, i: nat, j: nat, id: string) {
    i < j && Reports(xs, j, id) && forall k: nat :: i < k < j ==> !Reports(xs, k, id)
  }

  ghost predicate Silent(xs: seq<Event>, i: nat, id: string) {
    forall k: nat :: i < k < |xs| ==> !Reports(xs, k, id)
  }

  /** The whole milliseconds from `start` to `end`; none when time ran backwards. */
  predicate Took(ms: nat, start: int, end: int) {
    if end < start then ms == 0 else ms * 1_000_000 <= end - start < (ms + 1) * 1_000_000
  }

  predicate Describes(e: Event, t: TaskRecord)
    requires e.block.Dispatch?
  {
    && t.description == (if e.block.description.Some? then e.block.description.value else "(task)")
    && t.subagentType == e.block.subagentType
    && t.startedAt == e.at
  }

  /** How a task that started at `start` ended with the result `e`. */
  predicate Closes(start: int, e: Event, t: TaskRecord)
    requires e.block.ToolResult?
  {
    && (t.status == Failed <==> e.block.isError)
    && (t.status == Succeeded <==> !e.block.isError)
    && t.durationMs.Some? && Took(t.durationMs.value, start, e.at)
  }

  ghost predicate ClosedBy(xs: seq<Event>, i: nat, t: TaskRecord) {
    exists j: nat :: Answers(xs, i, j, t.id) && Closes(t.startedAt, xs[j], t)
  }

  /** The record of the dispatch at `i`: still running, or ended by its first result. */
  ghost predicate Recorded(xs: seq<Event>, i: nat, t: TaskRecord) {
    && Begins(xs, i, t.id) && Describes(xs[i], t)
    && if Silent(xs, i, t.id) then t.status == Running && t.durationMs == None else ClosedBy(xs, i, t)
  }

  ghost predicate Tells(xs: seq<Event>, t: TaskRecord) {
    exists i: nat :: Recorded(xs, i, t)
  }

  // ---------- what one block does to the record of an id ----------

  function RecordOf(s: State, id: string): (r: Option<TaskRecord>)
    ensures r.Some? ==> r.value in s.tasks && r.value.id == id
    ensures r.None? ==> forall t :: t in s.tasks ==> t.id != id
  {
    var i := FindTask(s.tasks, id);
    if i.None? then None else Some(s.tasks[i.value])
  }

  lemma FoundAgain(tasks: seq<TaskRecord>, after: seq<TaskRecord>, id: string)
    requires |after| >= |tasks| && forall k :: 0 <= k < |tasks| ==> after[k].id == tasks[k].id
    requires |after| == |tasks| || FindTask(tasks, id).Some?
    ensures FindTask(after, id) == FindTask(tasks, id)
  {
    var there, here := FindTask(after, id), FindTask(tasks, id);
    if here.Some? {
      assert after[here.value].id == id;
      assert there.Some? && there.value == here.value by {
        FirstIs(after, id, here.value);
      }
    }
  }

  lemma FirstIs(tasks: seq<TaskRecord>, id: string, k: nat)
    requires k < |tasks| && tasks[k].id == id && forall i :: 0 <= i < k ==> tasks[i].id != id
    ensures FindTask(tasks, id) == Some(k)
  {
  }

  /** How `e` ended the record `t`. */
  ghost predicate EndedBy(t: TaskRecord, e: Event, ended: TaskRecord)
    requires e.block.ToolResult?
  {
    ended == t.(status := ended.status, durationMs := ended.durationMs) && Closes(t.startedAt, e, ended)
  }

  lemma RecordCleared(s: State, e: Event, id: string)
    requires Clears(e)
    ensures RecordOf(Apply(s, e), id) == None
  {
  }

  /** The record that a dispatch makes. */
  predicate Started(e: Event, t: TaskRecord)
    requires e.block.Dispatch?
  {
    e.block.id == Some(t.id) && Describes(e, t) && t.status == Running && t.durationMs == None
  }

  lemma RecordDispatched(s: State, e: Event, id: string)
    requires e.block.Dispatch? && e.block.id == Some(id)
    ensures RecordOf(s, id).Some? ==> RecordOf(Apply(s, e), id) == RecordOf(s, id)
    ensures RecordOf(s, id).None? ==> RecordOf(Apply(s, e), id).Some? && Started(e, RecordOf(Apply(s, e), id).value)
  {
    if RecordOf(s, id).None? {
      FirstIs(Apply(s, e).tasks, id, |s.tasks|);
    }
  }

  /** A result that no create is waiting for. */
  ghost predicate Ended(was: Option<TaskRecord>, e: Event, now: Option<TaskRecord>)
    requires e.block.ToolResult?
  {
    if was.Some? && was.value.status == Running then now.Some? && EndedBy(was.value, e, now.value) else now == was
  }

  lemma RecordAnswered(s: State, e: Event, id: string)
    requires TasksCoupled(s) && e.block.ToolResult?
    requires e.block.id == Some(id) && FindCreate(s.todos, id) == None
    ensures Ended(RecordOf(s, id), e, RecordOf(Apply(s, e), id))
  {
    FoundAgain(s.tasks, Apply(s, e).tasks, id);
  }

  /** Any other block leaves the record alone. */
  ghost predicate PassesBy(s: State, e: Event, id: string) {
    && !Clears(e) && !(e.block.Dispatch? && e.block.id == Some(id))
    && (e.block.ToolResult? && e.block.id == Some(id) ==> AwaitsCreate(s, id))
  }

  lemma RecordKept(s: State, e: Event, id: string)
    requires PassesBy(s, e, id)
    ensures RecordOf(Apply(s, e), id) == RecordOf(s, id)
  {
    match e.block
    case Dispatch(other, _, _) => if other.Some? { OtherDispatch(s, e.block, e.at, id); }
    case ToolResult(other, _, _) => if other.Some? { OtherResult(s, e.block, e.at, id); }
    case _ =>
  }

  lemma OtherDispatch(s: State, b: Block, at: int, id: string)
    requires b.Dispatch? && b.id.Some? && b.id.value != id
    ensures RecordOf(Dispatched(s, b, at), id) == RecordOf(s, id)
  {
    var after := Dispatched(s, b, at);
    if RecordOf(s, id).Some? {
      FoundAgain(s.tasks, after.tasks, id);
    }
  }

  lemma OtherResult(s: State, b: Block, at: int, id: string)
    requires b.ToolResult? && b.id.Some? && (b.id.value == id ==> AwaitsCreate(s, id))
    ensures RecordOf(Resulted(s, b, at), id) == RecordOf(s, id)
  {
    FoundAgain(s.tasks, Resulted(s, b, at).tasks, id);
  }

  // ---------- one block more ----------

  ghost predicate Extends(xs: seq<Event>, front: seq<Event>, e: Event) {
    xs != [] && front == xs[..|xs| - 1] && e == xs[|xs| - 1]
  }

  lemma UnclearedStays(xs: seq<Event>, front: seq<Event>, e: Event, i: nat)
    requires Extends(xs, front, e) && !Clears(e)
    ensures UnclearedSince(xs, i) <==> UnclearedSince(front, i)
  {
    assert forall c: nat :: c < |front| ==> xs[c] == front[c];
  }

  lemma BeginsStays(xs: seq<Event>, front: seq<Event>, e: Event, i: nat, id: string)
    requires Extends(xs, front, e) && !Clears(e) && i < |front|
    ensures Begins(xs, i, id) <==> Begins(front, i, id)
  {
    UnclearedStays(xs, front, e, i);
    forall h: nat | h < i ensures DispatchAt(xs, h, id) <==> DispatchAt(front, h, id)
                          ensures ClearedBetween(xs, h, i) <==> ClearedBetween(front, h, i) {
      ClearedStays(xs, front, e, h, i);
    }
  }

  lemma ClearedStays(xs: seq<Event>, front: seq<Event>, e: Event, h: nat, i: nat)
    requires Extends(xs, front, e) && h < i < |front|
    ensures ClearedBetween(xs, h, i) <==> ClearedBetween(front, h, i)
  {
    if c: nat :| h < c < i && c < |xs| && Clears(xs[c]) { assert Clears(front[c]); }
    if c: nat :| h < c < i && c < |front| && Clears(front[c]) { assert Clears(xs[c]); }
  }

  lemma ReportsStay(xs: seq<Event>, front: seq<Event>, e: Event, id: string)
    requires Extends(xs, front, e)
    ensures forall j: nat :: j < |front| ==> (Reports(xs, j, id) <==> Reports(front, j, id))
    ensures Reports(xs, |front|, id) <==> e.block.ToolResult? && e.block.id == Some(id) && !Unsettled(front, id)
  {
    forall j: nat | j < |front| ensures Reports(xs, j, id) <==> Reports(front, j, id) {
      assert xs[..j] == front[..j] && xs[j] == front[j];
    }
  }

  lemma RecordedStays(xs: seq<Event>, front: seq<Event>, e: Event, i: nat, t: TaskRecord)
    requires Extends(xs, front, e) && !Clears(e) && Recorded(front, i, t)
    requires Reports(xs, |front|, t.id) ==> t.status != Running
    ensures Recorded(xs, i, t)
  {
    BeginsStays(xs, front, e, i, t.id);
    ReportsStay(xs, front, e, t.id);
    if !Silent(front, i, t.id) {
      var j: nat :| Answers(front, i, j, t.id) && Closes(t.startedAt, front[j], t);
      assert Answers(xs, i, j, t.id) && Reports(xs, j, t.id);
    }
  }

  lemma RecordedEnds(xs: seq<Event>, front: seq<Event>, e: Event, i: nat, t: TaskRecord, ended: TaskRecord)
    requires Extends(xs, front, e) && !Clears(e) && Recorded(front, i, t) && t.status == Running
    requires Reports(xs, |front|, t.id) && e.block.ToolResult? && EndedBy(t, e, ended)
    ensures Recorded(xs, i, ended)
  {
    BeginsStays(xs, front, e, i, t.id);
    ReportsStay(xs, front, e, t.id);
    assert Answers(xs, i, |front|, ended.id);
  }

  /** Of the dispatches since the last clear, one is the first. */
  lemma {:induction false} SomeFirst(xs: seq<Event>, h: nat, id: string)
    requires DispatchAt(xs, h, id) && UnclearedSince(xs, h)
    ensures Begun(xs, id)
    decreases h
  {
    if g: nat :| g < h && DispatchAt(xs, g, id) && !ClearedBetween(xs, g, h) {
      forall c: nat | g < c < |xs| ensures !Clears(xs[c]) {
        assert c == h ==> xs[c].block.Dispatch?;
        assert c < h ==> !ClearedBetween(xs, g, h);
      }
      SomeFirst(xs, g, id);
    } else {
      assert Begins(xs, h, id);
    }
  }

  lemma NeverBegun(xs: seq<Event>, front: seq<Event>, e: Event, id: string)
    requires Extends(xs, front, e) && (Clears(e) || !(Begun(front, id) || (e.block.Dispatch? && e.block.id == Some(id))))
    ensures !Begun(xs, id)
  {
    forall i: nat ensures !Begins(xs, i, id) {
      if i < |front| && !Clears(e) { BeginsStays(xs, front, e, i, id); }
    }
  }

  lemma BeginsLast(xs: seq<Event>, front: seq<Event>, e: Event, t: TaskRecord)
    requires Extends(xs, front, e) && !Begun(front, t.id) && e.block.Dispatch? && Started(e, t)
    ensures Recorded(xs, |front|, t)
  {
    forall h: nat | h < |front| && DispatchAt(xs, h, t.id) ensures ClearedBetween(xs, h, |front|) {
      assert DispatchAt(front, h, t.id);
      if UnclearedSince(front, h) {
        SomeFirst(front, h, t.id);
      } else {
        var c: nat :| h < c < |front| && Clears(front[c]);
        assert Clears(xs[c]);
      }
    }
  }

  // ---------- the law ----------

  /** An id has a record once it was dispatched since the last clear, and the record is right. */
  lemma {:induction false} RecordsTell(xs: seq<Event>, id: string)
    ensures match RecordOf(Fold(EMPTY, xs), id)
      case None => !Begun(xs, id)
      case Some(t) => Tells(xs, t)
  {
    if xs != [] {
      var front, e := xs[..|xs| - 1], xs[|xs| - 1];
      RecordsTell(front, id);
      FoldCoupled(front);
      AwaitsIff(front, id);
      RecordsStep(xs, front, e, Fold(EMPTY, front), id);
    }
  }

  ghost predicate Right(xs: seq<Event>, r: Option<TaskRecord>, id: string) {
    if r.None? then !Begun(xs, id) else r.value.id == id && Tells(xs, r.value)
  }

  lemma RecordsStep(xs: seq<Event>, front: seq<Event>, e: Event, s: State, id: string)
    requires Extends(xs, front, e) && Coupled(s) && (AwaitsCreate(s, id) <==> Unsettled(front, id))
    requires Right(front, RecordOf(s, id), id)
    ensures Right(xs, RecordOf(Apply(s, e), id), id)
  {
    ReportsStay(xs, front, e, id);
    if Clears(e) {
      RecordCleared(s, e, id);
      NeverBegun(xs, front, e, id);
    } else if e.block.Dispatch? && e.block.id == Some(id) {
      RecordDispatched(s, e, id);
      StepDispatched(xs, front, e, RecordOf(s, id), RecordOf(Apply(s, e), id), id);
    } else if e.block.ToolResult? && e.block.id == Some(id) && !AwaitsCreate(s, id) {
      NoCreate(s, id);
      RecordAnswered(s, e, id);
      StepAnswered(xs, front, e, RecordOf(s, id), RecordOf(Apply(s, e), id), id);
    } else {
      RecordKept(s, e, id);
      StepKept(xs, front, e, RecordOf(s, id), id);
    }
  }

  lemma NoCreate(s: State, id: string)
    requires !AwaitsCreate(s, id)
    ensures FindCreate(s.todos, id) == None
  {
  }

  lemma StepKept(xs: seq<Event>, front: seq<Event>, e: Event, r: Option<TaskRecord>, id: string)
    requires Extends(xs, front, e) && !Clears(e) && Right(front, r, id) && !Reports(xs, |front|, id)
    requires r.Some? || !(e.block.Dispatch? && e.block.id == Some(id))
    ensures Right(xs, r, id)
  {
    if r.None? {
      NeverBegun(xs, front, e, id);
    } else {
      var i: nat :| Recorded(front, i, r.value);
      RecordedStays(xs, front, e, i, r.value);
    }
  }

  lemma StepDispatched(xs: seq<Event>, front: seq<Event>, e: Event, was: Option<TaskRecord>, now: Option<TaskRecord>, id: string)
    requires Extends(xs, front, e) && e.block.Dispatch? && e.block.id == Some(id) && Right(front, was, id)
    requires if was.Some? then now == was else now.Some? && Started(e, now.value)
    ensures Right(xs, now, id)
  {
    if was.None? {
      BeginsLast(xs, front, e, now.value);
    } else {
      StepKept(xs, front, e, was, id);
    }
  }

  lemma StepAnswered(xs: seq<Event>, front: seq<Event>, e: Event, was: Option<TaskRecord>, now: Option<TaskRecord>, id: string)
    requires Extends(xs, front, e) && e.block.ToolResult? && Right(front, was, id) && Reports(xs, |front|, id)
    requires Ended(was, e, now)
    ensures Right(xs, now, id)
  {
    if was.None? {
      NeverBegun(xs, front, e, id);
    } else {
      var i: nat :| Recorded(front, i, was.value);
      if was.value.status == Running {
        RecordedEnds(xs, front, e, i, was.value, now.value);
      } else {
        RecordedStays(xs, front, e, i, was.value);
      }
    }
  }

  lemma BeginsOnce(xs: seq<Event>, i: nat, k: nat, id: string)
    requires Begins(xs, i, id) && Begins(xs, k, id)
    ensures i == k
  {
    assert i < k ==> ClearedBetween(xs, i, k);
    assert k < i ==> ClearedBetween(xs, k, i);
  }

  lemma TookOnce(a: nat, b: nat, start: int, end: int)
    requires Took(a, start, end) && Took(b, start, end)
    ensures a == b
  {
  }

  lemma ToldOnce(xs: seq<Event>, t: TaskRecord, u: TaskRecord)
    requires Tells(xs, t) && Tells(xs, u) && t.id == u.id
    ensures t == u
  {
    var i: nat, k: nat :| Recorded(xs, i, t) && Recorded(xs, k, u);
    BeginsOnce(xs, i, k, t.id);
    if !Silent(xs, i, t.id) {
      var j: nat :| Answers(xs, i, j, t.id) && Closes(t.startedAt, xs[j], t);
      var l: nat :| Answers(xs, i, l, u.id) && Closes(u.startedAt, xs[l], u);
      assert j == l;
      TookOnce(t.durationMs.value, u.durationMs.value, t.startedAt, xs[j].at);
    }
  }

  /** After any transcript the list holds exactly these records: of each id dispatched since
      the last clear the first such dispatch, ended by the first later result that no create
      took, in failure exactly when that result was an error, and running without one. */
  lemma RecordIff(xs: seq<Event>, t: TaskRecord)
    ensures t in Fold(EMPTY, xs).tasks <==> Tells(xs, t)
  {
    var s := Fold(EMPTY, xs);
    RecordsTell(xs, t.id);
    if t in s.tasks {
      FoldCoupled(xs);
      var k :| 0 <= k < |s.tasks| && s.tasks[k] == t;
      FirstIs(s.tasks, t.id, k);
    }
    if Tells(xs, t) {
      var i: nat :| Recorded(xs, i, t);
      assert Begun(xs, t.id);
      ToldOnce(xs, t, RecordOf(s, t.id).value);
    }
  }

  // ---------- their order ----------

  /** Of two records the first is of the earlier dispatch. */
  ghost predicate Ordered(xs: seq<Event>, tasks: seq<TaskRecord>) {
    forall a, b, i: nat, k: nat :: 0 <= a < b < |tasks| && Begins(xs, i, tasks[a].id) && Begins(xs, k, tasks[b].id) ==> i < k
  }

  /** What a block does to the list itself: it only ever grows at the end. */
  lemma TasksGrow(s: State, e: Event)
    requires !Clears(e)
    ensures |s.tasks| <= |Apply(s, e).tasks| <= |s.tasks| + 1
    ensures forall k :: 0 <= k < |s.tasks| ==> Apply(s, e).tasks[k].id == s.tasks[k].id
    ensures |Apply(s, e).tasks| > |s.tasks| ==> RecordOf(s, Apply(s, e).tasks[|s.tasks|].id) == None
  {
  }

  lemma BeginsBefore(xs: seq<Event>, front: seq<Event>, e: Event, i: nat, t: TaskRecord)
    requires Extends(xs, front, e) && !Clears(e) && Tells(front, t) && Begins(xs, i, t.id)
    ensures i < |front| && Begins(front, i, t.id)
  {
    var h: nat :| Recorded(front, h, t);
    BeginsStays(xs, front, e, h, t.id);
    BeginsOnce(xs, h, i, t.id);
  }

  lemma {:induction false} RecordsOrdered(xs: seq<Event>)
    ensures Ordered(xs, Fold(EMPTY, xs).tasks)
  {
    if xs != [] {
      var front, e := xs[..|xs| - 1], xs[|xs| - 1];
      RecordsOrdered(front);
      if !Clears(e) {
        TasksGrow(Fold(EMPTY, front), e);
        forall t ensures t in Fold(EMPTY, front).tasks ==> Tells(front, t) {
          RecordIff(front, t);
        }
        forall id ensures RecordOf(Fold(EMPTY, front), id).None? ==> !Begun(front, id) {
          RecordsTell(front, id);
        }
        OrderedStep(xs, front, e, Fold(EMPTY, front).tasks, Fold(EMPTY, xs).tasks);
      }
    }
  }

  lemma OrderedStep(xs: seq<Event>, front: seq<Event>, e: Event, tasks: seq<TaskRecord>, after: seq<TaskRecord>)
    requires Extends(xs, front, e) && !Clears(e) && Ordered(front, tasks)
    requires |tasks| <= |after| <= |tasks| + 1 && forall k :: 0 <= k < |tasks| ==> after[k].id == tasks[k].id
    requires forall t :: t in tasks ==> Tells(front, t)
    requires |after| > |tasks| ==> !Begun(front, after[|tasks|].id)
    ensures Ordered(xs, after)
  {
    forall a, b, i: nat, k: nat | 0 <= a < b < |after| && Begins(xs, i, after[a].id) && Begins(xs, k, after[b].id) ensures i < k {
      BeginsBefore(xs, front, e, i, tasks[a]);
      if b < |tasks| {
        BeginsBefore(xs, front, e, k, tasks[b]);
      } else if k < |front| {
        BeginsStays(xs, front, e, k, after[b].id);
      }
    }
  }
}
