/** Plan, todos and subagent tasks folded from a session transcript
    (crates/agentum-core/src/transcript.rs). Blocks are taken as parsed. */
module Transcript {
  import opened Basics
  import opened Text

  datatype TodoStatus = Todo | InProgress | Completed

  datatype TodoItem = TodoItem(
    content: string,
    activeForm: Option<string>,
    status: TodoStatus,
    description: Option<string>,
    taskId: Option<string>,
    createToolId: Option<string>)

  datatype TaskStatus = Running | Succeeded | Failed

  /** Times are nanoseconds. */
  datatype TaskRecord = TaskRecord(
    id: string,
    description: string,
    subagentType: Option<string>,
    status: TaskStatus,
    startedAt: int,
    durationMs: Option<nat>)

  datatype RawTodo = RawTodo(content: Option<string>, activeForm: Option<string>, status: Option<string>)

  /** A content block; an absent or ill-typed JSON member is `None`. */
  datatype Block =
    | TextBlock(text: Option<string>)
    | TaskCreate(id: Option<string>, subject: Option<string>, activeForm: Option<string>, description: Option<string>)
    | TaskUpdate(taskId: Option<string>, status: Option<string>, subject: Option<string>,
                 activeForm: Option<string>, description: Option<string>)
    | TodoWrite(items: Option<seq<RawTodo>>)
    | ExitPlanMode(plan: Option<string>)
    | Dispatch(id: Option<string>, description: Option<string>, subagentType: Option<string>)
    | ToolResult(id: Option<string>, content: Option<string>, isError: bool)
    | Ignored

  datatype Event = Event(block: Block, at: int)

  datatype State = State(plan: Option<string>, todos: seq<TodoItem>, tasks: seq<TaskRecord>, pending: map<string, int>)

  const EMPTY := State(None, [], [], map[])

  // ---------- pure helpers ----------

  /** The value of the first `<command-name>` envelope. */
  function ExtractCommandName(text: string): Option<string> {
    match Find(text, "<command-name>")
    case None => None
    case Some(i) =>
      var rest := text[i + |"<command-name>"|..];
      match Find(rest, "</command-name>")
      case None => None
      case Some(n) => Some(rest[..n])
  }

  function StripSlashes(s: string): string {
    if s != "" && s[0] == '/' then StripSlashes(s[1..]) else s
  }

  function LowerAscii(s: string): string {
    seq(|s|, i requires 0 <= i < |s| => if 'A' <= s[i] <= 'Z' then (s[i] as int + 32) as char else s[i])
  }

  predicate ClearsContext(text: string) {
    match ExtractCommandName(text)
    case None => false
    case Some(cmd) => LowerAscii(StripSlashes(Trim(cmd))) in {"clear", "compact"}
  }

  function LeadingDigits(s: string): string {
    if s == "" || !IsDigit(s[0]) then "" else [s[0]] + LeadingDigits(s[1..])
  }

  /** The `N` of a result that starts `Task #N`. */
  function ParseTaskCreateId(text: string): Option<string> {
    var prefix := "Task #";
    if prefix <= text && LeadingDigits(text[|prefix|..]) != "" then Some(LeadingDigits(text[|prefix|..])) else None
  }

  function StatusOf(s: string): TodoStatus {
    if s == "in_progress" then InProgress else if s == "completed" then Completed else Todo
  }

  function OrElse(o: Option<string>, other: string): string {
    if o.Some? then o.value else other
  }

  /** Whole milliseconds from `start` to `end`, never negative. */
  function Millis(start: int, end: int): nat {
    if end < start then 0 else (end - start) / 1_000_000
  }

  function FindCreate(todos: seq<TodoItem>, id: string): (r: Option<nat>)
    ensures r.Some? ==> r.value < |todos| && todos[r.value].createToolId == Some(id)
    ensures r.None? ==> forall i :: 0 <= i < |todos| ==> todos[i].createToolId != Some(id)
  {
    FirstWhere(todos, (t: TodoItem) => t.createToolId == Some(id))
  }

  function FindTodo(todos: seq<TodoItem>, taskId: string): (r: Option<nat>)
    ensures r.Some? ==> r.value < |todos| && todos[r.value].taskId == Some(taskId)
    ensures r.Some? ==> forall i :: 0 <= i < r.value ==> todos[i].taskId != Some(taskId)
    ensures r.None? ==> forall i :: 0 <= i < |todos| ==> todos[i].taskId != Some(taskId)
  {
    FirstWhere(todos, (t: TodoItem) => t.taskId == Some(taskId))
  }

  function FindTask(tasks: seq<TaskRecord>, id: string): (r: Option<nat>)
    ensures r.Some? ==> r.value < |tasks| && tasks[r.value].id == id
    ensures r.None? ==> forall i :: 0 <= i < |tasks| ==> tasks[i].id != id
  {
    FirstWhere(tasks, (t: TaskRecord) => t.id == id)
  }

  /** `retain` of the rows without this task id. */
  function Without(todos: seq<TodoItem>, taskId: string): (r: seq<TodoItem>)
    ensures forall t :: t in r <==> t in todos && t.taskId != Some(taskId)
  {
    if todos == [] then []
    else
      var rest := Without(todos[..|todos| - 1], taskId);
      var last := todos[|todos| - 1];
      assert todos == todos[..|todos| - 1] + [last];
      if last.taskId == Some(taskId) then rest else rest + [last]
  }

  /** The rows of a legacy rewrite that have a content and a status. */
  function Legacy(raw: seq<RawTodo>): (r: seq<TodoItem>)
    ensures forall t :: t in r ==> t.taskId == None && t.createToolId == None
  {
    if raw == [] then []
    else
      var rest := Legacy(raw[..|raw| - 1]);
      var last := raw[|raw| - 1];
      if last.content.Some? && last.status.Some?
      then rest + [TodoItem(last.content.value, last.activeForm, StatusOf(last.status.value), None, None, None)]
      else rest
  }

  // ---------- one block ----------

  function Created(s: State, b: Block): State
    requires b.TaskCreate? && b.id.Some?
  {
    if FindCreate(s.todos, b.id.value).Some? then s
    else s.(todos := s.todos + [TodoItem(OrElse(b.subject, "(task)"), b.activeForm, Todo, b.description, None, b.id)])
  }

  function Patched(t: TodoItem, b: Block): TodoItem
    requires b.TaskUpdate?
  {
    t.(
      status := if b.status.Some? then StatusOf(b.status.value) else t.status,
      content := OrElse(b.subject, t.content),
      activeForm := if b.activeForm.Some? then b.activeForm else t.activeForm,
      description := if b.description.Some? then b.description else t.description)
  }

  function Updated(s: State, b: Block): State
    requires b.TaskUpdate? && b.taskId.Some?
  {
    if b.status == Some("deleted") then s.(todos := Without(s.todos, b.taskId.value))
    else
      match FindTodo(s.todos, b.taskId.value)
      case None => s
      case Some(i) => s.(todos := s.todos[i := Patched(s.todos[i], b)])
  }

  function Dispatched(s: State, b: Block, at: int): State
    requires b.Dispatch? && b.id.Some?
  {
    if FindTask(s.tasks, b.id.value).Some? then s
    else s.(
      pending := s.pending[b.id.value := at],
      tasks := s.tasks + [TaskRecord(b.id.value, OrElse(b.description, "(task)"), b.subagentType, Running, at, None)])
  }

  function Bound(t: TodoItem, content: Option<string>): TodoItem {
    t.(
      taskId := if content.Some? && ParseTaskCreateId(content.value).Some? then ParseTaskCreateId(content.value) else t.taskId,
      createToolId := None)
  }

  /** A running task ends; its duration is known when its start is still pending. */
  function Finished(s: State, i: nat, isError: bool, at: int): State
    requires i < |s.tasks|
  {
    var t := s.tasks[i];
    if t.status != Running then s
    else s.(
      tasks := s.tasks[i := t.(
        status := if isError then Failed else Succeeded,
        durationMs := if t.id in s.pending then Some(Millis(s.pending[t.id], at)) else t.durationMs)],
      pending := s.pending - {t.id})
  }

  function Resulted(s: State, b: Block, at: int): State
    requires b.ToolResult? && b.id.Some?
  {
    match FindCreate(s.todos, b.id.value)
    case Some(i) => s.(todos := s.todos[i := Bound(s.todos[i], b.content)])
    case None =>
      match FindTask(s.tasks, b.id.value)
      case None => s
      case Some(i) => Finished(s, i, b.isError, at)
  }

  function Apply(s: State, e: Event): State {
    match e.block
    case TextBlock(text) => if text.Some? && ClearsContext(text.value) then EMPTY else s
    case TaskCreate(id, _, _, _) => if id.Some? then Created(s, e.block) else s
    case TaskUpdate(taskId, _, _, _, _) => if taskId.Some? then Updated(s, e.block) else s
    case TodoWrite(items) => if items.Some? then s.(todos := Legacy(items.value)) else s
    case ExitPlanMode(plan) => if plan.Some? then s.(plan := plan) else s
    case Dispatch(id, _, _) => if id.Some? then Dispatched(s, e.block, e.at) else s
    case ToolResult(id, _, _) => if id.Some? then Resulted(s, e.block, e.at) else s
    case Ignored => s
  }

  function Fold(s: State, xs: seq<Event>): State {
    if xs == [] then s else Apply(Fold(s, xs[..|xs| - 1]), xs[|xs| - 1])
  }

  // ---------- the coupling of tasks, pending starts and todos ----------

  ghost predicate TasksCoupled(s: State) {
    && (forall i, j :: 0 <= i < j < |s.tasks| ==> s.tasks[i].id != s.tasks[j].id)
    && (forall i :: 0 <= i < |s.tasks| ==>
          && (s.tasks[i].status == Running <==> s.tasks[i].id in s.pending)
          && (s.tasks[i].status == Running ==> s.pending[s.tasks[i].id] == s.tasks[i].startedAt)
          && (s.tasks[i].status == Running <==> s.tasks[i].durationMs.None?))
    && (forall id :: id in s.pending ==> exists i :: 0 <= i < |s.tasks| && s.tasks[i].id == id)
  }

  ghost predicate TodosCoupled(s: State) {
    && (forall i, j :: 0 <= i < j < |s.todos| && s.todos[i].createToolId.Some? ==>
          s.todos[i].createToolId != s.todos[j].createToolId)
    && (forall i :: 0 <= i < |s.todos| ==> s.todos[i].createToolId.None? || s.todos[i].taskId.None?)
  }

  ghost predicate Coupled(s: State) {
    TasksCoupled(s) && TodosCoupled(s)
  }

  lemma {:induction false} WithoutCoupled(todos: seq<TodoItem>, taskId: string)
    requires TodosCoupled(EMPTY.(todos := todos))
    ensures TodosCoupled(EMPTY.(todos := Without(todos, taskId)))
  {
    if todos != [] {
      var front, last := todos[..|todos| - 1], todos[|todos| - 1];
      WithoutCoupled(front, taskId);
      var kept := Without(front, taskId);
      forall i | 0 <= i < |kept| && kept[i].createToolId.Some? ensures kept[i].createToolId != last.createToolId {
        assert kept[i] in front;
      }
    }
  }

  lemma FinishedCoupled(s: State, i: nat, isError: bool, at: int)
    requires TasksCoupled(s) && i < |s.tasks|
    ensures TasksCoupled(Finished(s, i, isError, at))
  {
    var after := Finished(s, i, isError, at);
    forall id | id in after.pending ensures exists k :: 0 <= k < |after.tasks| && after.tasks[k].id == id {
      var k :| 0 <= k < |s.tasks| && s.tasks[k].id == id;
      assert after.tasks[k].id == id;
    }
  }

  lemma DispatchedCoupled(s: State, b: Block, at: int)
    requires b.Dispatch? && b.id.Some? && TasksCoupled(s)
    ensures TasksCoupled(Dispatched(s, b, at))
  {
    var after := Dispatched(s, b, at);
    forall id | id in after.pending ensures exists k :: 0 <= k < |after.tasks| && after.tasks[k].id == id {
      if id in s.pending {
        var k :| 0 <= k < |s.tasks| && s.tasks[k].id == id;
        assert after.tasks[k].id == id;
      } else {
        assert after.tasks[|after.tasks| - 1].id == id;
      }
    }
  }

  lemma CreatedCoupled(s: State, b: Block)
    requires b.TaskCreate? && b.id.Some? && TodosCoupled(s)
    ensures TodosCoupled(Created(s, b))
  {
  }

  lemma UpdatedCoupled(s: State, b: Block)
    requires b.TaskUpdate? && b.taskId.Some? && TodosCoupled(s)
    ensures TodosCoupled(Updated(s, b))
  {
    if b.status == Some("deleted") {
      assert TodosCoupled(EMPTY.(todos := s.todos));
      WithoutCoupled(s.todos, b.taskId.value);
    }
  }

  lemma ResultedCoupled(s: State, b: Block, at: int)
    requires b.ToolResult? && b.id.Some? && Coupled(s)
    ensures Coupled(Resulted(s, b, at))
  {
    var id := b.id.value;
    if FindCreate(s.todos, id).None? && FindTask(s.tasks, id).Some? {
      FinishedCoupled(s, FindTask(s.tasks, id).value, b.isError, at);
    }
  }

  lemma LegacyCoupled(s: State, raw: seq<RawTodo>)
    ensures TodosCoupled(s.(todos := Legacy(raw)))
  {
    var todos := Legacy(raw);
    forall i | 0 <= i < |todos| ensures todos[i].createToolId.None? {
      assert todos[i] in todos;
    }
  }

  lemma TasksSame(s: State, after: State)
    requires TasksCoupled(s) && after.tasks == s.tasks && after.pending == s.pending
    ensures TasksCoupled(after)
  {
  }

  /** A block about todos. */
  lemma TodoBlockCoupled(s: State, e: Event)
    requires Coupled(s) && (e.block.TaskCreate? || e.block.TaskUpdate? || e.block.TodoWrite?)
    ensures Coupled(Apply(s, e))
  {
    TasksSame(s, Apply(s, e));
    match e.block
    case TaskCreate(id, _, _, _) => if id.Some? { CreatedCoupled(s, e.block); }
    case TaskUpdate(taskId, _, _, _, _) => if taskId.Some? { UpdatedCoupled(s, e.block); }
    case TodoWrite(items) => if items.Some? { LegacyCoupled(s, items.value); }
  }

  /** Every block keeps the coupling. */
  lemma ApplyCoupled(s: State, e: Event)
    requires Coupled(s)
    ensures Coupled(Apply(s, e))
  {
    match e.block
    case Dispatch(id, _, _) => if id.Some? { DispatchedCoupled(s, e.block, e.at); }
    case ToolResult(id, _, _) => if id.Some? { ResultedCoupled(s, e.block, e.at); }
    case TextBlock(_) =>
    case ExitPlanMode(_) => TasksSame(s, Apply(s, e));
    case Ignored =>
    case _ => TodoBlockCoupled(s, e);
  }

  lemma {:induction false} FoldCoupled(xs: seq<Event>)
    ensures Coupled(Fold(EMPTY, xs))
  {
    if xs != [] {
      FoldCoupled(xs[..|xs| - 1]);
      ApplyCoupled(Fold(EMPTY, xs[..|xs| - 1]), xs[|xs| - 1]);
    }
  }

  // ---------- replaying ----------

  ghost predicate AwaitsCreate(s: State, id: string) {
    exists i :: 0 <= i < |s.todos| && s.todos[i].createToolId == Some(id)
  }

  ghost predicate IsRunning(s: State, id: string) {
    exists i :: 0 <= i < |s.tasks| && s.tasks[i].id == id && s.tasks[i].status == Running
  }

  lemma {:induction false} WithoutTwice(todos: seq<TodoItem>, taskId: string)
    requires forall t :: t in todos ==> t.taskId != Some(taskId)
    ensures Without(todos, taskId) == todos
  {
    if todos != [] {
      assert todos[|todos| - 1] in todos;
      assert todos == todos[..|todos| - 1] + [todos[|todos| - 1]];
      WithoutTwice(todos[..|todos| - 1], taskId);
    }
  }

  lemma UpdatedTwice(s: State, b: Block)
    requires b.TaskUpdate? && b.taskId.Some?
    ensures Updated(Updated(s, b), b) == Updated(s, b)
  {
    var taskId := b.taskId.value;
    if b.status == Some("deleted") {
      WithoutTwice(Without(s.todos, taskId), taskId);
    } else if FindTodo(s.todos, taskId).Some? {
      var i := FindTodo(s.todos, taskId).value;
      var after := Updated(s, b);
      assert after.todos[i].taskId == Some(taskId);
      assert FindTodo(after.todos, taskId) == Some(i);
    }
  }

  /** A result read twice: first binds a create, then nothing is left to do, unless the same
      id also names a running subagent, which the second reading then ends. */
  lemma ResultedTwice(s: State, b: Block, at: int)
    requires b.ToolResult? && b.id.Some? && Coupled(s)
    ensures Resulted(Resulted(s, b, at), b, at) == Resulted(s, b, at)
      <==> !(AwaitsCreate(s, b.id.value) && IsRunning(s, b.id.value))
  {
    var id := b.id.value;
    var after := Resulted(s, b, at);
    if FindCreate(s.todos, id).Some? {
      assert FindCreate(after.todos, id).None?;
      assert IsRunning(after, id) <==> IsRunning(s, id);
      if FindTask(s.tasks, id).Some? {
        var i := FindTask(s.tasks, id).value;
        assert IsRunning(s, id) <==> s.tasks[i].status == Running;
      }
    } else if FindTask(s.tasks, id).Some? {
      var i := FindTask(s.tasks, id).value;
      assert after.tasks[i].status != Running && after.tasks[i].id == id;
      assert FindTask(after.tasks, id) == Some(i);
    }
  }

  /** Reading one block twice in a row is reading it once, exactly when it is not the result
      of an id that is both an unanswered create and a running subagent. */
  lemma ApplyTwiceIff(s: State, e: Event)
    requires Coupled(s)
    ensures Apply(Apply(s, e), e) == Apply(s, e)
      <==> !(e.block.ToolResult? && e.block.id.Some?
             && AwaitsCreate(s, e.block.id.value) && IsRunning(s, e.block.id.value))
  {
    match e.block
    case TaskUpdate(taskId, _, _, _, _) => if taskId.Some? { UpdatedTwice(s, e.block); }
    case ToolResult(id, _, _) => if id.Some? { ResultedTwice(s, e.block, e.at); }
    case TaskCreate(id, _, _, _) =>
      if id.Some? {
        assert FindCreate(s.todos, id.value).None? ==>
          Created(s, e.block).todos[|s.todos|].createToolId == id;
      }
    case Dispatch(id, _, _) =>
      if id.Some? {
        assert FindTask(s.tasks, id.value).None? ==> Dispatched(s, e.block, e.at).tasks[|s.tasks|].id == id.value;
      }
    case _ =>
  }

  predicate CreateAt(xs: seq<Event>, k: nat, id: string) {
    k < |xs| && xs[k].block.TaskCreate? && xs[k].block.id == Some(id)
  }

  predicate DispatchAt(xs: seq<Event>, k: nat, id: string) {
    k < |xs| && xs[k].block.Dispatch? && xs[k].block.id == Some(id)
  }

  ghost predicate Asked(xs: seq<Event>, id: string) {
    exists i: nat :: CreateAt(xs, i, id)
  }

  ghost predicate Launched(xs: seq<Event>, id: string) {
    exists i: nat :: DispatchAt(xs, i, id)
  }

  lemma AwaitsAfter(s: State, e: Event, id: string)
    requires AwaitsCreate(Apply(s, e), id)
    ensures AwaitsCreate(s, id) || (e.block.TaskCreate? && e.block.id == Some(id))
  {
    var after := Apply(s, e);
    var i :| 0 <= i < |after.todos| && after.todos[i].createToolId == Some(id);
    assert after.todos[i] in after.todos;
  }

  lemma RunsAfter(s: State, e: Event, id: string)
    requires IsRunning(Apply(s, e), id)
    ensures IsRunning(s, id) || (e.block.Dispatch? && e.block.id == Some(id))
  {
    var after := Apply(s, e);
    var i :| 0 <= i < |after.tasks| && after.tasks[i].id == id && after.tasks[i].status == Running;
    if i < |s.tasks| {
      assert s.tasks[i].id == id;
    }
  }

  /** What awaits its result was created, and what runs was dispatched. */
  lemma {:induction false} FoldComesFrom(xs: seq<Event>, id: string)
    ensures AwaitsCreate(Fold(EMPTY, xs), id) ==> Asked(xs, id)
    ensures IsRunning(Fold(EMPTY, xs), id) ==> Launched(xs, id)
  {
    if xs != [] {
      var front, last := xs[..|xs| - 1], xs[|xs| - 1];
      FoldComesFrom(front, id);
      if AwaitsCreate(Fold(EMPTY, xs), id) { AwaitsAfter(Fold(EMPTY, front), last, id); }
      if IsRunning(Fold(EMPTY, xs), id) { RunsAfter(Fold(EMPTY, front), last, id); }
      assert forall k: nat :: CreateAt(front, k, id) ==> CreateAt(xs, k, id);
      assert forall k: nat :: DispatchAt(front, k, id) ==> DispatchAt(xs, k, id);
      assert last.block.TaskCreate? && last.block.id == Some(id) ==> CreateAt(xs, |front|, id);
      assert last.block.Dispatch? && last.block.id == Some(id) ==> DispatchAt(xs, |front|, id);
    }
  }

  /** So after a transcript in which no id is both created and dispatched, any block may be
      read twice. */
  lemma ApplyTwiceAfter(xs: seq<Event>, e: Event)
    requires forall id :: !(Asked(xs, id) && Launched(xs, id))
    ensures Apply(Apply(Fold(EMPTY, xs), e), e) == Apply(Fold(EMPTY, xs), e)
  {
    FoldCoupled(xs);
    ApplyTwiceIff(Fold(EMPTY, xs), e);
    if e.block.ToolResult? && e.block.id.Some? {
      FoldComesFrom(xs, e.block.id.value);
    }
  }

  /** An id may be shared: then one result, read twice, ends the subagent. */
  lemma SharedIdReadTwice(id: string, create: Block, dispatch: Block, result: Block, at: int)
    requires create.TaskCreate? && dispatch.Dispatch? && result.ToolResult?
    requires create.id == Some(id) && dispatch.id == Some(id) && result.id == Some(id)
    ensures var s := Fold(EMPTY, [Event(create, at), Event(dispatch, at)]);
      && IsRunning(Apply(s, Event(result, at)), id)
      && !IsRunning(Apply(Apply(s, Event(result, at)), Event(result, at)), id)
  {
    var made := Apply(EMPTY, Event(create, at));
    var s := Apply(made, Event(dispatch, at));
    assert made.todos[0].createToolId == Some(id);
    assert s.tasks[0].id == id && s.tasks[0].status == Running && s.todos == made.todos;
    var xs := [Event(create, at), Event(dispatch, at)];
    assert xs[..1] == [Event(create, at)] && xs[..1][..0] == [];
    assert Fold(EMPTY, xs[..1]) == made;
    assert Fold(EMPTY, xs) == s;
    var once := Apply(s, Event(result, at));
    assert once.tasks == s.tasks && once.todos[0].createToolId == None && |once.todos| == 1;
    var twice := Apply(once, Event(result, at));
    assert FindCreate(once.todos, id).None? && FindTask(once.tasks, id) == Some(0);
  }

  predicate Clears(e: Event) {
    e.block.TextBlock? && e.block.text.Some? && ClearsContext(e.block.text.value)
  }

  /** What makes the list forget that a create awaits its result: the result, a rewrite of
      the list, or a text that clears the context. */
  predicate Settles(e: Event, id: string) {
    || (e.block.ToolResult? && e.block.id == Some(id))
    || (e.block.TodoWrite? && e.block.items.Some?)
    || Clears(e)
  }

  predicate Creates(e: Event, id: string) {
    e.block.TaskCreate? && e.block.id == Some(id)
  }

  /** Some create of `id` comes after everything that would settle it. */
  ghost predicate Unsettled(xs: seq<Event>, id: string) {
    exists k: nat :: CreateAt(xs, k, id) && SettledNever(xs, k, id)
  }

  ghost predicate SettledNever(xs: seq<Event>, k: nat, id: string) {
    forall j :: k < j < |xs| ==> !Settles(xs[j], id)
  }

  lemma KeptOpen(before: seq<TodoItem>, after: seq<TodoItem>, id: string)
    requires forall t :: t in before && t.createToolId == Some(id) ==> t in after
    ensures (exists i :: 0 <= i < |before| && before[i].createToolId == Some(id)) ==>
              exists i :: 0 <= i < |after| && after[i].createToolId == Some(id)
  {
    if i :| 0 <= i < |before| && before[i].createToolId == Some(id) {
      assert before[i] in before && before[i] in after;
    }
  }

  /** One block: who awaits a result afterwards. */
  lemma AwaitsStep(s: State, e: Event, id: string)
    requires Coupled(s)
    ensures AwaitsCreate(Apply(s, e), id) <==> Creates(e, id) || (AwaitsCreate(s, id) && !Settles(e, id))
  {
    var after := Apply(s, e);
    if AwaitsCreate(after, id) {
      AwaitsAfter(s, e, id);
      if Settles(e, id) { SettledAfter(s, e, id); }
    }
    if AwaitsCreate(s, id) && !Settles(e, id) { StaysOpen(s, e, id); }
    if Creates(e, id) { CreatedOpens(s, e.block); }
  }

  lemma CreatedOpens(s: State, b: Block)
    requires b.TaskCreate? && b.id.Some?
    ensures AwaitsCreate(Created(s, b), b.id.value)
  {
    assert FindCreate(s.todos, b.id.value).None? ==> Created(s, b).todos[|s.todos|].createToolId == b.id;
  }

  lemma SettledAfter(s: State, e: Event, id: string)
    requires Coupled(s) && Settles(e, id)
    ensures !AwaitsCreate(Apply(s, e), id)
  {
    match e.block
    case TodoWrite(items) =>
      forall i | 0 <= i < |Legacy(items.value)| ensures Legacy(items.value)[i].createToolId.None? {
        assert Legacy(items.value)[i] in Legacy(items.value);
      }
    case _ =>
  }

  lemma StaysOpen(s: State, e: Event, id: string)
    requires Coupled(s) && AwaitsCreate(s, id) && !Settles(e, id)
    ensures AwaitsCreate(Apply(s, e), id)
  {
    match e.block
    case TaskUpdate(taskId, status, _, _, _) =>
      if taskId.Some? { UpdateKeepsOpen(s, e.block, id); }
    case ToolResult(other, _, _) =>
      if other.Some? { ResultKeepsOpen(s, e.block, e.at, id); }
    case TaskCreate(other, _, _, _) => KeptOpen(s.todos, Apply(s, e).todos, id);
    case _ =>
  }

  lemma UpdateKeepsOpen(s: State, b: Block, id: string)
    requires b.TaskUpdate? && b.taskId.Some? && TodosCoupled(s) && AwaitsCreate(s, id)
    ensures AwaitsCreate(Updated(s, b), id)
  {
    if b.status == Some("deleted") {
      KeptOpen(s.todos, Updated(s, b).todos, id);
    } else {
      var i :| 0 <= i < |s.todos| && s.todos[i].createToolId == Some(id);
      assert Updated(s, b).todos[i].createToolId == Some(id);
    }
  }

  lemma ResultKeepsOpen(s: State, b: Block, at: int, id: string)
    requires b.ToolResult? && b.id.Some? && b.id.value != id && AwaitsCreate(s, id)
    ensures AwaitsCreate(Resulted(s, b, at), id)
  {
    var i :| 0 <= i < |s.todos| && s.todos[i].createToolId == Some(id);
    assert Resulted(s, b, at).todos[i].createToolId == Some(id);
  }

  /** After any transcript a create awaits its result exactly when the transcript has that
      create and, after it, no result of it, no rewrite of the list and no clearing text. */
  lemma {:induction false} AwaitsIff(xs: seq<Event>, id: string)
    ensures AwaitsCreate(Fold(EMPTY, xs), id) <==> Unsettled(xs, id)
  {
    if xs != [] {
      var front, last := xs[..|xs| - 1], xs[|xs| - 1];
      AwaitsIff(front, id);
      FoldCoupled(front);
      AwaitsStep(Fold(EMPTY, front), last, id);
      UnsettledStep(xs, front, last, id);
    }
  }

  lemma UnsettledStep(xs: seq<Event>, front: seq<Event>, last: Event, id: string)
    requires xs != [] && front == xs[..|xs| - 1] && last == xs[|xs| - 1]
    ensures Unsettled(xs, id) <==> Creates(last, id) || (Unsettled(front, id) && !Settles(last, id))
  {
    if Creates(last, id) {
      assert CreateAt(xs, |front|, id) && SettledNever(xs, |front|, id);
    }
    if Unsettled(front, id) && !Settles(last, id) {
      var k: nat :| CreateAt(front, k, id) && SettledNever(front, k, id);
      forall j | k < j < |xs| ensures !Settles(xs[j], id) {
        assert j < |front| ==> !Settles(front[j], id);
      }
      assert CreateAt(xs, k, id) && SettledNever(xs, k, id);
    }
    if k: nat :| CreateAt(xs, k, id) && SettledNever(xs, k, id) {
      if k < |front| {
        assert !Settles(xs[|front|], id);
        forall j | k < j < |front| ensures !Settles(front[j], id) {
          assert !Settles(xs[j], id);
        }
        assert CreateAt(front, k, id) && SettledNever(front, k, id);
      }
    }
  }

  /** A create changes nothing, as a repeat, exactly while an earlier one is unsettled; else
      it adds a row. */
  lemma CreateRepeatsIff(xs: seq<Event>, e: Event, id: string)
    requires Creates(e, id)
    ensures Apply(Fold(EMPTY, xs), e) == Fold(EMPTY, xs) <==> Unsettled(xs, id)
    ensures !Unsettled(xs, id) ==> |Apply(Fold(EMPTY, xs), e).todos| == |Fold(EMPTY, xs).todos| + 1
  {
    AwaitsIff(xs, id);
    var s := Fold(EMPTY, xs);
    assert FindCreate(s.todos, id).None? ==> |Created(s, e.block).todos| == |s.todos| + 1;
  }

  /** So after its result the same create adds its row again. */
  lemma CreateAgainAfterResult(s: State, create: Block, result: Block, at: int)
    requires Coupled(s)
    requires create.TaskCreate? && create.id.Some? && result.ToolResult? && result.id == create.id
    ensures var answered := Resulted(Created(s, create), result, at);
      |Created(answered, create).todos| == |answered.todos| + 1
  {
    var made := Created(s, create);
    CreatedCoupled(s, create);
    var answered := Resulted(made, result, at);
    SettledAfter(made, Event(result, at), create.id.value);
    assert FindCreate(answered.todos, create.id.value).None?;
  }

  lemma FoldSnoc(s: State, xs: seq<Event>, e: Event, all: seq<Event>)
    requires all == xs + [e]
    ensures Fold(s, all) == Apply(Fold(s, xs), e)
  {
    assert all[..|all| - 1] == xs;
  }

  /** Reading a transcript in pieces, as the tailing reader does, is reading it whole. */
  lemma {:induction false} FoldAppend(s: State, xs: seq<Event>, ys: seq<Event>)
    ensures Fold(s, xs + ys) == Fold(Fold(s, xs), ys)
  {
    if ys == [] {
      assert xs + ys == xs;
    } else {
      var front, last := ys[..|ys| - 1], ys[|ys| - 1];
      FoldAppend(s, xs, front);
      SplitLast(xs, ys, xs + ys, front, last);
      FoldSnoc(Fold(s, xs), front, last, ys);
      FoldSnoc(s, xs + front, last, xs + ys);
    }
  }

  lemma SplitLast(xs: seq<Event>, ys: seq<Event>, all: seq<Event>, front: seq<Event>, last: Event)
    requires ys != [] && front == ys[..|ys| - 1] && last == ys[|ys| - 1] && all == xs + ys
    ensures ys == front + [last] && all == xs + front + [last]
  {
  }

  // ---------- reading again from the last clear on ----------

  /** What comes before a text that clears the context does not matter. */
  lemma {:induction false} ClearForgets(s: State, xs: seq<Event>, k: nat)
    requires k < |xs| && Clears(xs[k])
    ensures Fold(s, xs) == Fold(EMPTY, xs[k + 1..])
    decreases |xs|
  {
    var front, tail := xs[..|xs| - 1], xs[k + 1..];
    if k < |xs| - 1 {
      ClearForgets(s, front, k);
      assert front[k + 1..] == tail[..|tail| - 1];
    }
  }

  /** So a transcript with such a text, of whatever blocks, may be read again and again, and
      read over whatever was read before. */
  lemma ReplayAfterClear(s: State, xs: seq<Event>, k: nat)
    requires k < |xs| && Clears(xs[k])
    ensures Fold(s, xs) == Fold(EMPTY, xs)
    ensures Fold(Fold(EMPTY, xs), xs) == Fold(EMPTY, xs)
  {
    ClearForgets(s, xs, k);
    ClearForgets(EMPTY, xs, k);
    ClearForgets(Fold(EMPTY, xs), xs, k);
  }

  // ---------- replaying a transcript of subagent dispatches and results ----------

  ghost predicate Subagents(xs: seq<Event>) {
    forall k :: 0 <= k < |xs| ==> xs[k].block.Dispatch? || xs[k].block.ToolResult?
  }

  predicate ResultAt(xs: seq<Event>, k: nat, id: string) {
    k < |xs| && xs[k].block.ToolResult? && xs[k].block.id == Some(id)
  }

  ghost predicate Answered(xs: seq<Event>, id: string) {
    exists j: nat :: ResultAt(xs, j, id)
  }

  /** Some result of `id` comes after some dispatch of it. */
  ghost predicate Closed(xs: seq<Event>, id: string) {
    exists i: nat, j: nat :: i < j && DispatchAt(xs, i, id) && ResultAt(xs, j, id)
  }

  ghost predicate Known(s: State, id: string) {
    exists i :: 0 <= i < |s.tasks| && s.tasks[i].id == id
  }

  /** A dispatch: what it does to the task `id`. */
  lemma DispatchStep(s: State, e: Event, id: string)
    requires Coupled(s) && e.block.Dispatch?
    ensures Known(Apply(s, e), id) <==> Known(s, id) || e.block.id == Some(id)
    ensures IsRunning(Apply(s, e), id) <==> IsRunning(s, id) || (e.block.id == Some(id) && !Known(s, id))
  {
    var after := Apply(s, e);
    if e.block.id.Some? && FindTask(s.tasks, e.block.id.value).None? {
      assert after.tasks[|s.tasks|].id == e.block.id.value && after.tasks[|s.tasks|].status == Running;
      assert forall i :: 0 <= i < |s.tasks| ==> after.tasks[i] == s.tasks[i];
    }
  }

  /** A result, when no create awaits one. */
  lemma ResultStep(s: State, e: Event, id: string)
    requires Coupled(s) && s.todos == [] && e.block.ToolResult?
    ensures Known(Apply(s, e), id) <==> Known(s, id)
    ensures IsRunning(Apply(s, e), id) <==> IsRunning(s, id) && e.block.id != Some(id)
  {
    var after := Apply(s, e);
    assert |after.tasks| == |s.tasks| && forall i :: 0 <= i < |s.tasks| ==> after.tasks[i].id == s.tasks[i].id;
    if e.block.id.Some? && FindTask(s.tasks, e.block.id.value).Some? {
      var at := FindTask(s.tasks, e.block.id.value).value;
      assert forall i :: 0 <= i < |s.tasks| && i != at ==> after.tasks[i] == s.tasks[i];
      assert after.tasks[at].status != Running;
    }
  }

  /** One dispatch or result: what it does to the task `id`. */
  lemma SubagentStep(s: State, e: Event, id: string)
    requires Coupled(s) && s.todos == []
    requires e.block.Dispatch? || e.block.ToolResult?
    ensures Apply(s, e).todos == [] && Coupled(Apply(s, e))
    ensures Known(Apply(s, e), id) <==> Known(s, id) || (e.block.Dispatch? && e.block.id == Some(id))
    ensures IsRunning(Apply(s, e), id) <==>
      if e.block.Dispatch? && e.block.id == Some(id) then IsRunning(s, id) || !Known(s, id)
      else IsRunning(s, id) && !(e.block.ToolResult? && e.block.id == Some(id))
  {
    ApplyCoupled(s, e);
    if e.block.Dispatch? {
      DispatchStep(s, e, id);
    } else {
      ResultStep(s, e, id);
    }
  }

  lemma {:induction false} FoldKnows(xs: seq<Event>, id: string)
    requires Subagents(xs)
    ensures var s := Fold(EMPTY, xs);
      s.todos == [] && Coupled(s)
      && (Known(s, id) <==> Launched(xs, id))
      && (IsRunning(s, id) <==> Launched(xs, id) && !Closed(xs, id))
  {
    if xs != [] {
      var front, e := xs[..|xs| - 1], xs[|xs| - 1];
      FoldKnows(front, id);
      SubagentStep(Fold(EMPTY, front), e, id);
      LastCounts(xs, id);
    }
  }

  lemma LastCounts(xs: seq<Event>, id: string)
    requires xs != []
    ensures var front, last := xs[..|xs| - 1], |xs| - 1;
      && (Launched(xs, id) <==> Launched(front, id) || DispatchAt(xs, last, id))
      && (Answered(xs, id) <==> Answered(front, id) || ResultAt(xs, last, id))
      && (Closed(xs, id) <==> Closed(front, id) || (ResultAt(xs, last, id) && Launched(front, id)))
  {
    var front := xs[..|xs| - 1];
    assert forall k: nat :: k < |front| ==> (DispatchAt(front, k, id) <==> DispatchAt(xs, k, id));
    assert forall k: nat :: k < |front| ==> (ResultAt(front, k, id) <==> ResultAt(xs, k, id));
  }

  lemma {:induction false} SecondPassIsQuiet(s: State, ys: seq<Event>)
    requires Coupled(s) && s.todos == [] && Subagents(ys)
    requires forall id :: Launched(ys, id) ==> Known(s, id)
    requires forall id :: Answered(ys, id) ==> !IsRunning(s, id)
    ensures Fold(s, ys) == s
  {
    if ys != [] {
      var front, e := ys[..|ys| - 1], ys[|ys| - 1];
      forall id ensures Launched(front, id) ==> Launched(ys, id)
                ensures Answered(front, id) ==> Answered(ys, id) {
        LastCounts(ys, id);
      }
      SecondPassIsQuiet(s, front);
      if e.block.id.Some? {
        LastCounts(ys, e.block.id.value);
        if e.block.Dispatch? {
          assert Known(s, e.block.id.value);
        } else {
          assert !IsRunning(s, e.block.id.value);
        }
      }
    }
  }

  lemma {:induction false} AnsweredEnds(s: State, ys: seq<Event>, id: string)
    requires Coupled(s) && s.todos == [] && Subagents(ys) && Known(s, id)
    ensures var after := Fold(s, ys);
      Coupled(after) && after.todos == [] && Known(after, id) && (Answered(ys, id) ==> !IsRunning(after, id))
  {
    if ys != [] {
      AnsweredEnds(s, ys[..|ys| - 1], id);
      SubagentStep(Fold(s, ys[..|ys| - 1]), ys[|ys| - 1], id);
      LastCounts(ys, id);
    }
  }

  ghost predicate SameBlocks(xs: seq<Event>, ys: seq<Event>) {
    |xs| == |ys| && forall k :: 0 <= k < |xs| ==> xs[k].block == ys[k].block
  }

  /** Replaying a dispatch and result transcript, whatever its times are on the second
      reading, changes nothing exactly when each subagent that has both a dispatch and a
      result has a result after a dispatch. */
  lemma ReplayIff(xs: seq<Event>, ys: seq<Event>)
    requires Subagents(xs) && SameBlocks(xs, ys)
    ensures Fold(Fold(EMPTY, xs), ys) == Fold(EMPTY, xs)
      <==> forall id :: Launched(xs, id) && Answered(xs, id) ==> Closed(xs, id)
  {
    var s := Fold(EMPTY, xs);
    forall id ensures s.todos == [] && Coupled(s)
              ensures Known(s, id) <==> Launched(xs, id)
              ensures IsRunning(s, id) <==> Launched(xs, id) && !Closed(xs, id)
              ensures Launched(ys, id) <==> Launched(xs, id)
              ensures Answered(ys, id) <==> Answered(xs, id) {
      FoldKnows(xs, id);
      assert forall k: nat :: DispatchAt(xs, k, id) <==> DispatchAt(ys, k, id);
      assert forall k: nat :: ResultAt(xs, k, id) <==> ResultAt(ys, k, id);
    }
    if id :| Launched(xs, id) && Answered(xs, id) && !Closed(xs, id) {
      AnsweredEnds(s, ys, id);
    } else {
      FoldKnows(xs, "");
      SecondPassIsQuiet(s, ys);
    }
  }

  /** In particular when no result precedes its dispatch. */
  lemma ReplayOrdered(xs: seq<Event>, ys: seq<Event>)
    requires Subagents(xs) && SameBlocks(xs, ys)
    requires forall j: nat, id :: ResultAt(xs, j, id) && Launched(xs, id) ==> exists i: nat :: i < j && DispatchAt(xs, i, id)
    ensures Fold(Fold(EMPTY, xs), ys) == Fold(EMPTY, xs)
  {
    ReplayIff(xs, ys);
    forall id | Launched(xs, id) && Answered(xs, id) ensures Closed(xs, id) {
      var j: nat :| ResultAt(xs, j, id);
      var i: nat :| i < j && DispatchAt(xs, i, id);
    }
  }

  // ---------- the parser, which updates its state in place ----------

  /** A transcript line once parsed; a malformed or blank one has no blocks. */
  datatype Line = Line(blocks: seq<Block>, at: int)

  function LineEvents(line: Line): seq<Event> {
    seq(|line.blocks|, i requires 0 <= i < |line.blocks| => Event(line.blocks[i], line.at))
  }

  function Events(lines: seq<Line>): seq<Event> {
    if lines == [] then [] else Events(lines[..|lines| - 1]) + LineEvents(lines[|lines| - 1])
  }

  /** The task state together with the map of pending starts that is passed along with it. */
  class AgentTaskState {
    var plan: Option<string>
    var todos: seq<TodoItem>
    var tasks: seq<TaskRecord>
    var pending: map<string, int>

    ghost function Snapshot(): State
      reads this
    {
      State(plan, todos, tasks, pending)
    }

    constructor Default()
      ensures Snapshot() == EMPTY
    {
      plan, todos, tasks, pending := None, [], [], map[];
    }

    method ApplyText(text: Option<string>)
      modifies this
      ensures forall at: int :: Snapshot() == Apply(old(Snapshot()), Event(TextBlock(text), at))
    {
      if text.None? || Find(text.value, "<command-name>").None? { return; }
      var cmd := ExtractCommandName(text.value);
      if cmd.None? { return; }
      var verb := LowerAscii(StripSlashes(Trim(cmd.value)));
      if verb == "clear" || verb == "compact" {
        plan, todos, tasks, pending := None, [], [], map[];
      }
    }

    method CreateTodo(b: Block)
      requires b.TaskCreate?
      modifies `todos
      ensures forall at: int :: Snapshot() == Apply(old(Snapshot()), Event(b, at))
    {
      if b.id.None? || FindCreate(todos, b.id.value).Some? { return; }
      var subject := if b.subject.Some? then b.subject.value else "(task)";
      todos := todos + [TodoItem(subject, b.activeForm, Todo, b.description, None, b.id)];
    }

    method UpdateTodo(b: Block)
      requires b.TaskUpdate?
      modifies `todos
      ensures forall at: int :: Snapshot() == Apply(old(Snapshot()), Event(b, at))
    {
      if b.taskId.None? { return; }
      if b.status == Some("deleted") {
        var kept: seq<TodoItem> := [];
        for k := 0 to |todos|
          invariant todos == old(todos)
          invariant kept == Without(todos[..k], b.taskId.value)
        {
          assert todos[..k + 1][..k] == todos[..k];
          if todos[k].taskId != b.taskId { kept := kept + [todos[k]]; }
        }
        assert todos[..|todos|] == todos;
        todos := kept;
        return;
      }
      var found := FindTodo(todos, b.taskId.value);
      if found.None? { return; }
      var t := todos[found.value];
      if b.status.Some? { t := t.(status := StatusOf(b.status.value)); }
      if b.subject.Some? { t := t.(content := b.subject.value); }
      if b.activeForm.Some? { t := t.(activeForm := b.activeForm); }
      if b.description.Some? { t := t.(description := b.description); }
      todos := todos[found.value := t];
    }

    method RewriteTodos(items: seq<RawTodo>)
      modifies `todos
      ensures forall at: int :: Snapshot() == Apply(old(Snapshot()), Event(TodoWrite(Some(items)), at))
    {
      var parsed: seq<TodoItem> := [];
      for k := 0 to |items|
        invariant parsed == Legacy(items[..k])
      {
        assert items[..k + 1][..k] == items[..k];
        if items[k].content.Some? && items[k].status.Some? {
          parsed := parsed +
            [TodoItem(items[k].content.value, items[k].activeForm, StatusOf(items[k].status.value), None, None, None)];
        }
      }
      assert items[..|items|] == items;
      todos := parsed;
    }

    method DispatchTask(b: Block, at: int)
      requires b.Dispatch?
      modifies `tasks, `pending
      ensures Snapshot() == Apply(old(Snapshot()), Event(b, at))
    {
      if b.id.None? || FindTask(tasks, b.id.value).Some? { return; }
      pending := pending[b.id.value := at];
      var description := if b.description.Some? then b.description.value else "(task)";
      tasks := tasks + [TaskRecord(b.id.value, description, b.subagentType, Running, at, None)];
    }

    method ApplyToolResult(b: Block, at: int)
      requires b.ToolResult?
      modifies this
      ensures Snapshot() == Apply(old(Snapshot()), Event(b, at))
    {
      if b.id.None? { return; }
      var id := b.id.value;
      var row := FindCreate(todos, id);
      if row.Some? {
        var t := todos[row.value];
        if b.content.Some? && ParseTaskCreateId(b.content.value).Some? {
          t := t.(taskId := ParseTaskCreateId(b.content.value));
        }
        todos := todos[row.value := t.(createToolId := None)];
        return;
      }
      var found := FindTask(tasks, id);
      if found.None? { return; }
      var rec := tasks[found.value];
      if rec.status == Running {
        rec := rec.(status := if b.isError then Failed else Succeeded);
        if id in pending {
          rec := rec.(durationMs := Some(Millis(pending[id], at)));
        }
        pending := pending - {id};
        tasks := tasks[found.value := rec];
      }
    }

    method ApplyBlock(b: Block, at: int)
      modifies this
      ensures Snapshot() == Apply(old(Snapshot()), Event(b, at))
    {
      match b
      case TextBlock(text) => ApplyText(text);
      case TaskCreate(_, _, _, _) => CreateTodo(b);
      case TaskUpdate(_, _, _, _, _) => UpdateTodo(b);
      case TodoWrite(items) => if items.Some? { RewriteTodos(items.value); }
      case ExitPlanMode(text) => if text.Some? { plan := text; }
      case Dispatch(_, _, _) => DispatchTask(b, at);
      case ToolResult(_, _, _) => ApplyToolResult(b, at);
      case Ignored =>
    }

    method ApplyLine(line: Line)
      modifies this
      ensures Snapshot() == Fold(old(Snapshot()), LineEvents(line))
    {
      for k := 0 to |line.blocks|
        invariant Snapshot() == Fold(old(Snapshot()), LineEvents(line)[..k])
      {
        assert LineEvents(line)[..k + 1][..k] == LineEvents(line)[..k];
        ApplyBlock(line.blocks[k], line.at);
      }
      assert LineEvents(line)[..|line.blocks|] == LineEvents(line);
    }
  }

  /** The whole file, line by line: the fold of all its blocks, with the coupling kept. */
  method ParseFile(lines: seq<Line>) returns (state: AgentTaskState)
    ensures fresh(state) && state.Snapshot() == Fold(EMPTY, Events(lines)) && Coupled(state.Snapshot())
  {
    state := new AgentTaskState.Default();
    for k := 0 to |lines|
      invariant fresh(state) && state.Snapshot() == Fold(EMPTY, Events(lines[..k]))
    {
      assert lines[..k + 1][..k] == lines[..k];
      FoldAppend(EMPTY, Events(lines[..k]), LineEvents(lines[k]));
      state.ApplyLine(lines[k]);
    }
    assert lines[..|lines|] == lines;
    FoldCoupled(Events(lines));
  }
}
