/** What the plan and the todo rows say about the transcript they were read from, and which
    texts clear the context (crates/agentum-core/src/transcript.rs). */
module TodoRows {
  import opened Basics
  import opened Text
  import opened Transcript

  // ---------- the plan ----------

  predicate Plans(e: Event) {
    e.block.ExitPlanMode? && e.block.plan.Some?
  }

  /** Block `k` is the last that plans or clears, and it plans `p`. */
  ghost predicate PlannedAt(xs: seq<Event>, k: nat, p: string) {
    && k < |xs| && xs[k].block == ExitPlanMode(Some(p))
    && forall j: nat :: k < j < |xs| ==> !Plans(xs[j]) && !Clears(xs[j])
  }

  ghost predicate Planned(xs: seq<Event>, p: string) {
    exists k: nat :: PlannedAt(xs, k, p)
  }

  /** The plan is that of the last plan block since the context was last cleared. */
  lemma {:induction false} PlanIff(xs: seq<Event>, p: string)
    ensures Fold(EMPTY, xs).plan == Some(p) <==> Planned(xs, p)
  {
    if xs != [] {
      var front, e := xs[..|xs| - 1], xs[|xs| - 1];
      PlanIff(front, p);
      PlanStep(Fold(EMPTY, front), e, p);
      PlannedStep(xs, front, e, p);
    }
  }

  lemma PlanStep(s: State, e: Event, p: string)
    ensures Apply(s, e).plan == Some(p)
      <==> e.block == ExitPlanMode(Some(p)) || (s.plan == Some(p) && !Plans(e) && !Clears(e))
  {
  }

  lemma PlannedStep(xs: seq<Event>, front: seq<Event>, e: Event, p: string)
    requires xs != [] && front == xs[..|xs| - 1] && e == xs[|xs| - 1]
    ensures Planned(xs, p) <==> e.block == ExitPlanMode(Some(p)) || (Planned(front, p) && !Plans(e) && !Clears(e))
  {
    if e.block == ExitPlanMode(Some(p)) {
      assert PlannedAt(xs, |front|, p);
    } else {
      assert !Plans(e) && !Clears(e) ==> forall k: nat :: k < |front| ==> (PlannedAt(xs, k, p) <==> PlannedAt(front, k, p));
      assert forall k: nat :: PlannedAt(xs, k, p) ==> k < |front| && !Plans(xs[|front|]) && !Clears(xs[|front|]);
    }
  }

  // ---------- a row from its create to its update ----------

  predicate Named(status: string, s: TodoStatus) {
    match s
    case InProgress => status == "in_progress"
    case Completed => status == "completed"
    case Todo => status !in {"in_progress", "completed"}
  }

  predicate CreatesRow(b: Block, id: string, row: TodoItem) {
    && b.TaskCreate? && b.id == Some(id)
    && row.content == (if b.subject.Some? then b.subject.value else "(task)")
    && row.activeForm == b.activeForm && row.description == b.description
    && row.status == Todo && row.taskId == None && row.createToolId == Some(id)
  }

  /** The answer to a create: `Task #`, a number, and whatever comes after it. */
  predicate Numbers(b: Block, id: string, n: string) {
    b.ToolResult? && b.id == Some(id) && b.content.Some? && NumberedText(b.content.value, n)
  }

  predicate NumberedText(text: string, n: string) {
    && n != "" && (forall c :: c in n ==> '0' <= c <= '9')
    && "Task #" + n <= text && (|text| == 6 + |n| || !('0' <= text[6 + |n|] <= '9'))
  }

  lemma {:induction false} LeadingDigitsAre(s: string, n: string)
    requires n <= s && (forall c :: c in n ==> IsDigit(c)) && (|s| == |n| || !IsDigit(s[|n|]))
    ensures LeadingDigits(s) == n
  {
    if n != "" {
      assert n[0] in n && s[0] == n[0] && forall c :: c in n[1..] ==> c in n;
      LeadingDigitsAre(s[1..], n[1..]);
      HeadTail(n);
    }
  }

  lemma NumberIsRead(text: string, n: string)
    requires NumberedText(text, n)
    ensures ParseTaskCreateId(text) == Some(n)
  {
    var prefix := "Task #";
    assert (prefix + n)[..6] == prefix && (prefix + n)[6..] == n;
    assert text[..6] == prefix;
    assert text[6..][..|n|] == n;
    LeadingDigitsAre(text[6..], n);
  }

  /** The rows when `create` is read, then its answer, where no row had the id or number. */
  lemma CreatedThenNumbered(s: State, create: Event, answer: Event, id: string, n: string)
    returns (row: TodoItem)
    requires create.block.TaskCreate? && create.block.id == Some(id) && Numbers(answer.block, id, n)
    requires !AwaitsCreate(s, id)
    ensures CreatesRow(create.block, id, row) && Apply(s, create).todos == s.todos + [row]
    ensures Apply(Apply(s, create), answer).todos == s.todos + [row.(taskId := Some(n), createToolId := None)]
  {
    var made := Apply(s, create);
    row := made.todos[|s.todos|];
    NumberIsRead(answer.block.content.value, n);
    assert FindCreate(made.todos, id) == Some(|s.todos|);
    assert Apply(made, answer).todos == made.todos[|s.todos| := Bound(row, answer.block.content)];
  }

  /** How an update changes a row, field by field. */
  predicate Revises(b: Block, old': TodoItem, row: TodoItem)
    requires b.TaskUpdate?
  {
    && (if b.status.Some? then Named(b.status.value, row.status) else row.status == old'.status)
    && (if b.subject.Some? then row.content == b.subject.value else row.content == old'.content)
    && (if b.activeForm.Some? then row.activeForm == b.activeForm else row.activeForm == old'.activeForm)
    && (if b.description.Some? then row.description == b.description else row.description == old'.description)
    && row.taskId == old'.taskId && row.createToolId == old'.createToolId
  }

  /** An update revises the first row of its number and no other; `deleted` drops them all. */
  lemma UpdateRevises(s: State, e: Event, n: string, i: nat)
    requires e.block.TaskUpdate? && e.block.taskId == Some(n)
    requires i < |s.todos| && s.todos[i].taskId == Some(n) && forall k :: 0 <= k < i ==> s.todos[k].taskId != Some(n)
    ensures e.block.status != Some("deleted") ==>
      exists row :: Apply(s, e).todos == s.todos[i := row] && Revises(e.block, s.todos[i], row)
    ensures e.block.status == Some("deleted") ==>
      forall t :: t in Apply(s, e).todos <==> t in s.todos && t.taskId != Some(n)
  {
    if e.block.status != Some("deleted") {
      assert FindTodo(s.todos, n) == Some(i);
      var row := Patched(s.todos[i], e.block);
      assert Apply(s, e).todos == s.todos[i := row] && Revises(e.block, s.todos[i], row);
    }
  }

  /** An update of a number that no row has changes nothing. */
  lemma UpdateMisses(s: State, e: Event, n: string)
    requires e.block.TaskUpdate? && e.block.taskId == Some(n) && forall t :: t in s.todos ==> t.taskId != Some(n)
    ensures Apply(s, e) == s
  {
    WithoutTwice(s.todos, n);
    assert forall i :: 0 <= i < |s.todos| ==> s.todos[i] in s.todos;
  }

  /** A result that gives a create no number. */
  predicate Unnumbered(b: Block, id: string) {
    && b.ToolResult? && b.id == Some(id)
    && (b.content.None? || !("Task #" <= b.content.value) || |b.content.value| == 6 || !IsDigit(b.content.value[6]))
  }

  /** It ends the waiting all the same: a later result of the id finds no create. */
  lemma CreatedThenAnswered(s: State, create: Event, answer: Event, id: string) returns (row: TodoItem)
    requires create.block.TaskCreate? && create.block.id == Some(id) && Unnumbered(answer.block, id)
    requires !AwaitsCreate(s, id)
    ensures CreatesRow(create.block, id, row)
    ensures Apply(Apply(s, create), answer).todos == s.todos + [row.(createToolId := None)]
  {
    var made := Apply(s, create);
    row := made.todos[|s.todos|];
    assert FindCreate(made.todos, id) == Some(|s.todos|);
    assert answer.block.content.Some? ==> ParseTaskCreateId(answer.block.content.value) == None;
    assert Apply(made, answer).todos == made.todos[|s.todos| := Bound(row, answer.block.content)];
  }

  // ---------- a rewritten list ----------

  predicate WellFormed(raw: RawTodo) {
    raw.content.Some? && raw.status.Some?
  }

  predicate Rewrites(raw: RawTodo, i: nat, row: TodoItem) {
    && WellFormed(raw) && row.content == raw.content.value && row.activeForm == raw.activeForm
    && Named(raw.status.value, row.status)
    && row.description == None && row.taskId == None && row.createToolId == None
  }

  lemma LegacyStep(raw: seq<RawTodo>, k: nat, i: nat) returns (row: TodoItem)
    requires |raw| == k + 1
    ensures WellFormed(raw[k]) ==> Rewrites(raw[k], i, row) && Legacy(raw) == Legacy(raw[..k]) + [row]
    ensures !WellFormed(raw[k]) ==> Legacy(raw) == Legacy(raw[..k])
  {
    row := TodoItem("", None, Todo, None, None, None);
    if WellFormed(raw[k]) {
      row := Legacy(raw)[|Legacy(raw)| - 1];
    }
  }

  /** A rewrite leaves a row for each item that has a content and a status, in order. */
  lemma {:induction false} RewriteKeeps(raw: seq<RawTodo>) returns (at: seq<nat>)
    ensures Picked(raw, at, Legacy(raw), Rewrites, WellFormed)
  {
    at := [];
    if raw != [] {
      var k := |raw| - 1;
      at := RewriteKeeps(raw[..k]);
      var row := LegacyStep(raw, k, |at|);
      PickedSnoc(raw, k, at, Legacy(raw[..k]), Rewrites, WellFormed, row);
      assert raw[..k + 1] == raw;
      if WellFormed(raw[k]) { at := at + [k]; }
    }
  }

  // ---------- the texts that clear the context ----------

  /** `verb` is `word` in letters of either case. */
  predicate SameWord(verb: string, word: string) {
    |verb| == |word| && forall i :: 0 <= i < |word| ==> verb[i] == word[i] || verb[i] as int + 32 == word[i] as int
  }

  predicate ClearingWord(verb: string) {
    SameWord(verb, "clear") || SameWord(verb, "compact")
  }

  predicate Slashes(s: string) {
    forall c :: c in s ==> c == '/'
  }

  /** The first envelope of `text` holds `cmd`. */
  predicate Envelope(text: string, pre: string, cmd: string, post: string, open: string, close: string) {
    && text == pre + open + (cmd + close + post)
    && (forall k: nat :: k < |pre| ==> !OccursAt(text, open, k))
    && (forall k: nat :: k < |cmd| ==> !OccursAt(cmd + close + post, close, k))
  }

  /** A command, between blanks: slashes and a clearing word. */
  ghost predicate ClearingCommand(cmd: string) {
    exists slashes, verb :: Slashes(slashes) && ClearingWord(verb) && IsTrimOf(cmd, slashes + verb)
  }

  ghost predicate Enveloped(text: string, cmd: string) {
    exists pre, post :: Envelope(text, pre, cmd, post, "<command-name>", "</command-name>")
  }

  ghost predicate ClearingText(text: string) {
    exists cmd :: Enveloped(text, cmd) && ClearingCommand(cmd)
  }

  lemma {:induction false} StripSlashesIs(s: string, slashes: string, rest: string)
    requires s == slashes + rest && Slashes(slashes) && (rest == "" || rest[0] != '/')
    ensures StripSlashes(s) == rest
    decreases |slashes|
  {
    if slashes == "" {
      assert s == rest;
    } else {
      assert s[0] == slashes[0] && slashes[0] in slashes && s[1..] == slashes[1..] + rest;
      assert forall c :: c in slashes[1..] ==> c in slashes;
      StripSlashesIs(s[1..], slashes[1..], rest);
    }
  }

  lemma {:induction false} StripSlashesLeaves(s: string) returns (slashes: string)
    ensures s == slashes + StripSlashes(s) && Slashes(slashes)
  {
    if s != "" && s[0] == '/' {
      var more := StripSlashesLeaves(s[1..]);
      slashes := ['/'] + more;
      HeadTail(s);
      Regroup(['/'], more, StripSlashes(s));
    } else {
      slashes := "";
      assert "" + s == s;
    }
  }

  lemma LowerIs(verb: string, word: string)
    requires forall c :: c in word ==> 'a' <= c <= 'z'
    ensures LowerAscii(verb) == word <==> SameWord(verb, word)
  {
    assert forall i :: 0 <= i < |word| ==> word[i] in word;
    if LowerAscii(verb) == word {
      forall i | 0 <= i < |word| ensures verb[i] == word[i] || verb[i] as int + 32 == word[i] as int {
        assert LowerAscii(verb)[i] == word[i];
      }
    }
    if SameWord(verb, word) {
      forall i | 0 <= i < |word| ensures LowerAscii(verb)[i] == word[i] {
        assert word[i] in word;
      }
      assert LowerAscii(verb) == word;
    }
  }

  lemma ClearingWordIs(verb: string)
    ensures LowerAscii(verb) in {"clear", "compact"} <==> ClearingWord(verb)
  {
    LowerIs(verb, "clear");
    LowerIs(verb, "compact");
  }

  /** A clearing word begins and ends with a letter. */
  lemma ClearingWordEnds(verb: string)
    requires ClearingWord(verb)
    ensures verb != "" && verb[0] != '/' && !IsWhitespace(verb[0]) && !IsWhitespace(verb[|verb| - 1])
  {
  }

  predicate CommandClears(cmd: string) {
    LowerAscii(StripSlashes(Trim(cmd))) in {"clear", "compact"}
  }

  lemma CommandIff(cmd: string)
    ensures CommandClears(cmd) <==> ClearingCommand(cmd)
  {
    ClearingWordIs(StripSlashes(Trim(cmd)));
    if CommandClears(cmd) {
      var slashes := StripSlashesLeaves(Trim(cmd));
      TrimIff(cmd, slashes + StripSlashes(Trim(cmd)));
    }
    if slashes, verb :| Slashes(slashes) && ClearingWord(verb) && IsTrimOf(cmd, slashes + verb) {
      TrimIff(cmd, slashes + verb);
      ClearingWordEnds(verb);
      StripSlashesIs(Trim(cmd), slashes, verb);
    }
  }

  lemma EnvelopeIs(text: string, pre: string, cmd: string, post: string, open: string, close: string)
    requires Envelope(text, pre, cmd, post, open, close)
    ensures Find(text, open) == Some(|pre|) && text[|pre| + |open|..] == cmd + close + post
    ensures Find(cmd + close + post, close) == Some(|cmd|) && (cmd + close + post)[..|cmd|] == cmd
  {
    var rest := cmd + close + post;
    assert text[|pre|..|pre| + |open|] == open && text[|pre| + |open|..] == rest;
    assert rest[|cmd|..|cmd| + |close|] == close && rest[..|cmd|] == cmd;
    FindIs(text, open, |pre|);
    FindIs(rest, close, |cmd|);
  }

  lemma CutAt(s: string, pat: string, i: nat)
    requires OccursAt(s, pat, i)
    ensures s == s[..i] + pat + s[i + |pat|..]
  {
  }

  lemma EnvelopeMade(text: string, pre: string, rest: string, cmd: string, post: string, open: string, close: string)
    requires text == pre + open + rest && rest == cmd + close + post
    requires Find(text, open) == Some(|pre|) && Find(rest, close) == Some(|cmd|)
    ensures Envelope(text, pre, cmd, post, open, close)
  {
  }

  lemma EnvelopeFound(text: string, open: string, close: string, i: nat, n: nat, rest: string)
    requires Find(text, open) == Some(i) && rest == text[i + |open|..] && Find(rest, close) == Some(n)
    ensures Envelope(text, text[..i], rest[..n], rest[n + |close|..], open, close)
  {
    CutAt(text, open, i);
    CutAt(rest, close, n);
    EnvelopeMade(text, text[..i], rest, rest[..n], rest[n + |close|..], open, close);
  }

  lemma Extracted(text: string, open: string, close: string) returns (i: nat, n: nat, rest: string)
    requires open == "<command-name>" && close == "</command-name>" && ExtractCommandName(text).Some?
    ensures Find(text, open) == Some(i) && rest == text[i + |open|..] && Find(rest, close) == Some(n)
    ensures ExtractCommandName(text) == Some(rest[..n])
  {
    i := Find(text, open).value;
    rest := text[i + |open|..];
    n := Find(rest, close).value;
  }

  /** The command is what the first envelope holds. */
  lemma ExtractIff(text: string, cmd: string, open: string, close: string)
    requires open == "<command-name>" && close == "</command-name>"
    ensures ExtractCommandName(text) == Some(cmd) <==> exists pre, post :: Envelope(text, pre, cmd, post, open, close)
  {
    if ExtractCommandName(text) == Some(cmd) {
      var i, n, rest := Extracted(text, open, close);
      EnvelopeFound(text, open, close, i, n, rest);
    }
    if pre, post :| Envelope(text, pre, cmd, post, open, close) {
      EnvelopeIs(text, pre, cmd, post, open, close);
    }
  }

  lemma ClearsByCommand(text: string)
    ensures ClearsContext(text) <==> exists cmd :: ExtractCommandName(text) == Some(cmd) && CommandClears(cmd)
  {
  }

  /** A text clears the context exactly when its first command envelope holds, between blanks,
      slashes and the word `clear` or `compact`, in any case. */
  lemma ClearsIff(text: string)
    ensures ClearsContext(text) <==> ClearingText(text)
  {
    ClearsByCommand(text);
    forall cmd ensures CommandClears(cmd) <==> ClearingCommand(cmd)
               ensures ExtractCommandName(text) == Some(cmd) <==> Enveloped(text, cmd) {
      CommandIff(cmd);
      ExtractIff(text, cmd, "<command-name>", "</command-name>");
    }
  }
}
