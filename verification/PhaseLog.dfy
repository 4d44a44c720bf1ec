/** The phases of a spec-driven run and the decision log they are rebuilt from
    (crates/agentum-server/src/harness.rs). */
module PhaseLog {
  import opened Basics
  import opened Text

  datatype SpecPhase =
    | Authoring | Architecture | Decompose | Executing | Review | Done | Blocked | AwaitingConfirm
  {
    function Slug(): string {
      match this
      case Authoring => "authoring"
      case Architecture => "architecture"
      case Decompose => "decompose"
      case Executing => "executing"
      case Review => "review"
      case Done => "done"
      case Blocked => "blocked"
      case AwaitingConfirm => "awaiting_confirm"
    }
  }

  function FromSlug(slug: string): Option<SpecPhase> {
    if slug == "authoring" then Some(Authoring)
    else if slug == "architecture" then Some(Architecture)
    else if slug == "decompose" then Some(Decompose)
    else if slug == "executing" then Some(Executing)
    else if slug == "review" then Some(Review)
    else if slug == "done" then Some(Done)
    else if slug == "blocked" then Some(Blocked)
    else if slug == "awaiting_confirm" then Some(AwaitingConfirm)
    else None
  }

  // ---------- reading the log ----------

  const MARKER := "phase: entered "

  function TakeToken(s: string): string {
    if s == "" || IsWhitespace(s[0]) then "" else [s[0]] + TakeToken(s[1..])
  }

  /** `split_whitespace().next()`. */
  function FirstToken(s: string): Option<string> {
    var rest := TrimStart(s);
    if rest == "" then None else Some(TakeToken(rest))
  }

  /** The phase named first in a text. */
  function TailPhase(tail: string): Option<SpecPhase> {
    match FirstToken(tail)
    case None => None
    case Some(slug) => FromSlug(slug)
  }

  /** The phase one log line records, if it records one. */
  function LinePhase(line: string): Option<SpecPhase> {
    match Find(line, MARKER)
    case None => None
    case Some(i) => TailPhase(line[i + |MARKER|..])
  }

  /** The last line that records a phase wins. */
  function LastPhase(lines: seq<string>): Option<SpecPhase> {
    LastSome(lines, LinePhase)
  }

  function Rebuild(log: string): Option<SpecPhase> {
    LastPhase(Lines(log))
  }

  /** The phase a newly registered run starts in. */
  function Resume(log: string): SpecPhase {
    match Rebuild(log)
    case Some(p) => p
    case None => Executing
  }

  // ---------- writing the log ----------

  function EntryLine(entry: string): string {
    "- " + Trim(entry) + "\n"
  }

  function AppendEntry(log: string, entry: string): (r: string)
    ensures Terminated(r)
  {
    log + EntryLine(entry)
  }

  /** What is on disk when the write stops after `kept` characters; a write that lands has
      kept them all, one that fails at once none. */
  function Part(entry: string, kept: nat): string {
    if kept < |EntryLine(entry)| then EntryLine(entry)[..kept] else EntryLine(entry)
  }

  predicate Lands(entry: string, kept: nat) {
    kept >= |EntryLine(entry)|
  }

  /** A gate's entry ends in the agent's own summary. */
  function GateEntry(p: SpecPhase, outcome: string, summary: string): string {
    p.Slug() + " gate " + outcome + ": " + summary
  }

  function EnteredEntry(to: SpecPhase, from: SpecPhase): string {
    MARKER + to.Slug() + " (from " + from.Slug() + ")"
  }

  /** What an entry, appended after a complete line, makes a reader rebuild. */
  function EntryPhase(entry: string): Option<SpecPhase> {
    Rebuild(EntryLine(entry))
  }

  // ---------- lemmas ----------

  /** The names under which the phases are logged. */
  lemma SlugNames()
    ensures FromSlug("authoring") == Some(Authoring) && FromSlug("architecture") == Some(Architecture)
    ensures FromSlug("decompose") == Some(Decompose) && FromSlug("executing") == Some(Executing)
    ensures FromSlug("review") == Some(Review) && FromSlug("done") == Some(Done)
    ensures FromSlug("blocked") == Some(Blocked) && FromSlug("awaiting_confirm") == Some(AwaitingConfirm)
  {
  }

  lemma SlugRoundTrip(p: SpecPhase)
    ensures FromSlug(p.Slug()) == Some(p)
  {
  }

  lemma {:induction false} TokenStops(word: string, rest: string)
    requires forall c :: c in word ==> !IsWhitespace(c)
    requires rest == "" || IsWhitespace(rest[0])
    ensures TakeToken(word + rest) == word
  {
    if word == "" {
      assert word + rest == rest;
    } else {
      assert (word + rest)[0] == word[0] && word[0] in word;
      assert (word + rest)[1..] == word[1..] + rest;
      TokenStops(word[1..], rest);
    }
  }

  /** A run resumes in the phase of the last line that records one, */
  lemma ResumesWhere(log: string, k: nat, p: SpecPhase)
    requires LastAt(Lines(log), k, LinePhase, p)
    ensures Resume(log) == p
  {
    LastSomeIs(Lines(log), LinePhase);
  }

  /** and from a log without the marker in the feature loop. */
  lemma ResumesInLoop(log: string)
    requires !Contains(log, MARKER)
    ensures Resume(log) == Executing
  {
    var lines := Lines(log);
    LastSomeIs(lines, LinePhase);
    if k: nat, p :| LastAt(lines, k, LinePhase, p) {
      LineIsContained(log, k);
      UnmarkedLine(log, lines[k], MARKER);
    }
  }

  lemma UnmarkedLine(log: string, line: string, marker: string)
    requires marker == MARKER && Contains(log, line) && !Contains(log, marker)
    ensures LinePhase(line) == None
  {
    if Contains(line, marker) {
      ContainsTransitive(log, line, marker);
    }
  }

  lemma {:induction false} LastPhaseOfConcat(a: seq<string>, b: seq<string>)
    ensures LastPhase(a + b) == if LastPhase(b).Some? then LastPhase(b) else LastPhase(a)
  {
    if b == [] {
      assert a + b == a;
    } else {
      assert (a + b)[..|a + b| - 1] == a + b[..|b| - 1];
      LastPhaseOfConcat(a, b[..|b| - 1]);
    }
  }

  /** Appending to a complete log: the phase of the new text if it has one, else the old one. */
  lemma RebuildAfterText(log: string, text: string)
    requires Terminated(log)
    ensures Rebuild(log + text) == if Rebuild(text).Some? then Rebuild(text) else Rebuild(log)
  {
    LinesAppend(log, text);
    LastPhaseOfConcat(Lines(log), Lines(text));
  }

  lemma RebuildAfterAppend(log: string, entry: string)
    requires Terminated(log)
    ensures Rebuild(AppendEntry(log, entry))
         == if EntryPhase(entry).Some? then EntryPhase(entry) else Rebuild(log)
  {
    RebuildAfterText(log, EntryLine(entry));
  }

  predicate IsWord(s: string) {
    s != "" && forall c :: c in s ==> !IsWhitespace(c)
  }

  lemma SlugIsWord(p: SpecPhase)
    ensures IsWord(p.Slug()) && ':' !in p.Slug()
  {
    match p
    case Authoring => LettersOnly("authoring");
    case Architecture => LettersOnly("architecture");
    case Decompose => LettersOnly("decompose");
    case Executing => LettersOnly("executing");
    case Review => LettersOnly("review");
    case Done => LettersOnly("done");
    case Blocked => LettersOnly("blocked");
    case AwaitingConfirm => LettersOnly("awaiting_confirm");
  }

  predicate IsLetter(c: char) {
    'a' <= c <= 'z' || c == '_'
  }

  lemma LettersOnly(word: string)
    requires word != "" && forall i :: 0 <= i < |word| ==> IsLetter(word[i])
    ensures IsWord(word) && ':' !in word
  {
  }

  lemma SingleLine(line: string, s: string)
    requires '\n' !in line && (line == "" || line[|line| - 1] != '\r')
    requires |s| == |line| + 1 && s[..|line|] == line && s[|line|] == '\n'
    ensures Lines(s) == [line]
  {
    IndexOfIs(s, '\n', |line|);
    assert s[|line| + 1..] == "" && Lines("") == [];
  }

  /** A marker that starts right after two other characters is found there. */
  lemma FoundAfterTwo(line: string, marker: string, tail: string)
    requires |line| >= 2 && marker != "" && line[0] != marker[0] && line[1] != marker[0]
    requires line[2..] == marker + tail
    ensures Find(line, marker) == Some(2) && line[2 + |marker|..] == tail
  {
    assert line[2..2 + |marker|] == line[2..][..|marker|] == marker;
    assert line[2 + |marker|..] == line[2..][|marker|..] == tail;
    forall k: nat | k < 2 ensures !OccursAt(line, marker, k) {
      NotAt(line, marker, k);
    }
    FindIs(line, marker, 2);
  }

  lemma FirstWord(word: string, rest: string)
    requires IsWord(word) && rest != "" && IsWhitespace(rest[0])
    ensures FirstToken(word + rest) == Some(word)
  {
    assert (word + rest)[0] == word[0] && word[0] in word;
    TokenStops(word, rest);
  }

  lemma MarkerLine(marker: string, word: string, rest: string, line: string)
    requires marker == MARKER && IsWord(word) && rest != "" && IsWhitespace(rest[0])
    requires |line| >= 2 && line[0] == '-' && line[1] == ' ' && line[2..] == marker + (word + rest)
    ensures LinePhase(line) == FromSlug(word)
  {
    MarkerIsPlain(marker);
    FoundAfterTwo(line, marker, word + rest);
    FirstWord(word, rest);
  }

  lemma LastOfOne(line: string)
    ensures LastPhase([line]) == LinePhase(line)
  {
    assert LastSome([line][..0], LinePhase) == None;
    assert [line][..0] == [];
  }

  lemma OneEntryLine(entry: string, line: string)
    requires entry != "" && '\n' !in entry && Trim(entry) == entry && entry[|entry| - 1] != '\r'
    requires line == "- " + entry
    ensures Lines(EntryLine(entry)) == [line]
  {
    EndsAlike(entry, line);
    SingleLine(line, EntryLine(entry));
  }

  lemma EndsAlike(entry: string, line: string)
    requires line == "- " + entry && entry != "" && '\n' !in entry
    ensures '\n' !in line && line[|line| - 1] == entry[|entry| - 1]
  {
  }

  /** A trimmed entry without a newline is one line of the log. */
  lemma OneLinePhase(entry: string, line: string)
    requires entry != "" && '\n' !in entry && Trim(entry) == entry && entry[|entry| - 1] != '\r'
    requires line == "- " + entry
    ensures EntryPhase(entry) == LinePhase(line)
  {
    OneEntryLine(entry, line);
    LastOfOne(line);
  }

  predicate BeginsPlainly(marker: string) {
    marker != "" && !IsWhitespace(marker[0]) && '\n' !in marker
  }

  lemma MarkerIsPlain(marker: string)
    requires marker == MARKER
    ensures BeginsPlainly(marker) && marker[0] != '-'
  {
  }

  ghost predicate IsSuffix(rest: string) {
    rest != "" && IsWhitespace(rest[0]) && !IsWhitespace(rest[|rest| - 1]) && '\n' !in rest
  }

  lemma EntryIsTrim(marker: string, word: string, rest: string, entry: string)
    requires BeginsPlainly(marker) && IsWord(word) && IsSuffix(rest) && entry == marker + (word + rest)
    ensures Trim(entry) == entry && '\n' !in entry && entry != "" && entry[|entry| - 1] != '\r'
  {
    assert '\n' !in word;
    assert entry[0] == marker[0] && entry[|entry| - 1] == rest[|rest| - 1];
    TrimIsIdentity(entry);
  }

  /** An entry that is the marker, a word, and more after a blank. */
  lemma MarkedEntry(marker: string, word: string, rest: string, entry: string, line: string)
    requires marker == MARKER && IsWord(word) && IsSuffix(rest) && entry == marker + (word + rest)
    requires line == "- " + entry
    ensures EntryPhase(entry) == FromSlug(word)
  {
    MarkerIsPlain(marker);
    EntryIsTrim(marker, word, rest, entry);
    OneLinePhase(entry, line);
    DashedLine(entry, line);
    MarkerLine(marker, word, rest, line);
  }

  lemma DashedLine(entry: string, line: string)
    requires line == "- " + entry
    ensures |line| >= 2 && line[0] == '-' && line[1] == ' ' && line[2..] == entry
  {
  }

  /** The canonical transition entry is read back as the phase entered. */
  lemma EnteredEntryPhase(to: SpecPhase, from: SpecPhase)
    ensures EntryPhase(EnteredEntry(to, from)) == Some(to)
  {
    EnteredEntryShape(to, from, EnteredEntry(to, from), MARKER, to.Slug());
    SlugRoundTrip(to);
  }

  lemma EnteredEntryShape(to: SpecPhase, from: SpecPhase, entry: string, marker: string, word: string)
    requires marker == MARKER && word == to.Slug() && entry == EnteredEntry(to, from)
    ensures EntryPhase(entry) == FromSlug(word)
  {
    SlugIsWord(to);
    SlugIsWord(from);
    var rest := " (from " + from.Slug() + ")";
    FromSuffix(from.Slug(), rest);
    EntryParts(marker, word, " (from ", from.Slug(), ")");
    MarkedEntry(marker, word, rest, entry, "- " + entry);
  }

  lemma FromSuffix(from: string, rest: string)
    requires IsWord(from) && rest == " (from " + from + ")"
    ensures IsSuffix(rest)
  {
    assert '\n' !in from;
  }

  lemma EntryParts(a: string, b: string, c: string, d: string, e: string)
    ensures a + b + c + d + e == a + (b + (c + d + e))
  {
  }

  /** Between two characters that do not begin a marker and one that does not end it, a
      marker occurs only in what is in between. */
  lemma OccursInside(body: string, inner: string, marker: string)
    requires marker != "" && |body| == |inner| + 3 && body[2..2 + |inner|] == inner
    requires body[0] != marker[0] && body[1] != marker[0] && body[|body| - 1] != marker[|marker| - 1]
    requires Contains(body, marker)
    ensures Contains(inner, marker)
  {
    var i: nat :| OccursAt(body, marker, i);
    assert body[i..i + |marker|][0] == body[i] && body[i..i + |marker|][|marker| - 1] == body[i + |marker| - 1];
    assert 2 <= i && i + |marker| <= 2 + |inner|;
    forall k | 0 <= k < |marker| ensures inner[i - 2 + k] == marker[k] {
      assert body[i..i + |marker|][k] == body[2..2 + |inner|][i - 2 + k];
    }
    assert inner[i - 2..i - 2 + |marker|] == marker;
    assert OccursAt(inner, marker, i - 2);
  }

  /** An entry that nowhere contains the marker leaves the rebuilt phase alone. */
  lemma EntryWithoutMarker(entry: string)
    requires !Contains(entry, MARKER)
    ensures EntryPhase(entry) == None
  {
    NoMarkerInBody(entry, MARKER, EntryLine(entry));
    NoMarkerNoPhase(Lines(EntryLine(entry)));
  }

  lemma NoMarkerInBody(entry: string, marker: string, body: string)
    requires marker == MARKER && body == "- " + Trim(entry) + "\n" && !Contains(entry, marker)
    ensures forall k: nat :: k < |Lines(body)| ==> !Contains(Lines(body)[k], marker)
  {
    if Contains(body, marker) {
      OccursInside(body, Trim(entry), marker);
      TrimContained(entry);
      ContainsTransitive(entry, Trim(entry), marker);
    }
    forall k: nat | k < |Lines(body)| ensures !Contains(Lines(body)[k], marker) {
      LineIsContained(body, k);
      if Contains(Lines(body)[k], marker) {
        ContainsTransitive(body, Lines(body)[k], marker);
      }
    }
  }

  lemma {:induction false} NoMarkerNoPhase(lines: seq<string>)
    requires forall k: nat :: k < |lines| ==> !Contains(lines[k], MARKER)
    ensures LastPhase(lines) == None
  {
    if lines != [] {
      NoMarkerNoPhase(lines[..|lines| - 1]);
    }
  }

  // ---------- runs ----------

  /** What the engine keeps in memory and on disk. */
  datatype Record = Record(phase: SpecPhase, log: string)

  /** Everything that changes a run's phase or appends to its log. Appends ignore I/O
      errors, so each carries how much of its line reached the disk. */
  datatype Op =
    | SetPhase(to: SpecPhase, kept: nat)
    | Decide(entry: string, kept: nat)
    | Restart

  function Step(r: Record, op: Op): Record {
    match op
    case SetPhase(to, kept) =>
      Record(to, if to != r.phase then r.log + Part(EnteredEntry(to, r.phase), kept) else r.log)
    case Decide(entry, kept) => Record(r.phase, r.log + Part(entry, kept))
    case Restart => Record(Resume(r.log), r.log)
  }

  function Run(r: Record, ops: seq<Op>): Record
    decreases |ops|
  {
    if ops == [] then r else Run(Step(r, ops[0]), ops[1..])
  }

  /** `trail` shows each record a run goes through. */
  ghost predicate Trail(trail: seq<Record>, ops: seq<Op>) {
    Chain(trail, ops, Step)
  }

  ghost predicate Chain<S, O>(trail: seq<S>, ops: seq<O>, step: (S, O) -> S) {
    |trail| == |ops| + 1 && forall i: nat :: i < |ops| ==> Linked(trail, ops, step, i)
  }

  ghost predicate Linked<S, O>(trail: seq<S>, ops: seq<O>, step: (S, O) -> S, i: nat)
    requires |trail| == |ops| + 1 && i < |ops|
  {
    trail[i + 1] == step(trail[i], ops[i])
  }

  lemma ChainSnoc<S, O>(trail: seq<S>, ops: seq<O>, step: (S, O) -> S, op: O, next: S)
    requires Chain(trail, ops, step) && next == step(trail[|ops|], op)
    ensures Chain(trail + [next], ops + [op], step)
  {
    var longer, more := trail + [next], ops + [op];
    forall i: nat | i < |more| ensures Linked(longer, more, step, i) {
      assert longer[i] == trail[i];
      if i < |ops| {
        assert Linked(trail, ops, step, i);
        assert more[i] == ops[i] && longer[i + 1] == trail[i + 1];
      } else {
        assert more[i] == op && longer[i + 1] == next;
      }
    }
  }

  lemma TrailSnoc(trail: seq<Record>, ops: seq<Op>, op: Op, next: Record)
    requires Trail(trail, ops) && next == Step(trail[|ops|], op)
    ensures Trail(trail + [next], ops + [op])
  {
    ChainSnoc(trail, ops, Step, op, next);
  }

  lemma {:induction false} TrailIsRun(trail: seq<Record>, ops: seq<Op>)
    requires Trail(trail, ops)
    ensures Run(trail[0], ops) == trail[|ops|]
    decreases |ops|
  {
    if ops != [] {
      assert Linked(trail, ops, Step, 0);
      forall i: nat | i < |ops[1..]| ensures Linked(trail[1..], ops[1..], Step, i) {
        assert Linked(trail, ops, Step, i + 1);
      }
      TrailIsRun(trail[1..], ops[1..]);
    }
  }

  /** A restart would find the phase that is in memory, and the log ends in a whole line. */
  predicate Agrees(r: Record) {
    Terminated(r.log) && Resume(r.log) == r.phase
  }

  /** The line of a transition lands; what is written of any other entry is whole lines and
      records no other phase. */
  predicate Faithful(r: Record, op: Op) {
    match op
    case SetPhase(to, kept) => to == r.phase || Lands(EnteredEntry(to, r.phase), kept)
    case Decide(entry, kept) => Harmless(Part(entry, kept), r.phase)
    case Restart => true
  }

  predicate Harmless(part: string, phase: SpecPhase) {
    Terminated(part) && (Rebuild(part).Some? ==> Rebuild(part) == Some(phase))
  }

  predicate FaithfulRun(r: Record, ops: seq<Op>)
    decreases |ops|
  {
    ops == [] || (Faithful(r, ops[0]) && FaithfulRun(Step(r, ops[0]), ops[1..]))
  }

  /** Whatever text is appended: agreement with `phase` afterwards. */
  lemma TextAgreesIff(log: string, text: string, phase: SpecPhase)
    requires Terminated(log)
    ensures Agrees(Record(phase, log + text))
      <==> Terminated(text) && (if Rebuild(text).Some? then Rebuild(text) == Some(phase) else Resume(log) == phase)
  {
    RebuildAfterText(log, text);
    assert Terminated(log + text) <==> Terminated(text) by {
      if text == "" {
        assert log + text == log;
      } else {
        assert (log + text)[|log + text| - 1] == text[|text| - 1];
      }
    }
  }

  lemma StepAgreesIff(r: Record, op: Op)
    requires Agrees(r)
    ensures Agrees(Step(r, op)) <==> Faithful(r, op)
  {
    match op
    case SetPhase(to, kept) =>
      if to != r.phase {
        var entry := EnteredEntry(to, r.phase);
        TextAgreesIff(r.log, Part(entry, kept), to);
        EnteredEntryPhase(to, r.phase);
        EnteredIsTrim(to, r.phase, entry, MARKER);
        CutShort(entry, EntryLine(entry), kept);
      }
    case Decide(entry, kept) => TextAgreesIff(r.log, Part(entry, kept), r.phase);
    case Restart =>
  }

  /** A one-line entry cut short is nothing, or a line without its end. */
  lemma CutShort(entry: string, line: string, kept: nat)
    requires line == "- " + entry + "\n" && '\n' !in entry
    ensures kept < |line| && kept > 0 ==> !Terminated(line[..kept])
    ensures Lines("") == []
  {
    if 0 < kept < |line| {
      assert line[..kept][kept - 1] == line[kept - 1];
      assert kept > 2 ==> line[kept - 1] == entry[kept - 3];
    }
  }

  /** The log and memory agree after any faithful run. */
  lemma {:induction false} RunAgrees(r: Record, ops: seq<Op>)
    requires Agrees(r) && FaithfulRun(r, ops)
    ensures Agrees(Run(r, ops))
    decreases |ops|
  {
    if ops != [] {
      var next := Step(r, ops[0]);
      StepAgreesIff(r, ops[0]);
      RunAgrees(next, ops[1..]);
    }
  }

  /** No write is torn, those of transitions land, and other entries avoid the marker. */
  predicate Durable(op: Op) {
    match op
    case SetPhase(to, kept) => forall from :: Lands(EnteredEntry(to, from), kept)
    case Decide(entry, kept) => (kept == 0 || Lands(entry, kept)) && Find(entry, MARKER).None?
    case Restart => true
  }

  /** Started in agreement, a durable run ends in agreement. */
  lemma DurableRunAgrees(r: Record, ops: seq<Op>)
    requires Agrees(r) && forall op :: op in ops ==> Durable(op)
    ensures Agrees(Run(r, ops))
  {
    DurableIsFaithful(r, ops);
    RunAgrees(r, ops);
  }

  /** A run registered on a complete log, driven durably and registered again, is in the
      same phase as before. */
  lemma DurableRunResumes(log: string, ops: seq<Op>)
    requires Terminated(log)
    requires forall op :: op in ops ==> Durable(op)
    ensures var last := Run(Record(Resume(log), log), ops); Step(last, Restart) == last
  {
    DurableRunAgrees(Record(Resume(log), log), ops);
  }

  lemma {:induction false} DurableIsFaithful(r: Record, ops: seq<Op>)
    requires forall op :: op in ops ==> Durable(op)
    ensures FaithfulRun(r, ops)
    decreases |ops|
  {
    if ops != [] {
      assert ops[0] in ops;
      DurableStepIsFaithful(r, ops[0]);
      DurableIsFaithful(Step(r, ops[0]), ops[1..]);
    }
  }

  lemma DurableStepIsFaithful(r: Record, op: Op)
    requires Durable(op)
    ensures Faithful(r, op)
  {
    if op.Decide? {
      EntryWithoutMarker(op.entry);
      assert Lines("") == [];
    }
  }

  // ---------- a summary that holds the marker ----------

  /** A marker right after a head that has its only colon before its last character. */
  lemma FoundAfterHead(head: string, marker: string, tail: string)
    requires |head| >= 2 && ':' !in head[..|head| - 2]
    requires |marker| >= 9 && marker[5] == ':' && marker[0] !in marker[1..]
    ensures Find(head + marker + tail, marker) == Some(|head|)
    ensures (head + marker + tail)[|head| + |marker|..] == tail
  {
    var text := head + marker + tail;
    assert text[|head|..|head| + |marker|] == marker;
    forall k: nat | k < |head| ensures !OccursAt(text, marker, k) {
      if k + |marker| <= |head| {
        assert head[..|head| - 2][k + 5] == head[k + 5] == text[k..k + |marker|][5];
      } else if k + |marker| <= |text| {
        assert text[k..k + |marker|][|head| - k] == text[|head|] == marker[0];
        assert marker[|head| - k] == marker[1..][|head| - k - 1];
      }
    }
    FindIs(text, marker, |head|);
  }

  lemma MarkerHasColon(marker: string)
    requires marker == MARKER
    ensures |marker| >= 9 && marker[5] == ':' && marker[0] !in marker[1..] && BeginsPlainly(marker)
  {
  }

  lemma WordAlone(word: string)
    requires IsWord(word)
    ensures FirstToken(word) == Some(word)
  {
    assert word[0] in word;
    assert word + "" == word;
    TokenStops(word, "");
  }

  /** A plain head, the marker and a slug make an entry that is read as that slug's phase. */
  lemma HeadedMarker(head: string, dashed: string, marker: string, word: string, entry: string, line: string)
    requires marker == MARKER && IsWord(word) && entry == head + marker + word && line == dashed + marker + word
    requires EntryPhase(entry) == LinePhase(line)
    requires |dashed| >= 2 && ':' !in dashed[..|dashed| - 2]
    ensures EntryPhase(entry) == FromSlug(word)
  {
    HeadedLinePhase(dashed, marker, word, line);
  }

  lemma HeadedEntry(head: string, dashed: string, marker: string, word: string, entry: string, line: string)
    requires BeginsPlainly(marker) && IsWord(word) && entry == head + marker + word
    requires head != "" && !IsWhitespace(head[0]) && '\n' !in head
    requires dashed == "- " + head && line == dashed + marker + word
    ensures EntryPhase(entry) == LinePhase(line)
  {
    HeadedTrim(head, marker, word, entry);
    DashFirst(head, marker, word);
    OneLinePhase(entry, line);
  }

  lemma DashFirst(head: string, marker: string, word: string)
    ensures "- " + head + marker + word == "- " + (head + marker + word)
  {
  }

  lemma HeadedTrim(head: string, marker: string, word: string, entry: string)
    requires BeginsPlainly(marker) && IsWord(word) && entry == head + marker + word
    requires head != "" && !IsWhitespace(head[0]) && '\n' !in head
    ensures Trim(entry) == entry && '\n' !in entry && entry != "" && entry[|entry| - 1] != '\r'
  {
    assert '\n' !in word && word[|word| - 1] in word;
    assert entry[0] == head[0] && entry[|entry| - 1] == word[|word| - 1];
    TrimIsIdentity(entry);
  }

  lemma HeadedLinePhase(dashed: string, marker: string, word: string, line: string)
    requires marker == MARKER && IsWord(word) && line == dashed + marker + word
    requires |dashed| >= 2 && ':' !in dashed[..|dashed| - 2]
    ensures LinePhase(line) == FromSlug(word)
  {
    MarkerHasColon(marker);
    FoundAfterHead(dashed, marker, word);
    WordAlone(word);
  }

  /** So a gate entry whose summary is the marker and a slug is read as that phase, at
      whatever phase and with whatever outcome it was written. */
  lemma GateSummaryIsRead(p: SpecPhase, outcome: string, q: SpecPhase)
    requires ':' !in outcome && '\n' !in outcome
    ensures EntryPhase(GateEntry(p, outcome, MARKER + q.Slug())) == Some(q)
  {
    SlugIsWord(p);
    SlugIsWord(q);
    SlugRoundTrip(q);
    var head := p.Slug() + " gate " + outcome + ": ";
    GateHead(p.Slug(), outcome, head);
    GateEntryParts(p.Slug() + " gate " + outcome, MARKER, q.Slug());
    GateMarker(head, MARKER, q.Slug(), GateEntry(p, outcome, MARKER + q.Slug()));
  }

  lemma GateMarker(head: string, marker: string, word: string, entry: string)
    requires marker == MARKER && IsWord(word) && entry == head + marker + word
    requires |head| >= 2 && !IsWhitespace(head[0]) && '\n' !in head && ':' !in head[..|head| - 2]
    ensures EntryPhase(entry) == FromSlug(word)
  {
    var dashed := "- " + head;
    MarkerIsPlain(marker);
    HeadedEntry(head, dashed, marker, word, entry, dashed + marker + word);
    DashedHead(head, dashed);
    HeadedMarker(head, dashed, marker, word, entry, dashed + marker + word);
  }

  lemma DashedHead(head: string, dashed: string)
    requires dashed == "- " + head && |head| >= 2 && ':' !in head[..|head| - 2]
    ensures |dashed| >= 2 && ':' !in dashed[..|dashed| - 2]
  {
    assert dashed[..|dashed| - 2] == "- " + head[..|head| - 2];
  }

  lemma GateHead(slug: string, outcome: string, head: string)
    requires IsWord(slug) && ':' !in slug && ':' !in outcome && '\n' !in outcome
    requires head == slug + " gate " + outcome + ": "
    ensures |head| >= 2 && !IsWhitespace(head[0]) && '\n' !in head && ':' !in head[..|head| - 2]
  {
    assert head[..|head| - 2] == slug + " gate " + outcome;
    assert head[0] == slug[0] && slug[0] in slug;
    assert '\n' !in slug;
  }

  lemma GateEntryParts(a: string, marker: string, word: string)
    ensures a + ": " + (marker + word) == a + ": " + marker + word
  {
  }

  /** Written while the run is in another phase, such an entry makes a restart resume there. */
  lemma GateSummaryRewritesPhase(r: Record, p: SpecPhase, outcome: string, q: SpecPhase, kept: nat)
    requires Agrees(r) && q != r.phase && ':' !in outcome && '\n' !in outcome
    requires Lands(GateEntry(p, outcome, MARKER + q.Slug()), kept)
    ensures !Agrees(Step(r, Decide(GateEntry(p, outcome, MARKER + q.Slug()), kept)))
  {
    GateSummaryIsRead(p, outcome, q);
    StepAgreesIff(r, Decide(GateEntry(p, outcome, MARKER + q.Slug()), kept));
  }

  // ---------- a transition after a torn line ----------

  /** The phase named first in an unfinished text, if its token has ended. */
  function ClosedTail(text: string): Option<SpecPhase> {
    var tail := TrimStart(text);
    if |TakeToken(tail)| < |tail| then FromSlug(TakeToken(tail)) else None
  }

  /** The phase of an unfinished line that its next characters can no longer change. */
  function ClosedPhase(fragment: string): Option<SpecPhase> {
    match Find(fragment, MARKER)
    case None => None
    case Some(i) => ClosedTail(fragment[i + |MARKER|..])
  }

  /** Behind a fragment without the marker, the dash keeps one from straddling the joint. */
  lemma FoundAfterDash(fragment: string, marker: string, tail: string)
    requires marker != "" && '-' !in marker && marker[0] != ' ' && !Contains(fragment, marker)
    ensures Find(fragment + ("- " + (marker + tail)), marker) == Some(|fragment| + 2)
    ensures (fragment + ("- " + (marker + tail)))[|fragment| + 2 + |marker|..] == tail
  {
    var text := fragment + ("- " + (marker + tail));
    assert text[|fragment| + 2..|fragment| + 2 + |marker|] == marker;
    forall k: nat | k < |fragment| + 2 ensures !OccursAt(text, marker, k) {
      NotAcrossDash(fragment, marker, "- " + (marker + tail), k);
    }
    FindIs(text, marker, |fragment| + 2);
  }

  lemma NotAcrossDash(fragment: string, marker: string, rest: string, k: nat)
    requires marker != "" && '-' !in marker && marker[0] != ' ' && |rest| >= 2 && rest[0] == '-' && rest[1] == ' '
    requires k < |fragment| + 2 && (k + |marker| <= |fragment| ==> !OccursAt(fragment, marker, k))
    ensures !OccursAt(fragment + rest, marker, k)
  {
    var text := fragment + rest;
    if k + |marker| <= |fragment| {
      assert text[k..k + |marker|] == fragment[k..k + |marker|];
    } else if k <= |fragment| && k + |marker| <= |text| {
      assert text[k..k + |marker|][|fragment| - k] == text[|fragment|] == '-';
      assert marker[|fragment| - k] in marker;
    } else if k + |marker| <= |text| {
      assert text[k..k + |marker|][0] == text[k] == ' ';
    }
  }

  /** A marker already in the fragment stays the first one. */
  lemma FirstStays(fragment: string, marker: string, rest: string, i: nat)
    requires marker != "" && '-' !in marker && marker[0] != ' ' && |rest| >= 2 && rest[0] == '-' && rest[1] == ' '
    requires Find(fragment, marker) == Some(i)
    ensures Find(fragment + rest, marker) == Some(i)
    ensures (fragment + rest)[i + |marker|..] == fragment[i + |marker|..] + rest
  {
    var text := fragment + rest;
    assert text[i..i + |marker|] == fragment[i..i + |marker|];
    assert text[i + |marker|..] == fragment[i + |marker|..] + rest;
    forall k: nat | k < i ensures !OccursAt(text, marker, k) {
      NotAcrossDash(fragment, marker, rest, k);
    }
    FindIs(text, marker, i);
  }

  lemma {:induction false} TrimStartThen(s: string, rest: string)
    requires rest != "" && !IsWhitespace(rest[0])
    ensures TrimStart(s + rest) == TrimStart(s) + rest
  {
    if s == "" {
      assert s + rest == rest;
    } else {
      assert (s + rest)[1..] == s[1..] + rest;
      if IsWhitespace(s[0]) {
        TrimStartThen(s[1..], rest);
      }
    }
  }

  lemma {:induction false} TokenIsPrefix(s: string)
    ensures TakeToken(s) <= s
  {
    if s != "" && !IsWhitespace(s[0]) {
      TokenIsPrefix(s[1..]);
      HeadTail(s);
    }
  }

  lemma {:induction false} TokenThen(s: string, rest: string, sum: string)
    requires sum == s + rest
    ensures TakeToken(s) <= s
    ensures TakeToken(sum) == if |TakeToken(s)| < |s| then TakeToken(s) else s + TakeToken(rest)
    decreases |s|
  {
    TokenIsPrefix(s);
    if s == "" {
      assert sum == rest;
    } else if !IsWhitespace(s[0]) {
      SumTail(s, rest, sum);
      TokenThen(s[1..], rest, sum[1..]);
      TokenHead(s, rest);
    } else {
      SumTail(s, rest, sum);
    }
  }

  lemma TokenHead(s: string, rest: string)
    requires s != ""
    ensures [s[0]] + (s[1..] + TakeToken(rest)) == s + TakeToken(rest)
  {
    HeadTail(s);
  }

  lemma DashToken(rest: string)
    requires |rest| >= 2 && rest[0] == '-' && rest[1] == ' '
    ensures TakeToken(rest) == "-" && !IsWhitespace(rest[0])
  {
    assert TakeToken(rest[1..]) == "";
  }

  lemma DashedIsNoSlug(s: string)
    ensures FromSlug(s + "-") == None
  {
    assert (s + "-")[|s|] == '-';
  }

  /** What a fragment with the marker records once more text follows. */
  lemma FragmentPhase(fragment: string, rest: string, i: nat, marker: string)
    requires marker == MARKER && Find(fragment, marker) == Some(i)
    requires |rest| >= 2 && rest[0] == '-' && rest[1] == ' '
    ensures LinePhase(fragment + rest) == ClosedPhase(fragment)
  {
    MarkerHasNoDash(marker);
    var tail := fragment[i + |marker|..];
    FirstStays(fragment, marker, rest, i);
    TailAfter(tail, rest);
    LineTail(fragment + rest, marker, i, tail + rest);
    ClosedIs(fragment, marker, i, tail);
  }

  lemma ClosedIs(fragment: string, marker: string, i: nat, tail: string)
    requires marker == MARKER && Find(fragment, marker) == Some(i) && fragment[i + |marker|..] == tail
    ensures ClosedPhase(fragment) == ClosedTail(tail)
  {
    assert Find(fragment, MARKER) == Some(i);
    assert fragment[i + |MARKER|..] == tail;
  }

  lemma LineTail(line: string, marker: string, i: nat, tail: string)
    requires marker == MARKER && Find(line, marker) == Some(i) && line[i + |marker|..] == tail
    ensures LinePhase(line) == TailPhase(tail)
  {
    assert Find(line, MARKER) == Some(i);
    assert line[i + |MARKER|..] == tail;
  }

  lemma TailAfter(text: string, rest: string)
    requires |rest| >= 2 && rest[0] == '-' && rest[1] == ' '
    ensures TailPhase(text + rest) == ClosedTail(text)
  {
    TokenAfter(text, rest);
  }

  /** The first token of a text that a dash follows: itself if it had ended, else no slug. */
  lemma TokenAfter(text: string, rest: string)
    requires |rest| >= 2 && rest[0] == '-' && rest[1] == ' '
    ensures var tail := TrimStart(text);
      FirstToken(text + rest) == Some(if |TakeToken(tail)| < |tail| then TakeToken(tail) else tail + "-")
    ensures FromSlug(TrimStart(text) + "-") == None
  {
    DashToken(rest);
    TrimStartThen(text, rest);
    TokenThen(TrimStart(text), rest, TrimStart(text) + rest);
    DashedIsNoSlug(TrimStart(text));
  }

  lemma MarkerHasNoDash(marker: string)
    requires marker == MARKER
    ensures '-' !in marker && marker != "" && marker[0] != ' '
  {
  }

  /** The line that a marked entry makes together with the fragment it is appended to. */
  lemma FragmentLine(fragment: string, word: string, rest: string, entry: string, marker: string)
    requires marker == MARKER && IsWord(word) && IsSuffix(rest) && entry == marker + (word + rest)
    ensures LinePhase(fragment + ("- " + entry))
      == if Find(fragment, marker).None? then FromSlug(word) else ClosedPhase(fragment)
  {
    MarkerHasNoDash(marker);
    if Find(fragment, marker).None? {
      FoundAfterDash(fragment, marker, word + rest);
      FirstWord(word, rest);
      LineTail(fragment + ("- " + entry), marker, |fragment| + 2, word + rest);
    } else {
      FragmentPhase(fragment, "- " + entry, Find(fragment, marker).value, marker);
    }
  }

  lemma EnteredParts(to: SpecPhase, from: SpecPhase, entry: string, marker: string, rest: string)
    requires marker == MARKER && entry == EnteredEntry(to, from) && rest == " (from " + from.Slug() + ")"
    ensures IsWord(to.Slug()) && IsSuffix(rest) && entry == marker + (to.Slug() + rest)
  {
    SlugIsWord(to);
    SlugIsWord(from);
    FromSuffix(from.Slug(), rest);
    EntryParts(marker, to.Slug(), " (from ", from.Slug(), ")");
  }

  /** What a reader finds when an entry that records `own` follows an unfinished line. */
  function AfterFragment(complete: string, fragment: string, own: Option<SpecPhase>): Option<SpecPhase> {
    var phase := if Find(fragment, MARKER).None? then own else ClosedPhase(fragment);
    if phase.Some? then phase else Rebuild(complete)
  }

  lemma WordAfterFragment(complete: string, fragment: string, word: string, rest: string, entry: string, marker: string)
    requires Terminated(complete) && '\n' !in fragment
    requires marker == MARKER && IsWord(word) && IsSuffix(rest) && entry == marker + (word + rest)
    ensures Rebuild(AppendEntry(complete + fragment, entry)) == AfterFragment(complete, fragment, FromSlug(word))
  {
    var line := fragment + ("- " + entry);
    MarkedAfterFragment(complete, fragment, word, rest, entry, marker, line);
    FragmentLine(fragment, word, rest, entry, marker);
    FoundOrKept(complete, fragment, FromSlug(word), LinePhase(line), Rebuild(AppendEntry(complete + fragment, entry)));
  }

  lemma MarkedAfterFragment(complete: string, fragment: string, word: string, rest: string, entry: string,
                            marker: string, line: string)
    requires Terminated(complete) && '\n' !in fragment && line == fragment + ("- " + entry)
    requires BeginsPlainly(marker) && IsWord(word) && IsSuffix(rest) && entry == marker + (word + rest)
    ensures Rebuild(AppendEntry(complete + fragment, entry))
      == if LinePhase(line).Some? then LinePhase(line) else Rebuild(complete)
  {
    EntryIsTrim(marker, word, rest, entry);
    FragmentRebuild(complete, fragment, entry, line);
  }

  lemma FoundOrKept(complete: string, fragment: string, own: Option<SpecPhase>, line: Option<SpecPhase>,
                    rebuilt: Option<SpecPhase>)
    requires line == if Find(fragment, MARKER).None? then own else ClosedPhase(fragment)
    requires rebuilt == if line.Some? then line else Rebuild(complete)
    ensures rebuilt == AfterFragment(complete, fragment, own)
  {
  }

  /** After any unfinished last line, a transition is read back by itself when the line has
      no marker; otherwise the reader finds the phase that line had already closed, or what
      the complete lines before it record. */
  lemma TransitionAfterFragment(complete: string, fragment: string, to: SpecPhase, from: SpecPhase)
    requires Terminated(complete) && '\n' !in fragment
    ensures Rebuild(AppendEntry(complete + fragment, EnteredEntry(to, from))) == AfterFragment(complete, fragment, Some(to))
  {
    var entry, rest := EnteredEntry(to, from), " (from " + from.Slug() + ")";
    EnteredParts(to, from, entry, MARKER, rest);
    WordAfterFragment(complete, fragment, to.Slug(), rest, entry, MARKER);
    SlugRoundTrip(to);
  }

  lemma EnteredIsTrim(to: SpecPhase, from: SpecPhase, entry: string, marker: string)
    requires marker == MARKER && entry == EnteredEntry(to, from)
    ensures Trim(entry) == entry && '\n' !in entry && entry != "" && entry[|entry| - 1] != '\r'
  {
    var rest := " (from " + from.Slug() + ")";
    EnteredParts(to, from, entry, marker, rest);
    MarkerIsPlain(marker);
    EntryIsTrim(marker, to.Slug(), rest, entry);
  }

  lemma FragmentRebuild(complete: string, fragment: string, entry: string, line: string)
    requires Terminated(complete) && '\n' !in fragment && line == fragment + ("- " + entry)
    requires Trim(entry) == entry && '\n' !in entry && entry != "" && entry[|entry| - 1] != '\r'
    ensures Rebuild(AppendEntry(complete + fragment, entry))
      == if LinePhase(line).Some? then LinePhase(line) else Rebuild(complete)
  {
    FragmentIsOneLine(complete, fragment, entry, line);
    RebuildAfterText(complete, line + "\n");
    LastOfOne(line);
  }

  lemma FragmentIsOneLine(complete: string, fragment: string, entry: string, line: string)
    requires '\n' !in fragment && Trim(entry) == entry && '\n' !in entry && entry != "" && entry[|entry| - 1] != '\r'
    requires line == fragment + ("- " + entry)
    ensures AppendEntry(complete + fragment, entry) == complete + (line + "\n")
    ensures Lines(line + "\n") == [line]
  {
    assert line[|line| - 1] == entry[|entry| - 1];
    SingleLine(line, line + "\n");
    Regroup(complete, fragment, "- " + entry + "\n");
    Regroup(fragment, "- " + entry, "\n");
  }

  /** It is read back exactly in these cases. */
  lemma TransitionIsReadIff(complete: string, fragment: string, to: SpecPhase, from: SpecPhase)
    requires Terminated(complete) && '\n' !in fragment
    ensures Rebuild(AppendEntry(complete + fragment, EnteredEntry(to, from))) == Some(to) <==>
      || Find(fragment, MARKER).None?
      || ClosedPhase(fragment) == Some(to)
      || (ClosedPhase(fragment).None? && Rebuild(complete) == Some(to))
  {
    TransitionAfterFragment(complete, fragment, to, from);
  }

  /** A transition torn right after its slug swallows the next one. */
  lemma TornTransitionSwallowsNext(complete: string, prior: SpecPhase, to: SpecPhase)
    requires Terminated(complete)
    ensures Rebuild(AppendEntry(complete + ("- " + MARKER + prior.Slug()), EnteredEntry(to, prior)))
         == Rebuild(complete)
  {
    SlugIsWord(prior);
    TornAfterWord(prior.Slug(), "- " + MARKER + prior.Slug(), MARKER);
    TransitionAfterFragment(complete, "- " + MARKER + prior.Slug(), to, prior);
  }

  lemma TornAfterWord(word: string, fragment: string, marker: string)
    requires marker == MARKER && IsWord(word) && fragment == "- " + marker + word
    ensures '\n' !in fragment && Find(fragment, marker).Some? && ClosedPhase(fragment).None?
  {
    MarkerIsPlain(marker);
    assert '\n' !in word;
    assert fragment[2..] == marker + word;
    FoundAfterTwo(fragment, marker, word);
    WordAlone(word);
    assert word[0] in word;
  }

  // ---------- a restart right after a torn transition ----------

  lemma FromSlugIs(word: string, p: SpecPhase)
    requires FromSlug(word) == Some(p)
    ensures word == p.Slug()
  {
  }

  /** A text cut off within its first word, or later. */
  lemma TornToken(word: string, rest: string, m: nat, tail: string)
    requires IsWord(word) && rest != "" && IsWhitespace(rest[0]) && m <= |word + rest| && tail == (word + rest)[..m]
    ensures FirstToken(tail) == if m == 0 then None else if m < |word| then Some(word[..m]) else Some(word)
  {
    if m > 0 {
      assert tail[0] == word[0] && word[0] in word;
      if m <= |word| {
        assert tail == word[..m] && word[..m] + "" == word[..m];
        assert forall c :: c in word[..m] ==> c in word;
        TokenStops(word[..m], "");
      } else {
        assert tail == word + rest[..m - |word|] && rest[..m - |word|][0] == rest[0];
        TokenStops(word, rest[..m - |word|]);
      }
    }
  }

  lemma PrefixOccurs(text: string, n: nat, pat: string, i: nat)
    requires n <= |text| && OccursAt(text[..n], pat, i)
    ensures OccursAt(text, pat, i)
  {
    assert text[i..i + |pat|] == text[..n][i..i + |pat|];
  }

  lemma TornBeforeTail(line: string, marker: string, tail: string, kept: nat)
    requires |line| >= 2 && marker != "" && line[0] != marker[0] && line[1] != marker[0]
    requires line[2..] == marker + tail && kept < 2 + |marker|
    ensures !Contains(line[..kept], marker)
  {
    FoundAfterTwo(line, marker, tail);
    if i: nat :| OccursAt(line[..kept], marker, i) { PrefixOccurs(line, kept, marker, i); }
  }

  /** The phase a torn line records. */
  lemma TornLinePhase(line: string, marker: string, word: string, rest: string, kept: nat)
    requires marker == MARKER && IsWord(word) && rest != "" && IsWhitespace(rest[0])
    requires |line| >= 2 && line[0] == '-' && line[1] == ' ' && line[2..] == marker + (word + rest) && kept <= |line|
    ensures LinePhase(line[..kept]) ==
      if kept <= 2 + |marker| then None
      else if kept < 2 + |marker| + |word| then FromSlug(word[..kept - 2 - |marker|])
      else FromSlug(word)
  {
    MarkerIsPlain(marker);
    if kept < 2 + |marker| {
      TornBeforeTail(line, marker, word + rest, kept);
    } else {
      var m := kept - 2 - |marker|;
      var tail := (word + rest)[..m];
      TornInTail(line, marker, word + rest, kept, tail);
      TornToken(word, rest, m, tail);
      LineTail(line[..kept], marker, 2, tail);
    }
  }

  lemma TornInTail(line: string, marker: string, whole: string, kept: nat, tail: string)
    requires |line| >= 2 && marker != "" && line[0] != marker[0] && line[1] != marker[0]
    requires line[2..] == marker + whole && 2 + |marker| <= kept <= |line| && tail == whole[..kept - 2 - |marker|]
    ensures Find(line[..kept], marker) == Some(2) && line[..kept][2 + |marker|..] == tail
  {
    var torn := line[..kept];
    assert torn[2..] == line[2..][..kept - 2] == marker + tail;
    FoundAfterTwo(torn, marker, tail);
  }

  lemma PartIs(entry: string, full: string, kept: nat)
    requires full == EntryLine(entry)
    ensures Part(entry, kept) == if kept < |full| then full[..kept] else full
  {
  }

  lemma EntryLineIs(entry: string, line: string)
    requires Trim(entry) == entry && line == "- " + entry
    ensures EntryLine(entry) == line + "\n"
  {
  }

  lemma TornPart(entry: string, line: string, full: string, kept: nat)
    requires full == EntryLine(entry) && full == line + "\n"
    ensures Part(entry, kept) == if kept <= |line| then line[..kept] else full
  {
    PartIs(entry, full, kept);
    if kept <= |line| { CutOf(line, full, kept); }
  }

  lemma CutOf(line: string, full: string, kept: nat)
    requires full == line + "\n" && kept <= |line|
    ensures full[..kept] == line[..kept]
  {
  }

  lemma UnfinishedLine(line: string)
    requires '\n' !in line
    ensures Rebuild(line) == LinePhase(line)
  {
    if line != "" {
      assert Lines(line) == [line];
      LastOfOne(line);
    }
  }

  /** A restart right after a transition, torn or not, resumes in the phase entered exactly
      when the write got as far as the end of its slug. */
  lemma TornResumeIff(r: Record, to: SpecPhase, kept: nat)
    requires Agrees(r) && to != r.phase
    ensures Resume(Step(r, SetPhase(to, kept)).log) == to <==> kept >= 2 + |MARKER| + |to.Slug()|
  {
    var entry := EnteredEntry(to, r.phase);
    RebuildAfterText(r.log, Part(entry, kept));
    TransitionPart(to, r.phase, entry, MARKER, kept, Part(entry, kept));
  }

  lemma EnteredRest(to: SpecPhase, from: SpecPhase, entry: string, marker: string) returns (rest: string)
    requires marker == MARKER && entry == EnteredEntry(to, from)
    ensures IsWord(to.Slug()) && IsSuffix(rest) && entry == marker + (to.Slug() + rest)
  {
    rest := " (from " + from.Slug() + ")";
    EnteredParts(to, from, entry, marker, rest);
  }

  lemma EnteredEnd(to: SpecPhase, from: SpecPhase, entry: string, line: string, full: string)
    requires entry == EnteredEntry(to, from) && line == "- " + entry && full == EntryLine(entry)
    ensures full == line + "\n"
  {
    EnteredIsTrim(to, from, entry, MARKER);
    EntryLineIs(entry, line);
  }

  /** What a torn or a whole write of a transition puts on disk. */
  lemma EnteredPart(to: SpecPhase, from: SpecPhase, entry: string, line: string, full: string, kept: nat)
    requires entry == EnteredEntry(to, from) && line == "- " + entry && full == EntryLine(entry)
    ensures Part(entry, kept) == if kept <= |line| then line[..kept] else full
  {
    EnteredEnd(to, from, entry, line, full);
    TornPart(entry, line, full, kept);
  }

  lemma EnteredIsLine(to: SpecPhase, from: SpecPhase, entry: string)
    requires entry == EnteredEntry(to, from)
    ensures '\n' !in entry && EntryPhase(entry) == Some(to)
  {
    EnteredIsTrim(to, from, entry, MARKER);
    EnteredEntryPhase(to, from);
  }

  lemma TransitionPart(to: SpecPhase, from: SpecPhase, entry: string, marker: string, kept: nat, part: string)
    requires marker == MARKER && entry == EnteredEntry(to, from) && part == Part(entry, kept)
    ensures Rebuild(part) == Some(to) <==> kept >= 2 + |marker| + |to.Slug()|
  {
    var rest := EnteredRest(to, from, entry, marker);
    EnteredIsLine(to, from, entry);
    EnteredPart(to, from, entry, "- " + entry, EntryLine(entry), kept);
    WholeOrTorn(to, entry, marker, to.Slug(), rest, "- " + entry, kept, part);
  }

  lemma WholeOrTorn(to: SpecPhase, entry: string, marker: string, word: string, rest: string, line: string, kept: nat,
                    part: string)
    requires marker == MARKER && word == to.Slug() && IsWord(word) && IsSuffix(rest) && entry == marker + (word + rest)
    requires line == "- " + entry && '\n' !in entry && EntryPhase(entry) == Some(to)
    requires part == if kept <= |line| then line[..kept] else EntryLine(entry)
    ensures Rebuild(part) == Some(to) <==> kept >= 2 + |marker| + |word|
  {
    if kept <= |line| {
      EndsAlike(entry, line);
      UnfinishedLine(part);
      TornTransition(to, entry, marker, word, rest, line, kept);
    } else {
      assert |line| == 2 + |marker| + |word| + |rest|;
    }
  }

  lemma TornTransition(to: SpecPhase, entry: string, marker: string, word: string, rest: string, line: string, kept: nat)
    requires marker == MARKER && word == to.Slug() && IsWord(word) && IsSuffix(rest) && entry == marker + (word + rest)
    requires line == "- " + entry && kept <= |line|
    ensures LinePhase(line[..kept]) == Some(to) <==> kept >= 2 + |marker| + |word|
  {
    SlugRoundTrip(to);
    DashedLine(entry, line);
    TornLinePhase(line, marker, word, rest, kept);
    if 2 + |marker| < kept < 2 + |marker| + |word| && LinePhase(line[..kept]) == Some(to) {
      FromSlugIs(word[..kept - 2 - |marker|], to);
    }
  }
}
