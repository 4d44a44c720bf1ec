/** The feature backlog: its states, its in-place updates, and its derivation from a spec
    (crates/agentum-server/src/harness.rs). */
module Backlog {
  import opened Basics
  import opened Text
  import opened Decimal

  datatype FeatureState = Pending | Coding | Verifying | ReadyToTest | AwaitingConfirm | Done | Blocked

  datatype Feature = Feature(id: string, name: string, state: FeatureState, attempts: u32)

  /** Started and not settled: `next_pending_feature` passes over these. */
  predicate InFlight(f: Feature) {
    f.state in {Coding, Verifying, ReadyToTest, AwaitingConfirm}
  }

  /** Loading a backlog rejects duplicate ids. */
  ghost predicate DistinctIds(fs: seq<Feature>) {
    forall i, j :: 0 <= i < j < |fs| ==> fs[i].id != fs[j].id
  }

  function IndexOfId(fs: seq<Feature>, id: string): (r: Option<nat>)
    ensures r.Some? ==> r.value < |fs| && fs[r.value].id == id
    ensures r.None? ==> forall i :: 0 <= i < |fs| ==> fs[i].id != id
  {
    FirstWhere(fs, (f: Feature) => f.id == id)
  }

  /** One more failure of the feature: `Blocked` once the count reaches the limit. */
  function AfterFailure(f: Feature, maxRetries: u32): Feature {
    var n := WrappingSucc(f.attempts);
    f.(attempts := n, state := if n >= maxRetries then Blocked else Coding)
  }

  function Reset(f: Feature): Feature {
    if f.state == Blocked then f.(state := Pending, attempts := 0) else f
  }

  function ResetAll(fs: seq<Feature>): seq<Feature> {
    seq(|fs|, i requires 0 <= i < |fs| => Reset(fs[i]))
  }

  function FirstPending(fs: seq<Feature>): (r: Option<nat>)
    ensures r.Some? ==> r.value < |fs| && fs[r.value].state == Pending
    ensures r.Some? ==> forall i :: 0 <= i < r.value ==> fs[i].state != Pending
    ensures r.None? ==> forall i :: 0 <= i < |fs| ==> fs[i].state != Pending
  {
    FirstWhere(fs, (f: Feature) => f.state == Pending)
  }

  /** `after` differs from `before` in feature `i` at most, which keeps its id. */
  ghost predicate OnlyTouches(before: seq<Feature>, after: seq<Feature>, i: nat) {
    && |after| == |before|
    && i < |before|
    && after[i].id == before[i].id
    && forall j :: 0 <= j < |before| && j != i ==> after[j] == before[j]
  }

  ghost predicate Moving(f: Feature, stuck: set<string>) {
    InFlight(f) && f.id !in stuck
  }

  /** Features off the set `stuck` are in flight one at a time. */
  ghost predicate OneInFlight(fs: seq<Feature>, stuck: set<string>) {
    forall i, j :: 0 <= i < j < |fs| ==> !(Moving(fs[i], stuck) && Moving(fs[j], stuck))
  }

  ghost function PendingAt(fs: seq<Feature>): set<int> {
    set j | 0 <= j < |fs| && fs[j].state == Pending
  }

  ghost function Stuck(fs: seq<Feature>): set<string> {
    set f | f in fs && InFlight(f) :: f.id
  }

  // ---------- how often a feature can fail ----------

  /** Gate failures from `attempts` until the feature blocks. */
  function FailuresLeft(attempts: u32, maxRetries: u32): nat
    decreases if attempts == 0xFFFF_FFFF then 0x1_0000_0000 else 0xFFFF_FFFF - attempts as int
  {
    var n := WrappingSucc(attempts);
    if n >= maxRetries then 1 else 1 + FailuresLeft(n, maxRetries)
  }

  /** The closed form: `max(1, maxRetries - attempts)`, unless the counter starts at the top
      of its range, where the first failure wraps it to zero. */
  lemma {:induction false} FailuresLeftIs(attempts: u32, maxRetries: u32)
    ensures FailuresLeft(attempts, maxRetries)
         == if attempts == 0xFFFF_FFFF && maxRetries > 0 then 1 + maxRetries as int
            else if attempts as int + 1 >= maxRetries as int then 1
            else maxRetries as int - attempts as int
    decreases if attempts == 0xFFFF_FFFF then 0x1_0000_0000 else 0xFFFF_FFFF - attempts as int
  {
    var n := WrappingSucc(attempts);
    if n < maxRetries {
      FailuresLeftIs(n, maxRetries);
    }
  }

  // ---------- deriving a backlog from a spec ----------

  function StripPrefix(s: string, prefix: string): Option<string> {
    if prefix <= s then Some(s[|prefix|..]) else None
  }

  /** What follows the box that a text begins with. */
  function Boxed(t: string): Option<(bool, string)> {
    if StripPrefix(t, "- [ ] ").Some? then Some((false, StripPrefix(t, "- [ ] ").value))
    else if StripPrefix(t, "- [x] ").Some? then Some((true, StripPrefix(t, "- [x] ").value))
    else if StripPrefix(t, "- [X] ").Some? then Some((true, StripPrefix(t, "- [X] ").value))
    else None
  }

  /** A checkbox line as (checked, name). */
  function Checkbox(line: string): Option<(bool, string)> {
    var item := Boxed(TrimStart(line));
    if item.None? || Trim(item.value.1) == "" then None else Some((item.value.0, Trim(item.value.1)))
  }

  function FreshFeature(n: nat, box: (bool, string)): Feature {
    Feature("F" + Print(n), box.1, if box.0 then Done else Pending, 0)
  }

  // ---------- what a criterion is, as text ----------

  predicate IsBox(box: string, done: bool) {
    && |box| == 6 && box[0] == '-' && box[1] == ' ' && box[2] == '[' && box[4] == ']' && box[5] == ' '
    && if done then box[3] in {'x', 'X'} else box[3] == ' '
  }

  lemma BoxText(box: string, done: bool)
    ensures IsBox(box, done) <==> if done then box == "- [x] " || box == "- [X] " else box == "- [ ] "
  {
    if IsBox(box, done) {
      assert box == [box[0], box[1], box[2], box[3], box[4], box[5]];
    }
  }

  /** Blanks, the box, and the name between blanks. */
  ghost predicate Criterion(line: string, done: bool, name: string) {
    name != "" && exists indent, box, rest :: Parts(line, indent, box, rest, done) && IsTrimOf(rest, name)
  }

  predicate Parts(line: string, indent: string, box: string, rest: string, done: bool) {
    line == indent + (box + rest) && Blank(indent) && IsBox(box, done)
  }

  ghost predicate IsCriterion(line: string) {
    exists done, name :: Criterion(line, done, name)
  }

  lemma PrefixOfSum(p: string, box: string, rest: string)
    requires |p| == |box|
    ensures StripPrefix(box + rest, p) == if p == box then Some(rest) else None
  {
    assert (box + rest)[..|p|] == box && (box + rest)[|p|..] == rest;
  }

  lemma BoxedIs(t: string, box: string, rest: string, done: bool)
    requires IsBox(box, done) && t == box + rest
    ensures Boxed(t) == Some((done, rest))
  {
    BoxText(box, done);
    PrefixOfSum("- [ ] ", box, rest);
    PrefixOfSum("- [x] ", box, rest);
    PrefixOfSum("- [X] ", box, rest);
  }

  lemma BoxedBegins(t: string, done: bool, rest: string) returns (box: string)
    requires Boxed(t) == Some((done, rest))
    ensures IsBox(box, done) && t == box + rest
  {
    box := t[..6];
    assert t == box + t[6..];
  }

  /** What the parser takes for a criterion is one, of that name and state. */
  lemma CriterionIff(line: string, done: bool, name: string)
    ensures Checkbox(line) == Some((done, name)) <==> Criterion(line, done, name)
  {
    if Checkbox(line) == Some((done, name)) { CheckboxIsCriterion(line, done, name); }
    if Criterion(line, done, name) { CriterionIsCheckbox(line, done, name); }
  }

  lemma CheckboxIsCriterion(line: string, done: bool, name: string)
    requires Checkbox(line) == Some((done, name))
    ensures Criterion(line, done, name)
  {
    var rest := Boxed(TrimStart(line)).value.1;
    var indent := TrimStartLeaves(line);
    var box := BoxedBegins(TrimStart(line), done, rest);
    TrimIff(rest, name);
    assert Parts(line, indent, box, rest, done);
  }

  lemma CriterionIsCheckbox(line: string, done: bool, name: string)
    requires Criterion(line, done, name)
    ensures Checkbox(line) == Some((done, name))
  {
    var indent, box, rest :| Parts(line, indent, box, rest, done) && IsTrimOf(rest, name);
    PartsBox(line, indent, box, rest, done);
    TrimIff(rest, name);
  }

  lemma PartsBox(line: string, indent: string, box: string, rest: string, done: bool)
    requires Parts(line, indent, box, rest, done)
    ensures Boxed(TrimStart(line)) == Some((done, rest))
  {
    TrimStartIs(line, indent, box + rest);
    BoxedIs(box + rest, box, rest, done);
  }

  // ---------- deriving a backlog ----------

  /** Feature `i` of a backlog: numbered from 1, of the line's name, done exactly when its box
      is checked, and not tried. */
  ghost predicate Stands(line: string, i: nat, f: Feature) {
    && f.id == "F" + Print(i + 1) && f.attempts == 0 && f.state in {Pending, Done}
    && Criterion(line, f.state == Done, f.name)
  }

  /** The backlog of a spec: its criteria in order, `at` their lines. */
  ghost predicate Derived(lines: seq<string>, at: seq<nat>, fs: seq<Feature>) {
    Picked(lines, at, fs, Stands, IsCriterion)
  }

  lemma CheckboxStands(line: string, n: nat)
    ensures IsCriterion(line) <==> Checkbox(line).Some?
    ensures Checkbox(line).Some? ==> Stands(line, n, FreshFeature(n + 1, Checkbox(line).value))
  {
    if Checkbox(line).Some? {
      CheckboxIsCriterion(line, Checkbox(line).value.0, Checkbox(line).value.1);
    }
    if done, name :| Criterion(line, done, name) {
      CriterionIsCheckbox(line, done, name);
    }
  }

  /** `derive_backlog_from_spec`: a loop over the lines that numbers what it keeps. */
  method DeriveBacklog(spec: string) returns (fs: seq<Feature>, ghost at: seq<nat>)
    ensures Derived(Lines(spec), at, fs)
  {
    var lines := Lines(spec);
    fs, at := [], [];
    for k := 0 to |lines|
      invariant Derived(lines[..k], at, fs)
    {
      var box := Checkbox(lines[k]);
      fs, at := Kept(lines, k, at, fs, box);
    }
    assert lines[..|lines|] == lines;
  }

  method Kept(lines: seq<string>, k: nat, ghost at: seq<nat>, fs: seq<Feature>, box: Option<(bool, string)>)
    returns (fs': seq<Feature>, ghost at': seq<nat>)
    requires k < |lines| && Derived(lines[..k], at, fs) && box == Checkbox(lines[k])
    ensures Derived(lines[..k + 1], at', fs')
  {
    CheckboxStands(lines[k], |fs|);
    fs', at' := fs, at;
    if box.Some? {
      var f := FreshFeature(|fs| + 1, box.value);
      PickedSnoc(lines, k, at, fs, Stands, IsCriterion, f);
      fs', at' := fs + [f], at + [k];
    } else {
      PickedSnoc(lines, k, at, fs, Stands, IsCriterion, Feature("", "", Pending, 0));
    }
  }

  // ---------- writing criteria and reading them back ----------

  datatype Item = Item(done: bool, name: string)

  function RenderedLine(x: Item): string {
    (if x.done then "- [x] " else "- [ ] ") + x.name
  }

  function Rendered(items: seq<Item>): seq<string> {
    seq(|items|, i requires 0 <= i < |items| => RenderedLine(items[i]))
  }

  predicate Writable(x: Item) {
    x.name != "" && BareEnds(x.name) && '\n' !in x.name
  }

  predicate Readable(l: string) {
    '\n' !in l && (l == "" || l[|l| - 1] != '\r')
  }

  lemma RenderedLines(items: seq<Item>)
    requires forall x :: x in items ==> Writable(x)
    ensures Lines(Unlines(Rendered(items))) == Rendered(items)
    ensures forall k :: 0 <= k < |items| ==> IsCriterion(Rendered(items)[k])
  {
    var lines := Rendered(items);
    forall i | 0 <= i < |items| ensures IsCriterion(lines[i]) && Readable(lines[i]) {
      RenderedReads(items[i]);
    }
    LinesOfUnlines(lines);
  }

  /** What a feature has of the item it was read from. */
  predicate Renders(x: Item, i: nat, f: Feature) {
    f.id == "F" + Print(i + 1) && f.name == x.name && (f.state == Done <==> x.done)
  }

  /** Criteria written one a line come back as features in order, by name and state. */
  lemma RoundTrip(items: seq<Item>, at: seq<nat>, fs: seq<Feature>)
    requires (forall x :: x in items ==> Writable(x)) && Derived(Lines(Unlines(Rendered(items))), at, fs)
    ensures |fs| == |items| && forall i :: 0 <= i < |fs| ==> Renders(items[i], i, fs[i])
  {
    RenderedLines(items);
    EachRenders(items, Rendered(items), at, fs);
  }

  lemma EachRenders(items: seq<Item>, lines: seq<string>, at: seq<nat>, fs: seq<Feature>)
    requires (forall x :: x in items ==> Writable(x)) && Derived(lines, at, fs) && |lines| == |items|
    requires forall k :: 0 <= k < |items| ==> lines[k] == RenderedLine(items[k]) && IsCriterion(lines[k])
    ensures |fs| == |items| && forall i :: 0 <= i < |fs| ==> Renders(items[i], i, fs[i])
  {
    AllPicked(at, |lines|);
    forall i | 0 <= i < |fs| ensures Renders(items[i], i, fs[i]) {
      assert Stands(lines[at[i]], i, fs[i]);
      StandsForItem(items[i], i, fs[i]);
    }
  }

  lemma StandsForItem(x: Item, i: nat, f: Feature)
    requires Writable(x) && Stands(RenderedLine(x), i, f)
    ensures f.name == x.name && (f.state == Done <==> x.done)
  {
    RenderedReads(x);
    CriterionIff(RenderedLine(x), f.state == Done, f.name);
    CriterionIff(RenderedLine(x), x.done, x.name);
  }

  lemma RenderedReads(x: Item)
    requires Writable(x)
    ensures Criterion(RenderedLine(x), x.done, x.name) && IsCriterion(RenderedLine(x)) && Readable(RenderedLine(x))
  {
    var box, line := if x.done then "- [x] " else "- [ ] ", RenderedLine(x);
    BoxText(box, x.done);
    WrittenReads(x, box, line);
  }

  lemma WrittenReads(x: Item, box: string, line: string)
    requires Writable(x) && IsBox(box, x.done) && line == box + x.name
    ensures Criterion(line, x.done, x.name) && Readable(line)
  {
    assert "" + (box + x.name) == line;
    assert Parts(line, "", box, x.name, x.done);
    assert Between(x.name, "", x.name, "");
    assert line[|line| - 1] == x.name[|x.name| - 1];
    assert box == [box[0], box[1], box[2], box[3], box[4], box[5]] && '\n' !in box;
  }

  // ---------- a derived backlog has not been worked on ----------

  /** Nothing has run yet. */
  ghost predicate IsFresh(fs: seq<Feature>) {
    && DistinctIds(fs)
    && forall i :: 0 <= i < |fs| ==> fs[i].state in {Pending, Done} && fs[i].attempts == 0
  }

  lemma DerivedIsFresh(lines: seq<string>, at: seq<nat>, fs: seq<Feature>)
    requires Derived(lines, at, fs)
    ensures IsFresh(fs)
  {
    forall i | 0 <= i < |fs| ensures fs[i].state in {Pending, Done} && fs[i].attempts == 0 && fs[i].id == "F" + Print(i + 1) {
      assert Stands(lines[at[i]], i, fs[i]);
    }
    forall i, j | 0 <= i < j < |fs| ensures fs[i].id != fs[j].id {
      NumberedApart(i + 1, j + 1);
    }
  }

  lemma NumberedApart(m: nat, n: nat)
    requires m != n
    ensures "F" + Print(m) != "F" + Print(n)
  {
    if "F" + Print(m) == "F" + Print(n) {
      assert ("F" + Print(m))[1..] == Print(m) && ("F" + Print(n))[1..] == Print(n);
      PrintInjective(m, n);
      assert false;
    }
  }
}
