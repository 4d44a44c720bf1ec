/** Grouping tmux pane lines into sessions (crates/agentum-server/src/host_runtime.rs). */
module TmuxPanes {
  import opened Basics
  import opened Text
  import opened Decimal

  const MANAGED := "agentum-"

  datatype Pane = Pane(command: string, cwd: string)

  datatype Session = Session(name: string, attached: bool, createdAt: Option<int>, panes: seq<Pane>)

  /** A well-formed line: its session's name and state, and its pane. */
  datatype Row = Row(name: string, attached: bool, createdAt: Option<int>, pane: Pane)

  // ---------- one line ----------

  /** `trim_end_matches('\r')`. */
  function TrimReturns(s: string): string {
    if s != "" && s[|s| - 1] == '\r' then TrimReturns(s[..|s| - 1]) else s
  }

  /** `splitn(n, sep)`: the last piece keeps whatever separators are left. */
  function SplitN(s: string, n: nat, sep: char): (pieces: seq<string>)
    requires n >= 1
    ensures 1 <= |pieces| <= n
    decreases n
  {
    match IndexOf(s, sep)
    case None => [s]
    case Some(i) => if n == 1 then [s] else [s[..i]] + SplitN(s[i + 1..], n - 1, sep)
  }

  function ParseAttached(s: string): bool {
    match ParseUnsigned(Trim(s), 0xFFFF_FFFF)
    case Some(n) => n > 0
    case None => false
  }

  function ParseRow(raw: string): Option<Row> {
    var line := TrimReturns(raw);
    var f := SplitN(line, 5, '\t');
    if line == "" || |f| < 5 then None
    else Some(Row(f[0], ParseAttached(f[1]), ParseI64(Trim(f[2])), Pane(f[3], f[4])))
  }

  function Rows(lines: seq<string>): seq<Row> {
    if lines == [] then []
    else
      var front := Rows(lines[..|lines| - 1]);
      match ParseRow(lines[|lines| - 1])
      case None => front
      case Some(row) => front + [row]
  }

  // ---------- what grouping means ----------

  predicate HasName(rows: seq<Row>, name: string) {
    exists i :: 0 <= i < |rows| && rows[i].name == name
  }

  /** The names, each where it was first seen. */
  function FirstSeen(rows: seq<Row>): (names: seq<string>)
    ensures forall n :: n in names <==> HasName(rows, n)
    ensures forall i, j :: 0 <= i < j < |names| ==> names[i] != names[j]
  {
    if rows == [] then []
    else
      var front, last := rows[..|rows| - 1], rows[|rows| - 1];
      var names := FirstSeen(front);
      assert forall n :: HasName(rows, n) <==> HasName(front, n) || last.name == n;
      if last.name in names then names else names + [last.name]
  }

  /** All panes of one name, in the order of their lines. */
  function PanesOf(rows: seq<Row>, name: string): seq<Pane> {
    if rows == [] then []
    else
      var front, last := PanesOf(rows[..|rows| - 1], name), rows[|rows| - 1];
      if last.name == name then front + [last.pane] else front
  }

  function FirstRow(rows: seq<Row>, name: string): (r: Row)
    requires HasName(rows, name)
  {
    var front := rows[..|rows| - 1];
    if HasName(front, name) then FirstRow(front, name) else rows[|rows| - 1]
  }

  /** The session of a name: its state from the name's first line, its panes from all. */
  function SessionOf(rows: seq<Row>, name: string): Session
    requires HasName(rows, name)
  {
    var first := FirstRow(rows, name);
    Session(name, first.attached, first.createdAt, PanesOf(rows, name))
  }

  function SessionsFor(rows: seq<Row>, names: seq<string>): (s: seq<Session>)
    requires forall n :: n in names ==> HasName(rows, n)
    ensures |s| == |names|
  {
    seq(|names|, i requires 0 <= i < |names| => SessionOf(rows, names[i]))
  }

  function Sessions(rows: seq<Row>): (s: seq<Session>)
    ensures |s| == |FirstSeen(rows)|
    ensures forall i :: 0 <= i < |s| ==> s[i].name == FirstSeen(rows)[i]
  {
    SessionsFor(rows, FirstSeen(rows))
  }

  // ---------- the parsers ----------

  function IndexOfName(sessions: seq<Session>, name: string): (r: Option<nat>)
    ensures r.Some? ==> r.value < |sessions| && sessions[r.value].name == name
    ensures r.None? ==> forall i :: 0 <= i < |sessions| ==> sessions[i].name != name
  {
    FirstWhere(sessions, (s: Session) => s.name == name)
  }

  /** One row into the sessions found so far, in place. */
  method AddRow(sessions: seq<Session>, row: Row, ghost rows: seq<Row>) returns (r: seq<Session>)
    requires sessions == Sessions(rows)
    ensures r == Sessions(rows + [row])
  {
    AddedRow(rows, row);
    match IndexOfName(sessions, row.name)
    case Some(i) =>
      assert sessions[i].name in FirstSeen(rows);
      r := sessions[i := sessions[i].(panes := sessions[i].panes + [row.pane])];
    case None =>
      assert forall i :: 0 <= i < |sessions| ==> sessions[i].name == FirstSeen(rows)[i];
      r := sessions + [Session(row.name, row.attached, row.createdAt, [row.pane])];
  }

  lemma RowsSnoc(lines: seq<string>, k: nat)
    requires k < |lines|
    ensures match ParseRow(lines[k])
      case None => Rows(lines[..k + 1]) == Rows(lines[..k])
      case Some(row) => Rows(lines[..k + 1]) == Rows(lines[..k]) + [row]
  {
    assert lines[..k + 1][..k] == lines[..k];
  }

  /** One line: blank lines and lines with too few fields are passed over. */
  method ParseLine(raw: string) returns (row: Option<Row>)
    ensures row == ParseRow(raw)
  {
    var line := TrimReturns(raw);
    if line == "" { return None; }
    var f := SplitN(line, 5, '\t');
    if |f| < 5 { return None; }
    row := Some(Row(f[0], ParseAttached(f[1]), ParseI64(Trim(f[2])), Pane(f[3], f[4])));
  }

  /** One line into the sessions found so far. */
  method AddLine(sessions: seq<Session>, raw: string, ghost before: seq<Row>) returns (r: seq<Session>)
    requires sessions == Sessions(before)
    ensures r == match ParseRow(raw) case None => Sessions(before) case Some(row) => Sessions(before + [row])
  {
    var row := ParseLine(raw);
    r := sessions;
    if row.Some? { r := AddRow(sessions, row.value, before); }
  }

  method ParseTmuxPanesAll(stdout: string) returns (sessions: seq<Session>)
    ensures sessions == Sessions(Rows(Lines(stdout)))
  {
    sessions := [];
    var lines := Lines(stdout);
    for k := 0 to |lines|
      invariant sessions == Sessions(Rows(lines[..k]))
    {
      RowsSnoc(lines, k);
      sessions := AddLine(sessions, lines[k], Rows(lines[..k]));
    }
    assert lines[..|lines|] == lines;
  }

  predicate Managed(name: string) {
    MANAGED <= name
  }

  function RowsOfClass(rows: seq<Row>, managed: bool): seq<Row> {
    if rows == [] then []
    else
      var front, last := RowsOfClass(rows[..|rows| - 1], managed), rows[|rows| - 1];
      if Managed(last.name) == managed then front + [last] else front
  }

  function SessionsOfClass(sessions: seq<Session>, managed: bool): seq<Session> {
    if sessions == [] then []
    else
      var front, last := SessionsOfClass(sessions[..|sessions| - 1], managed), sessions[|sessions| - 1];
      if Managed(last.name) == managed then front + [last] else front
  }

  lemma OfClassSnoc(rows: seq<Row>, row: Row, managed: bool)
    ensures RowsOfClass(rows + [row], managed)
         == if Managed(row.name) == managed then RowsOfClass(rows, managed) + [row] else RowsOfClass(rows, managed)
  {
    assert (rows + [row])[..|rows|] == rows;
  }

  /** One line into the sessions of a class. */
  method AddLineOfClass(sessions: seq<Session>, raw: string, managed: bool, ghost before: seq<Row>) returns (r: seq<Session>)
    requires sessions == Sessions(RowsOfClass(before, managed))
    ensures r == match ParseRow(raw)
      case None => Sessions(RowsOfClass(before, managed))
      case Some(row) => Sessions(RowsOfClass(before + [row], managed))
  {
    var row := ParseLine(raw);
    r := sessions;
    if row.Some? {
      OfClassSnoc(before, row.value, managed);
      if Managed(row.value.name) == managed {
        r := AddRow(sessions, row.value, RowsOfClass(before, managed));
      }
    }
  }

  /** The external (`managed` false) or the managed sessions: filtering the lines gives what
      filtering all sessions gives. */
  method ParseTmuxPanesFiltered(stdout: string, managed: bool) returns (sessions: seq<Session>)
    ensures sessions == SessionsOfClass(Sessions(Rows(Lines(stdout))), managed)
  {
    sessions := [];
    var lines := Lines(stdout);
    for k := 0 to |lines|
      invariant sessions == Sessions(RowsOfClass(Rows(lines[..k]), managed))
    {
      RowsSnoc(lines, k);
      sessions := AddLineOfClass(sessions, lines[k], managed, Rows(lines[..k]));
    }
    assert lines[..|lines|] == lines;
    FilteringCommutes(Rows(lines), managed);
  }

  // ---------- one more row ----------

  lemma SessionGrows(rows: seq<Row>, row: Row, name: string)
    requires HasName(rows, name)
    ensures HasName(rows + [row], name)
    ensures SessionOf(rows + [row], name) ==
      if row.name == name then SessionOf(rows, name).(panes := PanesOf(rows, name) + [row.pane])
      else SessionOf(rows, name)
  {
    var all := rows + [row];
    var i :| 0 <= i < |rows| && rows[i].name == name;
    assert all[i].name == name;
    assert all[..|all| - 1] == rows;
  }

  lemma {:induction false} NoPanes(rows: seq<Row>, name: string)
    requires !HasName(rows, name)
    ensures PanesOf(rows, name) == []
  {
    if rows != [] {
      var n := |rows| - 1;
      NameSnoc(rows[..n], rows[n], name);
      assert rows == rows[..n] + [rows[n]];
      NoPanes(rows[..n], name);
    }
  }

  lemma SessionBegins(rows: seq<Row>, row: Row)
    requires !HasName(rows, row.name)
    ensures HasName(rows + [row], row.name)
    ensures SessionOf(rows + [row], row.name) == Session(row.name, row.attached, row.createdAt, [row.pane])
  {
    var all := rows + [row];
    assert all[|rows|].name == row.name;
    assert all[..|all| - 1] == rows;
    NoPanes(rows, row.name);
  }

  lemma AddedToKnown(rows: seq<Row>, row: Row, i: nat)
    requires i < |FirstSeen(rows)| && FirstSeen(rows)[i] == row.name
    ensures FirstSeen(rows + [row]) == FirstSeen(rows)
    ensures Sessions(rows + [row])
      == Sessions(rows)[i := Sessions(rows)[i].(panes := Sessions(rows)[i].panes + [row.pane])]
  {
    var all, names := rows + [row], FirstSeen(rows);
    assert all[..|all| - 1] == rows && all[|all| - 1] == row;
    assert names[i] in names;
    forall k | 0 <= k < |names| ensures HasName(rows, names[k]) && Sessions(all)[k] ==
      if k == i then Sessions(rows)[k].(panes := Sessions(rows)[k].panes + [row.pane]) else Sessions(rows)[k] {
      assert names[k] in names;
      SessionGrows(rows, row, names[k]);
    }
  }

  lemma FirstSeenSnoc(rows: seq<Row>, row: Row)
    ensures FirstSeen(rows + [row]) == if row.name in FirstSeen(rows) then FirstSeen(rows) else FirstSeen(rows) + [row.name]
  {
    assert (rows + [row])[..|rows|] == rows;
  }

  lemma AddedAsNew(rows: seq<Row>, row: Row)
    requires row.name !in FirstSeen(rows)
    ensures Sessions(rows + [row]) == Sessions(rows) + [Session(row.name, row.attached, row.createdAt, [row.pane])]
  {
    FirstSeenSnoc(rows, row);
    SessionBegins(rows, row);
    AppendedName(rows, row, rows + [row], FirstSeen(rows));
  }

  lemma AppendedName(rows: seq<Row>, row: Row, all: seq<Row>, names: seq<string>)
    requires all == rows + [row] && names == FirstSeen(rows) && FirstSeen(all) == names + [row.name]
    requires row.name !in names
    ensures HasName(all, row.name) && Sessions(all) == Sessions(rows) + [SessionOf(all, row.name)]
  {
    SessionBegins(rows, row);
    forall k | 0 <= k < |names| ensures Sessions(all)[k] == Sessions(rows)[k] {
      assert names[k] in names;
      SessionGrows(rows, row, names[k]);
    }
  }

  /** One more row adds a pane to its session, or a session at the end, and nothing else. */
  lemma AddedRow(rows: seq<Row>, row: Row)
    ensures var was, now := Sessions(rows), Sessions(rows + [row]);
      match IndexOfName(was, row.name)
      case Some(i) => now == was[i := was[i].(panes := was[i].panes + [row.pane])]
      case None => now == was + [Session(row.name, row.attached, row.createdAt, [row.pane])]
  {
    var was := Sessions(rows);
    match IndexOfName(was, row.name)
    case Some(i) =>
      assert was[i].name == FirstSeen(rows)[i];
      AddedToKnown(rows, row, i);
    case None =>
      assert forall k :: 0 <= k < |was| ==> was[k].name == FirstSeen(rows)[k];
      AddedAsNew(rows, row);
  }

  // ---------- filtering before or after ----------

  function NamesOfClass(names: seq<string>, managed: bool): (r: seq<string>)
    ensures forall n :: n in r <==> n in names && Managed(n) == managed
  {
    if names == [] then []
    else
      var front, last := NamesOfClass(names[..|names| - 1], managed), names[|names| - 1];
      assert names == names[..|names| - 1] + [last];
      if Managed(last) == managed then front + [last] else front
  }

  lemma {:induction false} SessionOfClass(rows: seq<Row>, managed: bool, name: string)
    requires Managed(name) == managed
    ensures HasName(RowsOfClass(rows, managed), name) <==> HasName(rows, name)
    ensures HasName(rows, name) ==> SessionOf(RowsOfClass(rows, managed), name) == SessionOf(rows, name)
    ensures PanesOf(RowsOfClass(rows, managed), name) == PanesOf(rows, name)
  {
    if rows != [] {
      var front, last := rows[..|rows| - 1], rows[|rows| - 1];
      SessionOfClass(front, managed, name);
      var kept := RowsOfClass(front, managed);
      NameSnoc(front, last, name);
      assert front + [last] == rows;
      if Managed(last.name) == managed {
        NameSnoc(kept, last, name);
        assert (kept + [last])[..|kept|] == kept;
      }
    }
  }

  lemma NameSnoc(rows: seq<Row>, row: Row, name: string)
    ensures HasName(rows + [row], name) <==> HasName(rows, name) || row.name == name
  {
    var all := rows + [row];
    assert all[|rows|] == row;
    assert forall i :: 0 <= i < |rows| ==> all[i] == rows[i];
  }

  lemma {:induction false} NamesCommute(rows: seq<Row>, managed: bool)
    ensures FirstSeen(RowsOfClass(rows, managed)) == NamesOfClass(FirstSeen(rows), managed)
  {
    if rows != [] {
      var front, last := rows[..|rows| - 1], rows[|rows| - 1];
      NamesCommute(front, managed);
      var kept, names := RowsOfClass(front, managed), FirstSeen(front);
      assert (kept + [last])[..|kept|] == kept;
      assert (names + [last.name])[..|names|] == names;
    }
  }

  lemma {:induction false} MapCommutes(rows: seq<Row>, names: seq<string>, managed: bool)
    requires forall n :: n in names ==> HasName(rows, n)
    ensures SessionsOfClass(SessionsFor(rows, names), managed) == SessionsFor(rows, NamesOfClass(names, managed))
  {
    if names != [] {
      var front, last := names[..|names| - 1], names[|names| - 1];
      assert last in names;
      MapCommutes(rows, front, managed);
      assert SessionsFor(rows, names)[..|names| - 1] == SessionsFor(rows, front);
      var kept := NamesOfClass(front, managed);
      assert SessionsFor(rows, kept) + [SessionOf(rows, last)] == SessionsFor(rows, kept + [last]);
    }
  }

  /** Filtering the rows first or the grouped sessions last is the same. */
  lemma FilteringCommutes(rows: seq<Row>, managed: bool)
    ensures Sessions(RowsOfClass(rows, managed)) == SessionsOfClass(Sessions(rows), managed)
  {
    var names := FirstSeen(rows);
    var kept := RowsOfClass(rows, managed);
    NamesCommute(rows, managed);
    MapCommutes(rows, names, managed);
    var few := NamesOfClass(names, managed);
    forall i | 0 <= i < |few|
      ensures HasName(rows, few[i]) && HasName(kept, few[i]) && SessionOf(kept, few[i]) == SessionOf(rows, few[i]) {
      assert few[i] in few;
      SessionOfClass(rows, managed, few[i]);
    }
    assert SessionsFor(kept, few) == SessionsFor(rows, few);
  }

  // ---------- what the sessions hold ----------

  function PaneCount(sessions: seq<Session>): nat {
    if sessions == [] then 0 else PaneCount(sessions[..|sessions| - 1]) + |sessions[|sessions| - 1].panes|
  }

  lemma {:induction false} PaneCountUpdate(sessions: seq<Session>, i: nat, pane: Pane)
    requires i < |sessions|
    ensures PaneCount(sessions[i := sessions[i].(panes := sessions[i].panes + [pane])]) == PaneCount(sessions) + 1
  {
    var n := |sessions| - 1;
    var after := sessions[i := sessions[i].(panes := sessions[i].panes + [pane])];
    if i < n {
      PaneCountUpdate(sessions[..n], i, pane);
      assert after[..n] == sessions[..n][i := after[i]];
    } else {
      assert after[..n] == sessions[..n];
    }
  }

  /** Every well-formed line gave one pane: all sessions together hold as many as there are rows. */
  lemma {:induction false} EveryRowOnePane(rows: seq<Row>)
    ensures PaneCount(Sessions(rows)) == |rows|
  {
    if rows != [] {
      var front, last := rows[..|rows| - 1], rows[|rows| - 1];
      assert rows == front + [last];
      EveryRowOnePane(front);
      AddedRow(front, last);
      var was := Sessions(front);
      match IndexOfName(was, last.name)
      case Some(i) => PaneCountUpdate(was, i, last.pane);
      case None =>
        var added := Session(last.name, last.attached, last.createdAt, [last.pane]);
        assert (was + [added])[..|was|] == was;
    }
  }

  // ---------- a line in the discovery format ----------

  function Join(first: string, rest: string): string {
    first + "\t" + rest
  }

  lemma JoinEnds(first: string, rest: string)
    requires rest == "" || rest[|rest| - 1] != '\r'
    ensures Join(first, rest) != "" && TrimReturns(Join(first, rest)) == Join(first, rest)
    ensures Join(first, rest)[|Join(first, rest)| - 1] != '\r'
  {
  }

  /** Four fields without tabs and a directory that may have them are read back whole. */
  lemma LineRoundTrip(name: string, attached: string, created: string, command: string, cwd: string,
                      line: string, r1: string, r2: string, r3: string)
    requires '\t' !in name && '\t' !in attached && '\t' !in created && '\t' !in command
    requires cwd == "" || cwd[|cwd| - 1] != '\r'
    requires r3 == Join(command, cwd) && r2 == Join(created, r3) && r1 == Join(attached, r2) && line == Join(name, r1)
    ensures ParseRow(line) == Some(Row(name, ParseAttached(attached), ParseI64(Trim(created)), Pane(command, cwd)))
  {
    JoinEnds(command, cwd);
    JoinEnds(created, r3);
    JoinEnds(attached, r2);
    JoinEnds(name, r1);
    FieldsRoundTrip(name, attached, created, command, cwd, line, r1, r2, r3, 5);
    RowOfFields(line, [name, attached, created, command, cwd]);
  }

  // ---------- which lines are read, and which sessions are agentum's own ----------

  lemma ManagedIff(name: string)
    ensures Managed(name) <==> exists rest: string :: name == "agentum-" + rest
  {
    if Managed(name) {
      assert name == "agentum-" + name[|MANAGED|..];
    }
  }

  lemma {:induction false} TrimReturnsIs(line: string, tail: string)
    requires (forall c :: c in tail ==> c == '\r') && (line == "" || line[|line| - 1] != '\r')
    ensures TrimReturns(line + tail) == line
    decreases |tail|
  {
    if tail == "" {
      assert line + tail == line;
    } else {
      var front := tail[..|tail| - 1];
      assert tail[|tail| - 1] in tail && (line + tail)[..|line + tail| - 1] == line + front;
      assert forall c :: c in front ==> c in tail;
      TrimReturnsIs(line, front);
    }
  }

  /** Carriage returns at the end of a line, however many, are ignored. */
  lemma ReturnsIgnored(line: string, tail: string)
    requires (forall c :: c in tail ==> c == '\r') && (line == "" || line[|line| - 1] != '\r')
    ensures ParseRow(line + tail) == ParseRow(line)
  {
    TrimReturnsIs(line, tail);
    TrimReturnsIs(line, "");
    assert line + "" == line;
  }

  lemma {:induction false} PieceCount(s: string, n: nat, sep: char)
    requires n >= 1
    ensures |SplitN(s, n, sep)| == if multiset(s)[sep] + 1 < n then multiset(s)[sep] + 1 else n
    decreases n
  {
    match IndexOf(s, sep)
    case None => assert sep !in multiset(s);
    case Some(i) =>
      var head, rest := s[..i], s[i + 1..];
      assert s == head + [sep] + rest;
      assert multiset(s)[sep] == multiset(head)[sep] + 1 + multiset(rest)[sep];
      assert sep !in multiset(head);
      if n > 1 { PieceCount(rest, n - 1, sep); }
  }

  lemma {:induction false} TabsStay(s: string)
    ensures multiset(TrimReturns(s))['\t'] == multiset(s)['\t']
  {
    if s != "" && s[|s| - 1] == '\r' {
      var front := s[..|s| - 1];
      assert s == front + ['\r'];
      TabsStay(front);
    }
  }

  /** A line is read exactly when it has four tabs or more. */
  lemma ReadIff(raw: string)
    ensures ParseRow(raw).Some? <==> multiset(raw)['\t'] >= 4
  {
    TabsStay(raw);
    PieceCount(TrimReturns(raw), 5, '\t');
  }

  /** A line as tmux prints it: name, number of attached clients, creation time, command and
      working directory. */
  function LineOf(name: string, clients: nat, created: nat, command: string, cwd: string): string {
    Join(name, Join(Print(clients), Join(Print(created), Join(command, cwd))))
  }

  /** It is read back: attached with at least one client, and the time as a number. */
  lemma PrintedRoundTrip(name: string, clients: nat, created: nat, command: string, cwd: string)
    requires '\t' !in name && '\t' !in command && (cwd == "" || cwd[|cwd| - 1] != '\r')
    requires clients <= 0xFFFF_FFFF && created <= 0x7FFF_FFFF_FFFF_FFFF
    ensures ParseRow(LineOf(name, clients, created, command, cwd))
         == Some(Row(name, clients > 0, Some(created), Pane(command, cwd)))
  {
    DigitsAlone(clients);
    DigitsAlone(created);
    ParsePrint(clients, 0xFFFF_FFFF);
    ParsePrint(created, 0x7FFF_FFFF_FFFF_FFFF);
    var r3 := Join(command, cwd);
    var r2 := Join(Print(created), r3);
    var r1 := Join(Print(clients), r2);
    LineRoundTrip(name, Print(clients), Print(created), command, cwd, Join(name, r1), r1, r2, r3);
  }

  lemma DigitsAlone(n: nat)
    ensures '\t' !in Print(n) && Trim(Print(n)) == Print(n) && Print(n)[0] != '-'
  {
    var s := Print(n);
    assert s[0] in s && s[|s| - 1] in s;
    TrimIsIdentity(s);
  }

  /** A count or time that is no number reads as detached, or as no time. */
  lemma UnreadableNumber(s: string)
    requires exists c :: c in Trim(s) && !IsDigit(c) && c !in {'+', '-'}
    ensures !ParseAttached(s) && ParseI64(Trim(s)) == None
  {
    var t := Trim(s);
    var k :| 0 <= k < |t| && !IsDigit(t[k]) && t[k] !in {'+', '-'};
    assert t[0] in {'+', '-'} ==> k > 0 && t[1..][k - 1] == t[k] && t[k] in t[1..];
  }

  lemma FieldsRoundTrip(name: string, attached: string, created: string, command: string, cwd: string,
                        line: string, r1: string, r2: string, r3: string, n: nat)
    requires '\t' !in name && '\t' !in attached && '\t' !in created && '\t' !in command && n == 5
    requires r3 == Join(command, cwd) && r2 == Join(created, r3) && r1 == Join(attached, r2) && line == Join(name, r1)
    ensures SplitN(line, n, '\t') == [name, attached, created, command, cwd]
  {
    SplitFirst(command, cwd, n - 3);
    SplitFirst(created, r3, n - 2);
    SplitFirst(attached, r2, n - 1);
    SplitFirst(name, r1, n);
    Chain(SplitN(line, n, '\t'), SplitN(r1, n - 1, '\t'), SplitN(r2, n - 2, '\t'), SplitN(r3, n - 3, '\t'),
          name, attached, created, command, cwd);
  }

  lemma Chain(p5: seq<string>, p4: seq<string>, p3: seq<string>, p2: seq<string>,
              a: string, b: string, c: string, d: string, e: string)
    requires p5 == [a] + p4 && p4 == [b] + p3 && p3 == [c] + p2 && p2 == [d] + [e]
    ensures p5 == [a, b, c, d, e]
  {
  }

  lemma RowOfFields(line: string, f: seq<string>)
    requires line != "" && TrimReturns(line) == line && SplitN(line, 5, '\t') == f && |f| == 5
    ensures ParseRow(line) == Some(Row(f[0], ParseAttached(f[1]), ParseI64(Trim(f[2])), Pane(f[3], f[4])))
  {
  }

  lemma SplitFirst(first: string, rest: string, n: nat)
    requires n >= 2 && '\t' !in first
    ensures SplitN(Join(first, rest), n, '\t') == [first] + SplitN(rest, n - 1, '\t')
  {
    var s := Join(first, rest);
    assert s[..|first|] == first && s[|first| + 1..] == rest;
    IndexOfIs(s, '\t', |first|);
  }
}
