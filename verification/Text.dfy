/** The string operations of Rust's standard library that the modelled parsers use. */
module Text {
  import opened Basics

  /** `char::is_whitespace`: the Unicode White_Space property. */
  predicate IsWhitespace(c: char) {
    || '\U{09}' <= c <= '\U{0D}'
    || c == ' '
    || c in {'\U{85}', '\U{A0}', '\U{1680}', '\U{2028}', '\U{2029}', '\U{202F}', '\U{205F}', '\U{3000}'}
    || '\U{2000}' <= c <= '\U{200A}'
  }

  /** `char::is_ascii_digit`. */
  predicate IsDigit(c: char) {
    '0' <= c <= '9'
  }

  function TrimStart(s: string): (r: string)
    ensures |r| <= |s| && r == s[|s| - |r|..]
    ensures r != "" ==> !IsWhitespace(r[0])
  {
    if s != "" && IsWhitespace(s[0]) then TrimStart(s[1..]) else s
  }

  function TrimEnd(s: string): (r: string)
    ensures r <= s
    ensures r != "" ==> !IsWhitespace(r[|r| - 1])
  {
    if s != "" && IsWhitespace(s[|s| - 1]) then TrimEnd(s[..|s| - 1]) else s
  }

  /** `str::trim`. */
  function Trim(s: string): string {
    TrimEnd(TrimStart(s))
  }

  predicate Blank(s: string) {
    forall c :: c in s ==> IsWhitespace(c)
  }

  predicate BareEnds(s: string) {
    s == "" || (!IsWhitespace(s[0]) && !IsWhitespace(s[|s| - 1]))
  }

  /** `trim_start` takes off blanks until something else comes, */
  lemma {:induction false} TrimStartIs(s: string, lead: string, rest: string)
    requires s == lead + rest && Blank(lead) && (rest == "" || !IsWhitespace(rest[0]))
    ensures TrimStart(s) == rest
    decreases |lead|
  {
    if lead == "" {
      assert s == rest;
    } else {
      assert s[0] == lead[0] && lead[0] in lead;
      assert s[1..] == lead[1..] + rest;
      assert forall c :: c in lead[1..] ==> c in lead;
      TrimStartIs(s[1..], lead[1..], rest);
    }
  }

  /** all of them. */
  lemma {:induction false} TrimStartLeaves(s: string) returns (lead: string)
    ensures s == lead + TrimStart(s) && Blank(lead)
  {
    if s != "" && IsWhitespace(s[0]) {
      var more := TrimStartLeaves(s[1..]);
      lead := [s[0]] + more;
      HeadTail(s);
      Regroup([s[0]], more, TrimStart(s));
    } else {
      lead := "";
      assert "" + s == s;
    }
  }

  lemma {:induction false} TrimEndIs(s: string, rest: string, tail: string)
    requires s == rest + tail && Blank(tail) && (rest == "" || !IsWhitespace(rest[|rest| - 1]))
    ensures TrimEnd(s) == rest
    decreases |tail|
  {
    if tail == "" {
      assert s == rest;
    } else {
      assert s[|s| - 1] == tail[|tail| - 1] && tail[|tail| - 1] in tail;
      assert s[..|s| - 1] == rest + tail[..|tail| - 1];
      assert forall c :: c in tail[..|tail| - 1] ==> c in tail;
      TrimEndIs(s[..|s| - 1], rest, tail[..|tail| - 1]);
    }
  }

  lemma {:induction false} TrimEndLeaves(s: string) returns (tail: string)
    ensures s == TrimEnd(s) + tail && Blank(tail)
  {
    if s != "" && IsWhitespace(s[|s| - 1]) {
      var more := TrimEndLeaves(s[..|s| - 1]);
      tail := more + [s[|s| - 1]];
      assert s == s[..|s| - 1] + [s[|s| - 1]];
      Regroup(TrimEnd(s), more, [s[|s| - 1]]);
    } else {
      tail := "";
      assert s + "" == s;
    }
  }

  /** `t` is what is left of `s` between the blanks at its ends. */
  ghost predicate IsTrimOf(s: string, t: string) {
    BareEnds(t) && exists a, b :: Between(s, a, t, b)
  }

  predicate Between(s: string, a: string, t: string, b: string) {
    s == a + t + b && Blank(a) && Blank(b)
  }

  lemma TrimIff(s: string, t: string)
    ensures Trim(s) == t <==> IsTrimOf(s, t)
  {
    var a := TrimStartLeaves(s);
    var b := TrimEndLeaves(TrimStart(s));
    Regroup(a, Trim(s), b);
    assert Between(s, a, Trim(s), b);
    TrimHasBareEnds(s);
    if IsTrimOf(s, t) {
      var lead, tail :| Between(s, lead, t, tail);
      TrimOfBetween(s, lead, t, tail);
    }
  }

  lemma TrimHasBareEnds(s: string)
    ensures BareEnds(Trim(s))
  {
    assert Trim(s) != "" ==> Trim(s)[0] == TrimStart(s)[0];
  }

  lemma TrimOfBetween(s: string, lead: string, t: string, tail: string)
    requires Between(s, lead, t, tail) && BareEnds(t)
    ensures Trim(s) == t
  {
    if t == "" {
      assert s == lead + tail + "";
      assert Blank(lead + tail);
      TrimStartIs(s, lead + tail, "");
    } else {
      Regroup(lead, t, tail);
      TrimStartIs(s, lead, t + tail);
      TrimEndIs(t + tail, t, tail);
    }
  }

  lemma TrimIsIdentity(s: string)
    requires s == "" || (!IsWhitespace(s[0]) && !IsWhitespace(s[|s| - 1]))
    ensures Trim(s) == s
  {
  }

  lemma HeadTail<T>(s: seq<T>)
    requires s != []
    ensures [s[0]] + s[1..] == s
  {
  }

  lemma SumTail<T>(a: seq<T>, b: seq<T>, sum: seq<T>)
    requires a != [] && sum == a + b
    ensures sum != [] && sum[0] == a[0] && sum[1..] == a[1..] + b
  {
  }

  // ---------- searching ----------

  predicate OccursAt<T(==)>(text: seq<T>, pat: seq<T>, i: nat) {
    i + |pat| <= |text| && text[i..i + |pat|] == pat
  }

  ghost predicate Contains<T>(text: seq<T>, pat: seq<T>) {
    exists i: nat :: OccursAt(text, pat, i)
  }

  function FindFrom<T(==)>(text: seq<T>, pat: seq<T>, from: nat): (r: Option<nat>)
    requires from <= |text|
    ensures r.Some? ==> from <= r.value && OccursAt(text, pat, r.value)
    ensures forall k: nat :: from <= k && (r.Some? ==> k < r.value) ==> !OccursAt(text, pat, k)
    decreases |text| - from
  {
    if OccursAt(text, pat, from) then Some(from)
    else if from == |text| then None
    else FindFrom(text, pat, from + 1)
  }

  /** `str::find` (and the first hit of `slice::windows`): the leftmost occurrence. */
  function Find<T(==)>(text: seq<T>, pat: seq<T>): (r: Option<nat>)
    ensures r.Some? ==> OccursAt(text, pat, r.value)
    ensures r.None? <==> !Contains(text, pat)
    ensures forall k: nat :: (r.Some? ==> k < r.value) ==> !OccursAt(text, pat, k)
  {
    FindFrom(text, pat, 0)
  }

  /** The leftmost occurrence is the only index with an occurrence and none before it. */
  lemma FindIs<T>(text: seq<T>, pat: seq<T>, i: nat)
    requires OccursAt(text, pat, i)
    requires forall k: nat :: k < i ==> !OccursAt(text, pat, k)
    ensures Find(text, pat) == Some(i)
  {
  }

  lemma NotAt<T>(text: seq<T>, pat: seq<T>, i: nat)
    requires pat != [] && i < |text| && text[i] != pat[0]
    ensures !OccursAt(text, pat, i)
  {
    assert i + |pat| <= |text| ==> text[i..i + |pat|][0] == text[i];
  }

  lemma ContainsTransitive<T>(a: seq<T>, b: seq<T>, c: seq<T>)
    requires Contains(a, b) && Contains(b, c)
    ensures Contains(a, c)
  {
    var i: nat :| OccursAt(a, b, i);
    var j: nat :| OccursAt(b, c, j);
    forall k | 0 <= k < |c| ensures a[i + j + k] == c[k] {
      assert c[k] == b[j..j + |c|][k] == b[j + k] == a[i..i + |b|][j + k];
    }
    assert a[i + j..i + j + |c|] == c;
    assert OccursAt(a, c, i + j);
  }

  lemma ContainsSlice<T>(s: seq<T>, lo: nat, hi: nat)
    requires lo <= hi <= |s|
    ensures Contains(s, s[lo..hi])
  {
    assert OccursAt(s, s[lo..hi], lo);
  }

  lemma SuffixContained<T>(s: seq<T>, t: seq<T>)
    requires |t| <= |s| && t == s[|s| - |t|..]
    ensures Contains(s, t)
  {
    assert OccursAt(s, t, |s| - |t|);
  }

  lemma PrefixContained<T>(s: seq<T>, t: seq<T>)
    requires t <= s
    ensures Contains(s, t)
  {
    assert s[0..|t|] == t;
    assert OccursAt(s, t, 0);
  }

  lemma TrimContained(s: string)
    ensures Contains(s, Trim(s))
  {
    SuffixContained(s, TrimStart(s));
    PrefixContained(TrimStart(s), Trim(s));
    ContainsTransitive(s, TrimStart(s), Trim(s));
  }

  // ---------- lines ----------

  function IndexFrom<T(==)>(s: seq<T>, c: T, from: nat): (r: Option<nat>)
    requires from <= |s|
    ensures r.Some? ==> from <= r.value < |s| && s[r.value] == c
    ensures r.Some? ==> forall k :: from <= k < r.value ==> s[k] != c
    ensures r.None? ==> forall k :: from <= k < |s| ==> s[k] != c
    decreases |s| - from
  {
    if from == |s| then None else if s[from] == c then Some(from) else IndexFrom(s, c, from + 1)
  }

  function IndexOf<T(==)>(s: seq<T>, c: T): (r: Option<nat>)
    ensures r.Some? ==> r.value < |s| && s[r.value] == c && c !in s[..r.value]
    ensures r.None? ==> c !in s
  {
    IndexFrom(s, c, 0)
  }

  lemma IndexOfIs<T>(s: seq<T>, c: T, i: nat)
    requires i < |s| && s[i] == c && c !in s[..i]
    ensures IndexOf(s, c) == Some(i)
  {
    assert forall k :: 0 <= k < i ==> s[k] == s[..i][k] && s[k] in s[..i];
  }

  function StripCarriageReturn(s: string): string {
    if s != "" && s[|s| - 1] == '\r' then s[..|s| - 1] else s
  }

  /** `str::lines`: a final piece without a newline is a line only when non-empty, and
      keeps its carriage return. */
  function Lines(s: string): seq<string>
    decreases |s|
  {
    if s == "" then []
    else
      match IndexOf(s, '\n')
      case None => [s]
      case Some(i) => [StripCarriageReturn(s[..i])] + Lines(s[i + 1..])
  }

  predicate Terminated(s: string) {
    s == "" || s[|s| - 1] == '\n'
  }

  lemma FirstLine(s: string, i: nat)
    requires i < |s| && s[i] == '\n' && '\n' !in s[..i]
    ensures Lines(s) == [StripCarriageReturn(s[..i])] + Lines(s[i + 1..])
  {
    IndexOfIs(s, '\n', i);
  }

  /** Appending after a newline adds lines and changes none. */
  lemma {:induction false} LinesAppend(a: string, b: string)
    requires Terminated(a)
    ensures Lines(a + b) == Lines(a) + Lines(b)
    decreases |a|
  {
    if a == "" {
      assert a + b == b;
    } else {
      assert a[|a| - 1] in a;
      var i := IndexOf(a, '\n').value;
      var rest := a[i + 1..];
      FirstLine(a, i);
      CutLine(a, b, i, rest);
      LinesAppend(rest, b);
      Regroup([StripCarriageReturn(a[..i])], Lines(rest), Lines(b));
    }
  }

  lemma Regroup<T>(x: seq<T>, y: seq<T>, z: seq<T>)
    ensures x + (y + z) == x + y + z
  {
  }

  function Unlines(lines: seq<string>): string {
    if lines == [] then "" else lines[0] + "\n" + Unlines(lines[1..])
  }

  /** Lines without a newline inside or a carriage return at the end are read back. */
  lemma {:induction false} LinesOfUnlines(lines: seq<string>)
    requires forall l :: l in lines ==> '\n' !in l && (l == "" || l[|l| - 1] != '\r')
    ensures Lines(Unlines(lines)) == lines
  {
    if lines != [] {
      var first, more := lines[0], Unlines(lines[1..]);
      assert first in lines;
      LinesOfUnlines(lines[1..]);
      var all := first + "\n" + more;
      assert all[..|first|] == first && all[|first|] == '\n' && all[|first| + 1..] == more;
      FirstLine(all, |first|);
      HeadTail(lines);
    }
  }

  /** The first line of `a + b` is that of `a`. */
  lemma CutLine(a: string, b: string, i: nat, rest: string)
    requires i < |a| && a[i] == '\n' && '\n' !in a[..i] && rest == a[i + 1..]
    ensures Lines(a + b) == [StripCarriageReturn(a[..i])] + Lines(rest + b)
  {
    assert (a + b)[..i] == a[..i] && (a + b)[i + 1..] == rest + b;
    FirstLine(a + b, i);
  }

  lemma {:induction false} LineIsContained(s: string, k: nat)
    requires k < |Lines(s)|
    ensures Contains(s, Lines(s)[k])
    decreases |s|
  {
    var lines := Lines(s);
    if '\n' !in s {
      PrefixContained(s, s);
    } else {
      var i := IndexOf(s, '\n').value;
      var rest := s[i + 1..];
      assert lines == [StripCarriageReturn(s[..i])] + Lines(rest);
      if k == 0 {
        FirstLineContained(s, i);
      } else {
        LineIsContained(rest, k - 1);
        LaterLineContained(s, rest, Lines(rest)[k - 1]);
      }
    }
  }

  lemma FirstLineContained(s: string, i: nat)
    requires i <= |s|
    ensures Contains(s, StripCarriageReturn(s[..i]))
  {
    PrefixContained(s, StripCarriageReturn(s[..i]));
  }

  lemma LaterLineContained(s: string, rest: string, line: string)
    requires |rest| <= |s| && rest == s[|s| - |rest|..] && Contains(rest, line)
    ensures Contains(s, line)
  {
    SuffixContained(s, rest);
    ContainsTransitive(s, rest, line);
  }
}
