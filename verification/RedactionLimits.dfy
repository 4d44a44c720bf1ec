/** What redaction cannot hide, exactly: after the loop, after the filter of control
    characters, and in the finished diagnostic (crates/agentum-server/src/host_runtime.rs). */
module RedactionLimits {
  import opened Basics
  import opened Text
  import opened Redaction

  /** A list as the loop gets it. */
  ghost predicate Ordered(secrets: seq<string>) {
    "" !in secrets && LongestFirst(secrets)
  }

  ghost predicate Listed(secrets: seq<string>, v: string) {
    Ordered(secrets) && v in secrets
  }

  lemma ContainsItself(v: string)
    ensures Contains(v, v)
  {
    PrefixContained(v, v);
  }

  lemma ShorterLacks(text: string, v: string)
    requires |text| < |v|
    ensures !Contains(text, v)
  {
  }

  lemma ReplaceNothing(text: string, w: string, mark: string)
    requires w != "" && !Contains(text, w)
    ensures Replace(text, w, mark) == text
  {
  }

  // ---------- after the loop ----------

  lemma ReplaceKeepsMarkPart(text: string, w: string, mark: string, v: string)
    requires w != "" && Contains(text, v) && Contains(mark, v)
    ensures Contains(Replace(text, w, mark), v)
  {
    if Find(text, w).Some? {
      var i := Find(text, w).value;
      var out := Replace(text, w, mark);
      assert out[i..i + |mark|] == mark;
      ContainsSlice(out, i, i + |mark|);
      ContainsTransitive(out, mark, v);
    }
  }

  /** A part of the mark is shown by every list: a replacement brings it back. */
  lemma {:induction false} MarkPartLeaks(text: string, secrets: seq<string>, v: string)
    requires "" !in secrets && Contains(text, v) && Contains(MARK, v)
    ensures Contains(RedactAll(text, secrets), v)
    decreases |secrets|
  {
    if secrets != [] {
      ReplaceKeepsMarkPart(text, secrets[0], MARK, v);
      MarkPartLeaks(Replace(text, secrets[0], MARK), secrets[1..], v);
    }
  }

  /** A secret that begins with an end of the mark: followed by its own rest, it is replaced
      and completed again. */
  lemma BeginningLeaks(v: string, mark: string, k: nat) returns (text: string)
    requires 0 < k < |mark| && mark[k..] <= v && !Contains(mark, v)
    ensures Contains(Replace(text, v, mark), v)
  {
    var rest := v[|mark| - k..];
    text := v + rest;
    assert text[0..|v|] == v && text[|v|..] == rest;
    FindIs(text, v, 0);
    ShorterLacks(rest, v);
    ReplaceNothing(rest, v, mark);
    var out := Replace(text, v, mark);
    assert out == text[..0] + mark + rest == mark + rest;
    assert out[k..k + |v|] == mark[k..] + rest == v;
    assert OccursAt(out, v, k);
  }

  function Repeated(c: char, n: nat): string {
    seq(n, _ => c)
  }

  lemma {:induction false} RunBytes(s: string, c: char)
    requires Utf8Length(c) == 1 && forall d :: d in s ==> d == c
    ensures ByteLength(s) == |s|
  {
    if s != "" {
      assert s[0] in s;
      forall d | d in s[1..] ensures d == c {
        assert d in s;
      }
      RunBytes(s[1..], c);
    }
  }

  lemma {:induction false} BytesAtLeast(v: string)
    ensures ByteLength(v) >= |v|
  {
    if v != "" { BytesAtLeast(v[1..]); }
  }

  lemma AtOccurrence(text: string, w: string, i: nat, k: nat)
    requires OccursAt(text, w, i) && k < |w|
    ensures text[i + k] == w[k] && w[k] in w
  {
    assert text[i..i + |w|][k] == w[k];
  }

  lemma RunChar(a: string, w: string, b: string, i: nat, c: char)
    requires |a| <= i < |a| + |w| && forall d :: d in w ==> d == c
    ensures (a + w + b)[i] == c
  {
    assert w[i - |a|] in w;
  }

  lemma FindRun(a: string, w: string, b: string, c: char)
    requires w != "" && (forall d :: d in w ==> d == c) && |a| < |w| && (a == "" || a[|a| - 1] != c)
    ensures Find(a + w + b, w) == Some(|a|)
  {
    var text := a + w + b;
    assert text[|a|..|a| + |w|] == w;
    forall k: nat | k < |a| ensures !OccursAt(text, w, k) {
      if OccursAt(text, w, k) { AtOccurrence(text, w, k, |a| - 1 - k); }
    }
    FindIs(text, w, |a|);
  }

  /** With a second secret that is replaced after `v` the mark can be put between any two
      texts that `v` is longer than. */
  lemma MarkMadeUp(v: string, a: string, w: string, b: string, mark: string, c: char)
    requires |w| == |v| && (forall d :: d in w ==> d == c) && (a == "" || a[|a| - 1] != c)
    requires |a| + |b| < |v| && v[..|a|] == a && v[|a|] != c
    ensures Replace(Replace(a + w + b, v, mark), w, mark) == a + mark + b
  {
    var text := a + w + b;
    if i: nat :| OccursAt(text, v, i) {
      AtOccurrence(text, v, i, |a|);
      RunChar(a, w, b, i + |a|, c);
    }
    ReplaceNothing(text, v, mark);
    FindRun(a, w, b, c);
    assert text[..|a|] == a && text[|a| + |w|..] == b;
    ShorterLacks(b, w);
    ReplaceNothing(b, w, mark);
  }

  /** A character of one byte that the mark does not have and the text does not end with. */
  function Filler(a: string): char {
    if a != "" && a[|a| - 1] == 'x' then 'y' else 'x'
  }

  lemma TwoSecrets(v: string, a: string, b: string, mark: string) returns (secrets: seq<string>, text: string)
    requires mark == MARK && |a| + |b| < |v| && v[..|a|] == a && v[|a|] == mark[0] && Contains(a + mark + b, v)
    ensures Listed(secrets, v) && Contains(RedactAll(text, secrets), v)
  {
    var w := Run(v, a);
    MarkMadeUp(v, a, w, b, mark, Filler(a));
    secrets, text := [v, w], a + w + b;
    TwoReplacements(text, v, w);
  }

  /** A second secret for `v`, as long as it. */
  lemma Run(v: string, a: string) returns (w: string)
    requires v != ""
    ensures |w| == |v| && (forall d :: d in w ==> d == Filler(a)) && Listed([v, w], v)
  {
    w := Repeated(Filler(a), |v|);
    RunBytes(w, Filler(a));
    BytesAtLeast(v);
  }

  lemma TwoReplacements(text: string, v: string, w: string)
    requires v != "" && w != ""
    ensures RedactAll(text, [v, w]) == Replace(Replace(text, v, MARK), w, MARK)
  {
    var once := Replace(text, v, MARK);
    assert [v, w][1..] == [w] && [w][1..] == [];
    assert RedactAll(once, [w]) == RedactAll(Replace(once, w, MARK), []);
  }

  lemma OneReplacement(text: string, v: string)
    requires v != ""
    ensures RedactAll(text, [v]) == Replace(text, v, MARK)
  {
    assert [v][1..] == [];
  }

  lemma HolderLeaks(v: string, mark: string, i: nat) returns (secrets: seq<string>, text: string)
    requires mark == MARK && OccursAt(v, mark, i)
    ensures Listed(secrets, v) && Contains(RedactAll(text, secrets), v)
  {
    AtOccurrence(v, mark, i, 0);
    var a, b := v[..i], v[i + |mark|..];
    assert a + mark + b == v;
    ContainsItself(v);
    secrets, text := TwoSecrets(v, a, b, mark);
  }

  lemma EndingLeaks(v: string, mark: string, k: nat) returns (secrets: seq<string>, text: string)
    requires mark == MARK && 0 < k < |mark| && EndsWithStart(v, mark, k)
    ensures Listed(secrets, v) && Contains(RedactAll(text, secrets), v)
  {
    var a := v[..|v| - k];
    assert v == a + mark[..k];
    assert mark == mark[..k] + mark[k..];
    assert a + mark + "" == v + mark[k..];
    PrefixContained(a + mark + "", v);
    secrets, text := TwoSecrets(v, a, "", mark);
  }

  lemma LoopLeaks(v: string, mark: string) returns (secrets: seq<string>, text: string)
    requires mark == MARK && v != "" && !Apart(v, mark)
    ensures Listed(secrets, v) && Contains(RedactAll(text, secrets), v)
  {
    if Contains(mark, v) {
      secrets, text := [v], v;
      ContainsItself(v);
      MarkPartLeaks(v, [v], v);
    } else if i: nat :| OccursAt(v, mark, i) {
      secrets, text := HolderLeaks(v, mark, i);
    } else if k :| 0 < k < |mark| && BeginsWithEnd(v, mark, k) {
      text := BeginningLeaks(v, mark, k);
      secrets := [v];
      OneReplacement(text, v);
    } else {
      var k :| 0 < k < |mark| && EndsWithStart(v, mark, k);
      secrets, text := EndingLeaks(v, mark, k);
    }
  }

  ghost predicate LoopShows(secrets: seq<string>, text: string, v: string) {
    Listed(secrets, v) && Contains(RedactAll(text, secrets), v)
  }

  /** The loop shows a secret, for some list it is in and some output, exactly when the
      secret shares text with the mark. */
  lemma LoopShowsIff(v: string)
    requires v != ""
    ensures (exists secrets, text :: LoopShows(secrets, text, v)) <==> !Apart(v, MARK)
  {
    if Apart(v, MARK) {
      forall secrets, text ensures !LoopShows(secrets, text, v) {
        if Listed(secrets, v) { RedactRemoves(text, secrets, v); }
      }
    } else {
      var secrets, text := LoopLeaks(v, MARK);
      assert LoopShows(secrets, text, v);
    }
  }

  // ---------- after the filter: the secrets that no list keeps hidden ----------

  lemma {:induction false} PrintableAppend(a: string, b: string)
    ensures Printable(a + b) == Printable(a) + Printable(b)
  {
    if a == "" {
      assert a + b == b;
    } else {
      assert (a + b)[1..] == a[1..] + b;
      PrintableAppend(a[1..], b);
    }
  }

  lemma {:induction false} PrintableKept(text: string)
    ensures forall c :: c in Printable(text) ==> Kept(c) && c in text
  {
    if text != "" {
      PrintableKept(text[1..]);
    }
  }

  /** The value with `c` put between all its characters. */
  function Spread(v: string, c: char): (r: string)
    ensures forall d :: d in r ==> d in v || d == c
    ensures forall i :: 0 <= i < |r| - 1 ==> r[i] == c || r[i + 1] == c
    ensures v != "" ==> r != "" && r[0] == v[0]
  {
    if |v| <= 1 then v else [v[0], c] + Spread(v[1..], c)
  }

  lemma {:induction false} SpreadPrints(v: string, c: char)
    requires (forall d :: d in v ==> Kept(d)) && !Kept(c)
    ensures Printable(Spread(v, c)) == v
  {
    if |v| <= 1 {
      PrintableIsIdentity(v);
    } else {
      SpreadPrints(v[1..], c);
      PrintableAppend([v[0], c], Spread(v[1..], c));
      assert v[0] in v;
      assert [v[0], c][1..] == [c] && [c][1..] == "";
      assert Printable([v[0], c]) == [v[0]];
      assert [v[0]] + v[1..] == v;
    }
  }

  /** A spread value shows no value but single characters of its own. */
  lemma SpreadHides(v: string, c: char, w: string)
    requires w != "" && c !in w && (|w| == 1 ==> w[0] !in v)
    ensures !Contains(Spread(v, c), w)
  {
    var text := Spread(v, c);
    if i: nat :| OccursAt(text, w, i) {
      AtOccurrence(text, w, i, 0);
      if |w| > 1 { AtOccurrence(text, w, i, 1); }
    }
  }

  lemma SingleContained(text: string, d: char)
    requires d in text
    ensures Contains(text, [d])
  {
    var i :| 0 <= i < |text| && text[i] == d;
    assert text[i..i + 1] == [d];
    assert OccursAt(text, [d], i);
  }

  lemma {:induction false} RedactsNothing(text: string, secrets: seq<string>)
    requires "" !in secrets && forall w :: w in secrets ==> !Contains(text, w)
    ensures RedactAll(text, secrets) == text
    decreases |secrets|
  {
    if secrets != [] {
      assert secrets[0] in secrets;
      RedactsNothing(text, secrets[1..]);
    }
  }

  lemma CharsOfPart(text: string, v: string, d: char)
    requires Contains(text, v) && d in v
    ensures d in text
  {
    var i: nat :| OccursAt(text, v, i);
    var k :| 0 <= k < |v| && v[k] == d;
    AtOccurrence(text, v, i, k);
  }

  lemma SingleApart(v: string, mark: string)
    requires |v| == 1 && |mark| > 1 && !Contains(mark, v)
    ensures Apart(v, mark)
  {
    forall k | 0 < k < |mark| ensures !BeginsWithEnd(v, mark, k) {
      ContainsSlice(mark, k, |mark|);
      assert mark[k..] == mark[k..|mark|];
      var end := mark[k..];
      assert BeginsWithEnd(v, mark, k) ==> v == end;
    }
    forall k | 0 < k < |mark| ensures !EndsWithStart(v, mark, k) {
      ContainsSlice(mark, 0, k);
      assert mark[..k] == mark[0..k];
      var start := mark[..k];
      assert EndsWithStart(v, mark, k) ==> v == start;
    }
  }

  /** What cannot come through: a value with a control character of its own, and a single
      character that the mark does not have. */
  ghost predicate Solid(v: string) {
    (exists c :: c in v && !Kept(c)) || (|v| == 1 && !Contains(MARK, v))
  }

  lemma SolidStaysHidden(text: string, secrets: seq<string>, v: string, shown: string)
    requires Listed(secrets, v) && Solid(v)
    requires forall c :: c in shown ==> c in Printable(RedactAll(text, secrets)) || (c == '\U{2026}' && v != [c])
    ensures !Contains(shown, v)
  {
    var redacted := RedactAll(text, secrets);
    PrintableKept(redacted);
    if Contains(shown, v) {
      if c :| c in v && !Kept(c) {
        CharsOfPart(shown, v, c);
      } else {
        assert v == [v[0]];
        CharsOfPart(shown, v, v[0]);
        SingleContained(redacted, v[0]);
        SingleApart(v, MARK);
        RedactRemoves(text, secrets, v);
      }
    }
  }

  lemma MarkAlone(v: string, mark: string)
    requires v != ""
    ensures Replace(v, v, mark) == mark
  {
    assert v[0..|v|] == v;
    FindIs(v, v, 0);
    assert v[..0] + mark + "" == mark;
  }

  lemma AloneShows(v: string) returns (text: string)
    requires v != "" && !Solid(v)
    ensures Contains(Printable(RedactAll(text, [v])), v)
  {
    OneReplacement(v, v);
    MarkAlone(v, MARK);
    MarkKept();
    PrintableIsIdentity(MARK);
    text := v;
    if |v| > 1 {
      text := Spread(v, '\0');
      SpreadHides(v, '\0', v);
      RedactsNothing(text, [v]);
      SpreadPrints(v, '\0');
      ContainsItself(v);
    }
  }

  ghost predicate FilterShows(secrets: seq<string>, text: string, v: string) {
    Listed(secrets, v) && Contains(Printable(RedactAll(text, secrets)), v)
  }

  /** After the filter a secret is shown, for some list it is in and some output, exactly
      when it has no control character and is no single character outside the mark: one that
      is longer comes through when control characters stand between its characters. Being
      the only secret makes no difference. */
  lemma SplitSecretIff(v: string)
    requires v != ""
    ensures (exists secrets, text :: FilterShows(secrets, text, v)) <==> !Solid(v)
    ensures (exists text :: FilterShows([v], text, v)) <==> !Solid(v)
  {
    if Solid(v) {
      forall secrets, text ensures !FilterShows(secrets, text, v) {
        if Listed(secrets, v) { SolidStaysHidden(text, secrets, v, Printable(RedactAll(text, secrets))); }
      }
    } else {
      var text := AloneShows(v);
      assert FilterShows([v], text, v);
    }
  }

  /** A character that is a secret by itself comes back with a mark: a value that ends in a
      bracket, next to the bracket as a secret. */
  lemma BracketComesBack(a: char)
    requires Kept(a) && a != '['
    ensures FilterShows([[a, '['], "["], [a, '\0', '['], [a, '['])
  {
    var text, v := [a, '\0', '['], [a, '['];
    BytesAtLeast(v);
    OneByteFirst(v);
    SpreadPair(a, text, v);
    ReplaceNothing(text, v, MARK);
    TwoReplacements(text, v, "[");
    BracketReplaced(a, text, MARK);
    BracketPrinted(a, MARK, [a, '\0'] + MARK, v);
  }

  lemma OneByteFirst(v: string)
    requires v != ""
    ensures Ordered([v, "["])
  {
    BytesAtLeast(v);
    assert "["[1..] == "";
    assert ByteLength("[") == 1;
  }

  lemma SpreadPair(a: char, text: string, v: string)
    requires text == [a, '\0', '['] && v == [a, '['] && a != '[' && a != '\0'
    ensures !Contains(text, v)
  {
    forall i: nat ensures !OccursAt(text, v, i) {
      assert i + 2 <= 3 ==> text[i..i + 2][1] == text[i + 1] && text[i..i + 2][0] == text[i];
    }
  }

  lemma BracketReplaced(a: char, text: string, mark: string)
    requires text == [a, '\0', '['] && a != '['
    ensures Replace(text, "[", mark) == [a, '\0'] + mark
  {
    assert text[2..3] == "[";
    NotAt(text, "[", 0);
    NotAt(text, "[", 1);
    FindIs(text, "[", 2);
    assert text[..2] == [a, '\0'] && text[3..] == "";
    ShorterLacks("", "[");
  }

  lemma BracketPrinted(a: char, mark: string, out: string, v: string)
    requires mark == MARK && out == [a, '\0'] + mark && Kept(a) && v == [a, '[']
    ensures Contains(Printable(out), v)
  {
    MarkKept();
    PrintableIsIdentity(mark);
    PrintableAppend([a, '\0'], mark);
    assert [a, '\0'][1..] == ['\0'] && ['\0'][1..] == "";
    assert Printable([a, '\0']) == [a];
    assert ([a] + mark)[..2] == v;
    PrefixContained([a] + mark, v);
  }

  // ---------- the finished diagnostic ----------

  lemma {:induction false} BytesAppend(a: string, b: string)
    ensures ByteLength(a + b) == ByteLength(a) + ByteLength(b)
  {
    if a == "" {
      assert a + b == b;
    } else {
      assert (a + b)[1..] == a[1..] + b;
      BytesAppend(a[1..], b);
    }
  }

  lemma {:induction false} PrefixReaches(a: string, text: string, max: nat)
    requires a <= text && ByteLength(a) <= max
    ensures a <= PrefixWithin(text, max)
  {
    if a != "" {
      assert a[1..] <= text[1..];
      PrefixReaches(a[1..], text[1..], max - Utf8Length(text[0]));
      HeadTail(a);
    }
  }

  lemma PrefixWithinIs(a: string, text: string, max: nat)
    requires a <= text && ByteLength(a) == max
    ensures PrefixWithin(text, max) == a
  {
    var p := PrefixWithin(text, max);
    PrefixReaches(a, text, max);
    assert p == a + p[|a|..];
    BytesAppend(a, p[|a|..]);
    BytesAtLeast(p[|a|..]);
  }

  /** The value without a final ellipsis, which the bound may supply. */
  function Body(v: string): (u: string)
    requires v != ""
    ensures v == u || v == u + "\U{2026}"
    ensures forall c :: c in u ==> c in v
  {
    if v[|v| - 1] == '\U{2026}' then v[..|v| - 1] else v
  }

  /** The bound leaves room for the value, and for a character before one that starts with
      whitespace. */
  predicate Fits(u: string) {
    u == "" || ByteLength(u) + (if IsWhitespace(u[0]) then 1 else 0) <= DIAGNOSTIC_BYTES
  }

  ghost predicate DiagnosticShows(secrets: seq<string>, text: string, v: string) {
    Listed(secrets, v) && Contains(Diagnostic(text, secrets), v)
  }

  lemma ShownChars(printed: string)
    ensures forall c :: c in BoundedText(Trim(printed), DIAGNOSTIC_BYTES) ==> c in printed || c == '\U{2026}'
  {
    forall c | c in Trim(printed) ensures c in printed {
      TrimContained(printed);
      CharsOfPart(printed, Trim(printed), c);
    }
  }

  /** What stands in a prefix that fits, at whatever place, fits. */
  lemma PartFits(q: string, u: string, i: nat)
    requires OccursAt(q, u, i) && ByteLength(q) <= DIAGNOSTIC_BYTES && (q != "" ==> !IsWhitespace(q[0]))
    ensures Fits(u)
  {
    if u != "" {
      assert q == q[..i] + u + q[i + |u|..];
      BytesAppend(q[..i] + u, q[i + |u|..]);
      BytesAppend(q[..i], u);
      BytesAtLeast(q[..i]);
      AtOccurrence(q, u, i, 0);
    }
  }

  lemma TrimStartsWell(s: string)
    ensures Trim(s) != "" ==> !IsWhitespace(Trim(s)[0])
  {
  }

  lemma ShownFits(text: string, v: string, max: nat)
    requires v != "" && max == DIAGNOSTIC_BYTES && Contains(BoundedText(Trim(text), max), v)
    ensures Fits(Body(v))
  {
    TrimStartsWell(text);
    var i: nat :| OccursAt(BoundedText(Trim(text), max), v, i);
    BodyOccurs(Trim(text), v, i, max);
    if ByteLength(Trim(text)) <= max {
      PartFits(Trim(text), Body(v), i);
    } else {
      PartFits(PrefixWithin(Trim(text), max), Body(v), i);
    }
  }

  lemma PartOfCut(q: string, e: char, u: string, v: string, i: nat)
    requires v != "" && OccursAt(q + [e], v, i) && if v[|v| - 1] == e then v == u + [e] else v == u
    ensures OccursAt(q, u, i)
  {
    var cut := q + [e];
    AtOccurrence(cut, v, i, |v| - 1);
    assert i + |u| <= |q|;
    assert q[i..i + |u|] == cut[i..i + |u|];
    assert cut[i..i + |u|] == cut[i..i + |v|][..|u|] == v[..|u|] == u;
  }

  lemma PartOfWhole(q: string, u: string, v: string, i: nat)
    requires OccursAt(q, v, i) && u <= v
    ensures OccursAt(q, u, i)
  {
    assert q[i..i + |u|] == q[i..i + |v|][..|u|];
  }

  lemma BodyOccurs(w: string, v: string, i: nat, max: nat)
    requires v != "" && OccursAt(BoundedText(w, max), v, i)
    ensures OccursAt(if ByteLength(w) <= max then w else PrefixWithin(w, max), Body(v), i)
  {
    if ByteLength(w) <= max {
      PartOfWhole(w, Body(v), v, i);
    } else {
      PartOfCut(PrefixWithin(w, max), '\U{2026}', Body(v), v, i);
    }
  }

  predicate Fill(s: string) {
    forall c :: c in s ==> c == 'x'
  }

  lemma FilledTrim(front: string, u: string, back: string)
    requires Fill(front) && Fill(back) && back != ""
    requires front == "" && u != "" ==> !IsWhitespace(u[0])
    ensures Trim(front + u + back) == front + u + back
  {
    var text := front + u + back;
    assert text[|text| - 1] == back[|back| - 1] && back[|back| - 1] in back && back[0] in back;
    if front != "" {
      assert text[0] == front[0] && front[0] in front;
    } else if u != "" {
      assert text[0] == u[0];
    } else {
      assert text[0] == back[0];
    }
    TrimIsIdentity(text);
  }

  lemma CutAfter(a: string, back: string, max: nat)
    requires ByteLength(a) == max && back != ""
    ensures BoundedText(a + back, max) == a + "\U{2026}"
  {
    BytesAppend(a, back);
    BytesAtLeast(back);
    PrefixWithinIs(a, a + back, max);
  }

  /** A text that is cut right behind the value, or behind what the ellipsis completes. */
  lemma CutShows(front: string, u: string, back: string, v: string, max: nat)
    requires Fill(front) && Fill(back) && back != "" && ByteLength(front) + ByteLength(u) == max
    requires front == "" && u != "" ==> !IsWhitespace(u[0])
    requires v == u || v == u + "\U{2026}"
    ensures Contains(BoundedText(Trim(front + u + back), max), v)
  {
    BytesAppend(front, u);
    FilledTrim(front, u, back);
    CutAfter(front + u, back, max);
    BodyShows(front, u, v);
  }

  lemma Filled(u: string, v: string, max: nat, back: string) returns (printed: string)
    requires (v == u || v == u + "\U{2026}") && ByteLength(u) <= max && Fill(back) && back != ""
    requires ByteLength(u) == max && u != "" ==> !IsWhitespace(u[0])
    ensures Contains(BoundedText(Trim(printed), max), v)
    ensures forall c :: c in printed ==> c in u || c == 'x'
  {
    var front := Repeated('x', max - ByteLength(u));
    RunBytes(front, 'x');
    printed := front + u + back;
    CutShows(front, u, back, v, max);
  }

  /** Between fillers, a value that fits and has no control character is shown. */
  lemma LongShows(v: string, max: nat) returns (text: string)
    requires v != "" && (forall c :: c in v ==> Kept(c)) && Fits(Body(v)) && max == DIAGNOSTIC_BYTES
    requires |v| > 1 || v == "\U{2026}"
    ensures DiagnosticShows([v], text, v)
  {
    var u := Body(v);
    var printed := Filled(u, v, max, "x");
    FilledKept(u, v, printed);
    text := Spread(printed, '\0');
    ComesThrough(printed, v);
  }

  lemma FilledKept(u: string, v: string, printed: string)
    requires v != "" && (|v| > 1 || v == "\U{2026}") && u == Body(v)
    requires (forall c :: c in v ==> Kept(c)) && forall c :: c in printed ==> c in u || c == 'x'
    ensures (forall c :: c in printed ==> Kept(c)) && '\0' !in v && (|v| == 1 ==> v[0] !in printed)
  {
    assert Kept('x') && !Kept('\0');
    forall c | c in printed ensures Kept(c) {
    }
  }

  lemma BodyShows(front: string, u: string, v: string)
    requires v == u || v == u + "\U{2026}"
    ensures Contains(front + u + "\U{2026}", v)
  {
    var shown := front + u + "\U{2026}";
    assert shown[|front|..|front| + |v|] == v;
    assert OccursAt(shown, v, |front|);
  }

  lemma ComesThrough(printed: string, v: string)
    requires (forall c :: c in printed ==> Kept(c)) && v != "" && '\0' !in v && (|v| == 1 ==> v[0] !in printed)
    ensures Diagnostic(Spread(printed, '\0'), [v]) == BoundedText(Trim(printed), DIAGNOSTIC_BYTES)
  {
    SpreadHides(printed, '\0', v);
    RedactsNothing(Spread(printed, '\0'), [v]);
    SpreadPrints(printed, '\0');
  }

  lemma MarkHasNoBlank()
    ensures forall c :: c in MARK ==> !IsWhitespace(c)
  {
  }

  lemma MarkDiagnostic(v: string, mark: string)
    requires mark == MARK && v != ""
    ensures Diagnostic(v, [v]) == mark
  {
    OneReplacement(v, v);
    MarkAlone(v, mark);
    MarkKept();
    MarkHasNoBlank();
    MarkIsShort();
    ComesThroughWhole(mark, DIAGNOSTIC_BYTES);
  }

  lemma ComesThroughWhole(text: string, max: nat)
    requires (forall c :: c in text ==> Kept(c) && !IsWhitespace(c)) && ByteLength(text) <= max
    ensures BoundedText(Trim(Printable(text)), max) == text
  {
    PrintableIsIdentity(text);
    assert text != "" ==> text[0] in text && text[|text| - 1] in text;
    TrimIsIdentity(text);
  }

  lemma MarkIsShort()
    ensures ByteLength(MARK) <= DIAGNOSTIC_BYTES
  {
    BytesAtMost(MARK);
  }

  lemma {:induction false} BytesAtMost(v: string)
    ensures ByteLength(v) <= 4 * |v|
  {
    if v != "" { BytesAtMost(v[1..]); }
  }

  /** The finished diagnostic shows a secret, for some list it is in and some output, exactly
      when it fits, has no control character, and is no single character but one of the mark
      or the ellipsis. Being the only secret makes no difference. */
  lemma DiagnosticShowsIff(v: string)
    requires v != ""
    ensures (exists secrets, text :: DiagnosticShows(secrets, text, v))
      <==> Fits(Body(v)) && (!Solid(v) || v == "\U{2026}")
    ensures (exists text :: DiagnosticShows([v], text, v))
      <==> Fits(Body(v)) && (!Solid(v) || v == "\U{2026}")
  {
    if Fits(Body(v)) && (!Solid(v) || v == "\U{2026}") {
      var text := SomeOutputShows(v, MARK);
      assert DiagnosticShows([v], text, v);
    } else {
      forall secrets, text ensures !DiagnosticShows(secrets, text, v) {
        if Listed(secrets, v) { StaysUnshown(secrets, text, v); }
      }
    }
  }

  lemma ShownIsKept(v: string)
    requires !Solid(v) || v == "\U{2026}"
    ensures forall c :: c in v ==> Kept(c)
  {
    assert Kept('\U{2026}');
  }

  lemma SomeOutputShows(v: string, mark: string) returns (text: string)
    requires mark == MARK && v != "" && Fits(Body(v)) && (!Solid(v) || v == "\U{2026}")
    ensures DiagnosticShows([v], text, v)
  {
    if |v| > 1 || v == "\U{2026}" {
      ShownIsKept(v);
      text := LongShows(v, DIAGNOSTIC_BYTES);
    } else {
      text := v;
      MarkDiagnostic(v, mark);
      assert Contains(mark, v);
    }
  }

  lemma StaysUnshown(secrets: seq<string>, text: string, v: string)
    requires Listed(secrets, v) && !(Fits(Body(v)) && (!Solid(v) || v == "\U{2026}"))
    ensures !Contains(Diagnostic(text, secrets), v)
  {
    var printed := Printable(RedactAll(text, secrets));
    if Solid(v) && v != "\U{2026}" {
      ShownChars(printed);
      SolidStaysHidden(text, secrets, v, Diagnostic(text, secrets));
    } else if Contains(Diagnostic(text, secrets), v) {
      ShownFits(printed, v, DIAGNOSTIC_BYTES);
    }
  }
}
