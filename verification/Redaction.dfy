/** Redacting secrets from startup diagnostics
    (crates/agentum-server/src/host_runtime.rs). */
module Redaction {
  import opened Basics
  import opened Text

  const WORD := "REDACTED"
  const MARK := "[" + WORD + "]"
  const DIAGNOSTIC_BYTES: nat := 8192

  /** `str::replace`: left to right, without overlaps. */
  function Replace(text: string, pat: string, mark: string): string
    requires pat != ""
    decreases |text|
  {
    match Find(text, pat)
    case None => text
    case Some(i) => text[..i] + mark + Replace(text[i + |pat|..], pat, mark)
  }

  function RedactAll(text: string, secrets: seq<string>): string
    requires "" !in secrets
    decreases |secrets|
  {
    if secrets == [] then text
    else RedactAll(Replace(text, secrets[0], MARK), secrets[1..])
  }

  /** `char::is_control`: the Unicode category Cc. */
  predicate IsControl(c: char) {
    c < '\U{20}' || '\U{7F}' <= c < '\U{A0}'
  }

  predicate Kept(c: char) {
    !IsControl(c) || c == '\n' || c == '\t'
  }

  function Printable(text: string): string {
    if text == "" then ""
    else if Kept(text[0]) then [text[0]] + Printable(text[1..])
    else Printable(text[1..])
  }

  /** `len_utf8`. */
  function Utf8Length(c: char): nat {
    if c < '\U{80}' then 1 else if c < '\U{800}' then 2 else if c < '\U{10000}' then 3 else 4
  }

  function ByteLength(text: string): nat {
    if text == "" then 0 else Utf8Length(text[0]) + ByteLength(text[1..])
  }

  /** The longest prefix of at most `max` bytes that ends on a character boundary. */
  function PrefixWithin(text: string, max: nat): (r: string)
    ensures r <= text && ByteLength(r) <= max
  {
    if text == "" || Utf8Length(text[0]) > max then ""
    else
      var rest := PrefixWithin(text[1..], max - Utf8Length(text[0]));
      assert ([text[0]] + rest)[1..] == rest;
      [text[0]] + rest
  }

  function BoundedText(text: string, max: nat): string {
    if ByteLength(text) <= max then text else PrefixWithin(text, max) + "\U{2026}"
  }

  function Diagnostic(text: string, secrets: seq<string>): string
    requires "" !in secrets
  {
    BoundedText(Trim(Printable(RedactAll(text, secrets))), DIAGNOSTIC_BYTES)
  }

  // ---------- the ordering of the secrets ----------

  ghost predicate Descending<T>(s: seq<T>, size: T -> nat) {
    forall i, j :: 0 <= i < j < |s| ==> size(s[i]) >= size(s[j])
  }

  ghost predicate LongestFirst(secrets: seq<string>) {
    Descending(secrets, ByteLength)
  }

  lemma InsertedInOrder<T>(s: seq<T>, k: nat, x: T, longer: seq<T>, size: T -> nat)
    requires Descending(s, size) && k <= |s| && longer == s[..k] + [x] + s[k..]
    requires (forall i :: 0 <= i < k ==> size(s[i]) >= size(x)) && (k < |s| ==> size(s[k]) <= size(x))
    ensures Descending(longer, size)
  {
    forall i, j | 0 <= i < j < |longer| ensures size(longer[i]) >= size(longer[j]) {
      if i == k {
        assert longer[j] == s[j - 1];
        assert j - 1 > k ==> size(s[k]) >= size(s[j - 1]);
      } else if j == k {
        assert longer[i] == s[i];
      } else {
        var a, b := if i < k then i else i - 1, if j < k then j else j - 1;
        assert longer[i] == s[a] && longer[j] == s[b];
      }
    }
  }

  /** One step of the sort. */
  method Inserted(secrets: seq<string>, s: string) returns (r: seq<string>)
    requires LongestFirst(secrets)
    ensures LongestFirst(r) && multiset(r) == multiset(secrets) + multiset{s}
  {
    var k := 0;
    while k < |secrets| && ByteLength(secrets[k]) > ByteLength(s)
      invariant 0 <= k <= |secrets| && forall i :: 0 <= i < k ==> ByteLength(secrets[i]) > ByteLength(s)
    {
      k := k + 1;
    }
    assert secrets == secrets[..k] + secrets[k..];
    r := secrets[..k] + [s] + secrets[k..];
    InsertedInOrder(secrets, k, s, r, ByteLength);
  }

  /** `dedup`: of neighbours only. */
  method Deduplicated(s: seq<string>) returns (r: seq<string>)
    requires LongestFirst(s)
    ensures LongestFirst(r) && forall v :: v in r <==> v in s
  {
    r := [];
    for k := 0 to |s|
      invariant LongestFirst(r) && forall v :: v in r <==> v in s[..k]
      invariant forall v :: v in r && k < |s| ==> ByteLength(v) >= ByteLength(s[k])
    {
      assert s[..k + 1] == s[..k] + [s[k]];
      if r == [] || r[|r| - 1] != s[k] { r := r + [s[k]]; }
      forall v | v in r && k + 1 < |s| ensures ByteLength(v) >= ByteLength(s[k + 1]) {
        assert v in s[..k + 1];
        var i :| 0 <= i < k + 1 && s[i] == v;
      }
    }
    assert s[..|s|] == s;
  }

  // ---------- no later replacement brings a secret back ----------

  /** The value and the mark share no text: neither holds the other, and neither begins with
      an end of the other. */
  ghost predicate Apart(v: string, mark: string) {
    && v != "" && !Contains(mark, v) && !Contains(v, mark)
    && (forall k :: 0 < k < |mark| ==> !BeginsWithEnd(v, mark, k))
    && (forall k :: 0 < k < |mark| ==> !EndsWithStart(v, mark, k))
  }

  predicate BeginsWithEnd(v: string, mark: string, k: nat)
    requires k <= |mark|
  {
    mark[k..] <= v
  }

  predicate EndsWithStart(v: string, mark: string, k: nat)
    requires k <= |mark|
  {
    k <= |v| && v[|v| - k..] == mark[..k]
  }

  lemma PartContains(text: string, lo: nat, hi: nat, v: string)
    requires lo <= hi <= |text| && Contains(text[lo..hi], v)
    ensures Contains(text, v)
  {
    ContainsSlice(text, lo, hi);
    ContainsTransitive(text, text[lo..hi], v);
  }

  /** A value apart from the mark occurs around one only beside it. */
  lemma AroundMark(a: string, mark: string, b: string, v: string)
    requires Apart(v, mark) && Contains(a + mark + b, v)
    ensures Contains(a, v) || Contains(b, v)
  {
    var text := a + mark + b;
    var i: nat :| OccursAt(text, v, i);
    if i + |v| <= |a| {
      assert text[i..i + |v|] == a[i..i + |v|];
      assert OccursAt(a, v, i);
    } else if i >= |a| + |mark| {
      var k: nat := i - |a| - |mark|;
      assert text[i..i + |v|] == b[k..k + |v|];
      assert OccursAt(b, v, k);
    } else {
      OnMark(a, mark, b, v, i);
    }
  }

  /** An occurrence that reaches into the mark shares text with it. */
  lemma OnMark(a: string, mark: string, b: string, v: string, i: nat)
    requires OccursAt(a + mark + b, v, i) && i < |a| + |mark| && |a| < i + |v|
    ensures !Apart(v, mark)
  {
    var text := a + mark + b;
    if i >= |a| && i + |v| <= |a| + |mark| {
      assert text[i..i + |v|] == mark[i - |a|..i - |a| + |v|];
      assert OccursAt(mark, v, i - |a|);
    } else if i <= |a| && |a| + |mark| <= i + |v| {
      assert v[|a| - i..|a| - i + |mark|] == text[|a|..|a| + |mark|] == mark;
      assert OccursAt(v, mark, |a| - i);
    } else if i < |a| {
      var k := i + |v| - |a|;
      assert v[|v| - k..] == text[|a|..|a| + k] == mark[..k];
      assert EndsWithStart(v, mark, k);
    } else {
      var k := i - |a|;
      assert v[..|mark| - k] == text[i..|a| + |mark|] == mark[k..];
      assert BeginsWithEnd(v, mark, k);
    }
  }

  lemma {:induction false} ReplaceKeepsAbsent(text: string, w: string, mark: string, v: string)
    requires w != "" && Apart(v, mark) && !Contains(text, v)
    ensures !Contains(Replace(text, w, mark), v)
    decreases |text|
  {
    if Find(text, w).Some? {
      var i := Find(text, w).value;
      var rest := text[i + |w|..];
      assert rest == text[i + |w|..|text|];
      if Contains(rest, v) { PartContains(text, i + |w|, |text|, v); }
      if Contains(text[..i], v) { PartContains(text, 0, i, v); }
      ReplaceKeepsAbsent(rest, w, mark, v);
      if Contains(text[..i] + mark + Replace(rest, w, mark), v) {
        AroundMark(text[..i], mark, Replace(rest, w, mark), v);
      }
    }
  }

  lemma BeforeFirst(text: string, v: string, i: nat)
    requires v != "" && Find(text, v) == Some(i)
    ensures !Contains(text[..i], v)
  {
    if k: nat :| OccursAt(text[..i], v, k) {
      assert text[..i][k..k + |v|] == text[k..k + |v|];
      assert OccursAt(text, v, k);
    }
  }

  lemma {:induction false} ReplaceRemoves(text: string, mark: string, v: string)
    requires Apart(v, mark)
    ensures !Contains(Replace(text, v, mark), v)
    decreases |text|
  {
    if Find(text, v).Some? {
      var i := Find(text, v).value;
      var rest := text[i + |v|..];
      BeforeFirst(text, v, i);
      ReplaceRemoves(rest, mark, v);
      if Contains(text[..i] + mark + Replace(rest, v, mark), v) {
        AroundMark(text[..i], mark, Replace(rest, v, mark), v);
      }
    }
  }

  lemma {:induction false} RedactKeepsAbsent(text: string, secrets: seq<string>, v: string)
    requires "" !in secrets && Apart(v, MARK) && !Contains(text, v)
    ensures !Contains(RedactAll(text, secrets), v)
    decreases |secrets|
  {
    if secrets != [] {
      ReplaceKeepsAbsent(text, secrets[0], MARK, v);
      RedactKeepsAbsent(Replace(text, secrets[0], MARK), secrets[1..], v);
    }
  }

  /** After the loop no such secret is left, whatever the other secrets are. */
  lemma {:induction false} RedactRemoves(text: string, secrets: seq<string>, v: string)
    requires "" !in secrets && v in secrets && Apart(v, MARK)
    ensures !Contains(RedactAll(text, secrets), v)
    decreases |secrets|
  {
    if secrets[0] == v {
      ReplaceRemoves(text, MARK, v);
      RedactKeepsAbsent(Replace(text, v, MARK), secrets[1..], v);
    } else {
      RedactRemoves(Replace(text, secrets[0], MARK), secrets[1..], v);
    }
  }

  // ---------- after the loop: control characters, trimming, the bound ----------

  lemma {:induction false} PrintableIsIdentity(text: string)
    requires forall c :: c in text ==> Kept(c)
    ensures Printable(text) == text
  {
    if text != "" {
      assert text[0] in text;
      PrintableIsIdentity(text[1..]);
    }
  }

  lemma {:induction false} ReplaceKept(text: string, w: string, mark: string)
    requires w != "" && (forall c :: c in text ==> Kept(c)) && (forall c :: c in mark ==> Kept(c))
    ensures forall c :: c in Replace(text, w, mark) ==> Kept(c)
    decreases |text|
  {
    if Find(text, w).Some? {
      var i := Find(text, w).value;
      ReplaceKept(text[i + |w|..], w, mark);
    }
  }

  lemma MarkKept()
    ensures forall c :: c in MARK ==> Kept(c)
  {
  }

  lemma {:induction false} RedactKept(text: string, secrets: seq<string>)
    requires "" !in secrets && (forall c :: c in text ==> Kept(c)) && (forall c :: c in MARK ==> Kept(c))
    ensures forall c :: c in RedactAll(text, secrets) ==> Kept(c)
    decreases |secrets|
  {
    if secrets != [] {
      ReplaceKept(text, secrets[0], MARK);
      RedactKept(Replace(text, secrets[0], MARK), secrets[1..]);
    }
  }

  lemma BesideChar(a: string, c: char, v: string)
    requires v != "" && c !in v && Contains(a + [c], v)
    ensures Contains(a, v)
  {
    var i: nat :| OccursAt(a + [c], v, i);
    assert v[|v| - 1] == (a + [c])[i..i + |v|][|v| - 1] == (a + [c])[i + |v| - 1];
    assert v[|v| - 1] in v;
    assert a[i..i + |v|] == (a + [c])[i..i + |v|];
    assert OccursAt(a, v, i);
  }

  lemma BoundedContains(text: string, max: nat, v: string)
    requires v != "" && '\U{2026}' !in v && Contains(BoundedText(text, max), v)
    ensures Contains(text, v)
  {
    if ByteLength(text) > max {
      var p := PrefixWithin(text, max);
      BesideChar(p, '\U{2026}', v);
      assert p == text[0..|p|];
      PartContains(text, 0, |p|, v);
    }
  }

  /** The finished diagnostic of an output without control characters shows no secret. */
  lemma DiagnosticIsSafe(text: string, secrets: seq<string>, v: string)
    requires "" !in secrets && v in secrets && Apart(v, MARK) && '\U{2026}' !in v
    requires forall c :: c in text ==> Kept(c)
    ensures !Contains(Diagnostic(text, secrets), v)
  {
    var redacted := RedactAll(text, secrets);
    RedactRemoves(text, secrets, v);
    MarkKept();
    RedactKept(text, secrets);
    PrintableIsIdentity(redacted);
    if Contains(Diagnostic(text, secrets), v) {
      BoundedContains(Trim(redacted), DIAGNOSTIC_BYTES, v);
      TrimContained(redacted);
      ContainsTransitive(redacted, Trim(redacted), v);
    }
  }

  lemma AllHidden(output: string, order: seq<string>)
    requires "" !in order
    ensures (forall c :: c in output ==> Kept(c)) ==>
      forall v :: v in order && Hideable(v) ==> !Contains(Diagnostic(output, order), v)
  {
    if forall c :: c in output ==> Kept(c) {
      forall v | v in order && Hideable(v) ensures !Contains(Diagnostic(output, order), v) {
        DiagnosticIsSafe(output, order, v);
      }
    }
  }

  // ---------- the loop ----------

  /** A value that shares no text with what the pipeline itself writes. */
  ghost predicate Hideable(v: string) {
    Apart(v, MARK) && '\U{2026}' !in v
  }

  /** `redact_startup_output`. The environment's values and the explicit secrets come in
      one list; the empty ones are passed over, the longest go first. An output without
      control characters shows none of the hideable values. */
  method RedactStartupOutput(output: string, values: seq<string>) returns (clean: string, ghost order: seq<string>)
    ensures "" !in order && (forall v :: v in order <==> v in values && v != "")
    ensures LongestFirst(order)
    ensures clean == Diagnostic(output, order)
    ensures (forall c :: c in output ==> Kept(c)) ==>
      forall v :: v in values && Hideable(v) ==> !Contains(clean, v)
  {
    var sorted: seq<string> := [];
    for k := 0 to |values|
      invariant LongestFirst(sorted)
      invariant forall v :: v in sorted <==> v in values[..k] && v != ""
    {
      assert values[..k + 1] == values[..k] + [values[k]];
      if values[k] != "" {
        ghost var before := sorted;
        sorted := Inserted(sorted, values[k]);
        forall v ensures v in sorted <==> v in before || v == values[k] {
          assert v in sorted <==> v in multiset(sorted);
          assert v in before <==> v in multiset(before);
        }
      }
    }
    assert values[..|values|] == values;
    var secrets := Deduplicated(sorted);
    order := secrets;
    var redacted := output;
    for k := 0 to |secrets|
      invariant "" !in secrets[k..] && RedactAll(redacted, secrets[k..]) == RedactAll(output, secrets)
    {
      assert secrets[k..][1..] == secrets[k + 1..];
      redacted := Replace(redacted, secrets[k], MARK);
    }
    assert secrets[|secrets|..] == [];
    clean := BoundedText(Trim(Printable(redacted)), DIAGNOSTIC_BYTES);
    AllHidden(output, order);
  }
}
