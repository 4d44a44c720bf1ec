/** What a startup diagnostic keeps of the output (crates/agentum-server/src/host_runtime.rs). */
module RedactionOutput {
  import opened Basics
  import opened Text
  import opened Redaction
  import opened RedactionLimits

  /** A line feed, a tab, or no control character. */
  predicate Plain(c: char) {
    c == '\n' || c == '\t' || (' ' <= c && !('\U{7F}' <= c <= '\U{9F}'))
  }

  predicate Stays(c: char, i: nat, d: char) {
    c == d && Plain(c)
  }

  /** Filtering keeps the plain characters, in order, and drops the others. */
  lemma {:induction false} PrintablePicks(text: string) returns (at: seq<nat>)
    ensures Picked(text, at, Printable(text), Stays, Plain)
  {
    at := [];
    var kept := "";
    assert text[..0] == "" && Printable("") == "";
    for k := 0 to |text|
      invariant kept == Printable(text[..k]) && Picked(text[..k], at, kept, Stays, Plain)
    {
      assert text[..k + 1] == text[..k] + [text[k]];
      PrintableSnoc(text[..k], text[k]);
      PickedSnoc(text, k, at, kept, Stays, Plain, text[k]);
      if Plain(text[k]) {
        kept, at := kept + [text[k]], at + [k];
      }
    }
    assert text[..|text|] == text;
  }

  lemma PrintableSnoc(text: string, c: char)
    ensures Printable(text + [c]) == if Plain(c) then Printable(text) + [c] else Printable(text)
  {
    PrintableAppend(text, [c]);
    assert [c][1..] == "";
  }

  /** What `max` bytes leave of a text: all of it, or the longest prefix and an ellipsis. */
  ghost predicate Cut(text: string, max: nat, r: string) {
    if ByteLength(text) <= max then r == text
    else exists p: string :: EndsIn(text, max, p, r)
  }

  ghost predicate EndsIn(text: string, max: nat, p: string, r: string) {
    && p <= text && r == p + "\U{2026}" && ByteLength(p) <= max
    && forall q: string :: q <= text && ByteLength(q) <= max ==> |q| <= |p|
  }

  lemma BoundedIsCut(text: string, max: nat)
    ensures Cut(text, max, BoundedText(text, max))
  {
    if ByteLength(text) > max {
      forall q: string | q <= text && ByteLength(q) <= max ensures |q| <= |PrefixWithin(text, max)| {
        PrefixReaches(q, text, max);
      }
      assert EndsIn(text, max, PrefixWithin(text, max), BoundedText(text, max));
    }
  }

  /** After the replacements: the plain characters in order, without the blanks at both ends,
      and of a long text as many characters as 8192 bytes hold. */
  ghost predicate Finishes(redacted: string, at: seq<nat>, plain: string, trimmed: string, r: string) {
    Picked(redacted, at, plain, Stays, Plain) && IsTrimOf(plain, trimmed) && Cut(trimmed, 8192, r)
  }

  lemma DiagnosticFinishes(text: string, secrets: seq<string>) returns (at: seq<nat>, plain: string, trimmed: string)
    requires "" !in secrets
    ensures Finishes(RedactAll(text, secrets), at, plain, trimmed, Diagnostic(text, secrets))
  {
    var redacted := RedactAll(text, secrets);
    at := PrintablePicks(redacted);
    plain := Printable(redacted);
    trimmed := Trim(plain);
    TrimIff(plain, trimmed);
    BoundedIsCut(trimmed, DIAGNOSTIC_BYTES);
  }

  lemma {:induction false} NothingRedacted(text: string, secrets: seq<string>)
    requires "" !in secrets && forall s :: s in secrets ==> !Contains(text, s)
    ensures RedactAll(text, secrets) == text
    decreases |secrets|
  {
    if secrets != [] {
      assert secrets[0] in secrets && Find(text, secrets[0]).None?;
      NothingRedacted(text, secrets[1..]);
    }
  }

  /** Harmless output is shown as it is. */
  lemma HarmlessIsShown(text: string, secrets: seq<string>)
    requires "" !in secrets && forall s :: s in secrets ==> !Contains(text, s)
    requires (forall c :: c in text ==> Plain(c)) && BareEnds(text) && ByteLength(text) <= 8192
    ensures Diagnostic(text, secrets) == text
  {
    NothingRedacted(text, secrets);
    forall c | c in text ensures Kept(c) {
      PlainIsKept(c);
    }
    PrintableIsIdentity(text);
    TrimIsIdentity(text);
    Composed(text, secrets, DIAGNOSTIC_BYTES);
  }

  lemma PlainIsKept(c: char)
    ensures Plain(c) <==> Kept(c)
  {
  }

  lemma Composed(text: string, secrets: seq<string>, max: nat)
    requires "" !in secrets && max == DIAGNOSTIC_BYTES
    requires RedactAll(text, secrets) == text && Printable(text) == text && Trim(text) == text && ByteLength(text) <= max
    ensures Diagnostic(text, secrets) == text
  {
  }

  /** Every occurrence of a secret, from left to right, becomes the mark. */
  lemma OccurrenceIsMarked(a: string, s: string, b: string)
    requires s != "" && Find(a + s + b, s) == Some(|a|)
    ensures RedactAll(a + s + b, [s]) == a + "[REDACTED]" + RedactAll(b, [s])
  {
    var text := a + s + b;
    assert text[..|a|] == a && text[|a| + |s|..] == b;
    assert [s][1..] == [];
    assert MARK == "[REDACTED]";
  }
}
