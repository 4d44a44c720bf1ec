/** Finding a file's bytes in the output of the remote probe
    (crates/agentum-server/src/host_runtime.rs). A byte is a `char` below 256. */
module FileProbe {
  import opened Basics
  import opened Text
  import opened Decimal

  const MISSING := "AGENTUM_FILE_MISSING\n"
  const PRESENT := "AGENTUM_FILE_PRESENT\t"
  const USIZE_MAX: nat := 0xFFFF_FFFF_FFFF_FFFF

  datatype Probe = Missing | Present(content: string)

  predicate Ascii(s: string) {
    forall c :: c in s ==> c < '\U{80}'
  }

  /** The size field: text, trimmed, a `usize`. */
  function ParseSize(field: string): Option<nat> {
    if Ascii(field) then ParseUnsigned(Trim(field), USIZE_MAX) else None
  }

  /** What follows the PRESENT marker: the size, a newline, and at least that many bytes.
      `None` is an early return of nothing; `Some(None)` lets the MISSING test decide. */
  function AfterMarker(rest: string, offset: nat): Option<Option<string>> {
    match IndexOf(rest, '\n')
    case None => None
    case Some(newline) =>
      match ParseSize(rest[..newline])
      case None => None
      case Some(size) =>
        if offset + newline + 1 + size > USIZE_MAX then None
        else if newline + 1 + size <= |rest| then Some(Some(rest[newline + 1..newline + 1 + size]))
        else Some(None)
  }

  function MissingTest(stdout: string): Option<Probe> {
    if Find(stdout, MISSING).Some? then Some(Missing) else None
  }

  function ParseRemoteFileProbe(stdout: string): Option<Probe> {
    match Find(stdout, PRESENT)
    case None => MissingTest(stdout)
    case Some(p) =>
      match AfterMarker(stdout[p + |PRESENT|..], p + |PRESENT|)
      case None => None
      case Some(Some(content)) => Some(Present(content))
      case Some(None) => MissingTest(stdout)
  }

  // ---------- the marker cannot straddle ----------

  /** A marker whose last byte occurs nowhere else in it cannot begin inside the noise and
      end inside itself. */
  lemma NoStraddle(noise: string, marker: string, rest: string)
    requires marker != "" && marker[|marker| - 1] !in marker[..|marker| - 1]
    requires !Contains(noise, marker)
    ensures Find(noise + marker + rest, marker) == Some(|noise|)
  {
    var text := noise + marker + rest;
    var m := |marker|;
    assert text[|noise|..|noise| + m] == marker;
    forall k: nat | k < |noise| ensures !OccursAt(text, marker, k) {
      if k + m <= |noise| {
        assert text[k..k + m] == noise[k..k + m];
        assert !OccursAt(noise, marker, k);
      } else {
        // The last byte of an occurrence here would lie inside the marker that follows.
        var at := k + m - 1 - |noise|;
        assert marker[at] == marker[..m - 1][at] && marker[at] in marker[..m - 1];
        assert text[k..k + m][m - 1] == text[|noise| + at] == marker[at];
      }
    }
    FindIs(text, marker, |noise|);
  }

  lemma PresentEndsOnce()
    ensures PRESENT[|PRESENT| - 1] !in PRESENT[..|PRESENT| - 1]
  {
  }

  // ---------- framing ----------

  ghost predicate Pad(pad: string) {
    Blank(pad) && '\n' !in pad && Ascii(pad)
  }

  lemma PrintIsPlain(size: nat)
    ensures var digits := Print(size);
      && !IsWhitespace(digits[0]) && !IsWhitespace(digits[|digits| - 1])
      && forall c :: c in digits ==> c < '\U{80}' && c != '\n'
  {
    var digits := Print(size);
    assert digits[0] in digits && digits[|digits| - 1] in digits;
  }

  /** `wc -c` may pad its number; the printed size is read back. */
  lemma PaddedSizeParses(left: string, size: nat, right: string)
    requires Pad(left) && Pad(right) && size <= USIZE_MAX
    ensures ParseSize(left + Print(size) + right) == Some(size)
    ensures '\n' !in left + Print(size) + right
  {
    var digits := Print(size);
    PrintIsPlain(size);
    PlainField(left, digits, right);
    TrimOfBetween(left + digits + right, left, digits, right);
    ParsePrint(size, USIZE_MAX);
  }

  lemma PlainField(left: string, digits: string, right: string)
    requires Pad(left) && Pad(right) && forall c :: c in digits ==> c < '\U{80}' && c != '\n'
    ensures Ascii(left + digits + right) && '\n' !in left + digits + right
  {
  }

  lemma CutAtNewline(field: string, bytes: string, rest: string)
    requires '\n' !in field && rest == field + "\n" + bytes
    ensures IndexOf(rest, '\n') == Some(|field|) && rest[..|field|] == field
    ensures |rest| == |field| + 1 + |bytes| && rest[|field| + 1..] == bytes
  {
    assert rest[..|field|] == field;
    IndexOfIs(rest, '\n', |field|);
  }

  lemma SliceOfTail(rest: string, from: nat, bytes: string, size: nat)
    requires from <= |rest| && rest[from..] == bytes && size <= |bytes|
    ensures rest[from..from + size] == bytes[..size]
  {
  }

  /** What `AfterMarker` makes of a size line followed by bytes. */
  lemma AfterSizeLine(field: string, size: nat, bytes: string, offset: nat, rest: string)
    requires '\n' !in field && ParseSize(field) == Some(size) && rest == field + "\n" + bytes
    requires offset + |field| + 1 + size <= USIZE_MAX
    ensures AfterMarker(rest, offset) == if size <= |bytes| then Some(Some(bytes[..size])) else Some(None)
  {
    CutAtNewline(field, bytes, rest);
    if size <= |bytes| {
      SliceOfTail(rest, |field| + 1, bytes, size);
    }
  }

  ghost predicate Framed(noise: string, left: string, size: nat, right: string) {
    && !Contains(noise, PRESENT) && Pad(left) && Pad(right)
    && |noise| + |PRESENT| + |left| + |Print(size)| + |right| + 1 + size <= USIZE_MAX
  }

  function Frame(noise: string, left: string, size: nat, right: string, bytes: string): string {
    noise + PRESENT + (left + Print(size) + right + "\n" + bytes)
  }

  lemma FrameIsFound(noise: string, marker: string, rest: string)
    requires marker == PRESENT && !Contains(noise, marker)
    ensures Find(noise + marker + rest, marker) == Some(|noise|)
    ensures (noise + marker + rest)[|noise| + |marker|..] == rest
  {
    PresentEndsOnce();
    NoStraddle(noise, marker, rest);
  }

  /** A marker, a size and that many bytes give exactly those bytes, whatever they are and
      whatever comes after; with fewer bytes only the MISSING marker is left to look for. */
  lemma FramedOutput(noise: string, left: string, size: nat, right: string, bytes: string)
    requires Framed(noise, left, size, right)
    ensures ParseRemoteFileProbe(Frame(noise, left, size, right, bytes)) ==
      if size <= |bytes| then Some(Present(bytes[..size]))
      else MissingTest(Frame(noise, left, size, right, bytes))
  {
    var field := left + Print(size) + right;
    PaddedSizeParses(left, size, right);
    AfterSizeLine(field, size, bytes, |noise| + |PRESENT|, field + "\n" + bytes);
    FrameIsFound(noise, PRESENT, field + "\n" + bytes);
  }

  /** The round trip: noise, header, content, trailer. */
  lemma RoundTrip(noise: string, left: string, right: string, content: string, trailer: string)
    requires Framed(noise, left, |content|, right)
    ensures ParseRemoteFileProbe(Frame(noise, left, |content|, right, content + trailer)) == Some(Present(content))
  {
    FramedOutput(noise, left, |content|, right, content + trailer);
    assert (content + trailer)[..|content|] == content;
  }

  /** Cut-off content that happens to hold the MISSING marker reads as a missing file, and
      only such output does. */
  lemma TruncatedReadsMissingIff(noise: string, left: string, size: nat, right: string, bytes: string)
    requires Framed(noise, left, size, right) && |bytes| < size
    ensures var out := Frame(noise, left, size, right, bytes);
      (ParseRemoteFileProbe(out) == Some(Missing) <==> Contains(out, MISSING))
      && (ParseRemoteFileProbe(out).None? <==> !Contains(out, MISSING))
  {
    FramedOutput(noise, left, size, right, bytes);
  }

  /** A header that never ends, or whose size has a character no number has, is refused,
      whatever else the output holds. */
  lemma MalformedHeader(noise: string, rest: string)
    requires !Contains(noise, PRESENT)
    requires '\n' !in rest || NoNumber(rest[..IndexOf(rest, '\n').value])
    ensures ParseRemoteFileProbe(noise + PRESENT + rest) == None
  {
    FrameIsFound(noise, PRESENT, rest);
    if '\n' in rest {
      NoNumberParses(rest[..IndexOf(rest, '\n').value]);
    }
  }

  ghost predicate NoNumber(field: string) {
    exists c :: c in field && !IsDigit(c) && !IsWhitespace(c) && c != '+'
  }

  lemma TrimKeeps(s: string, c: char)
    requires c in s && !IsWhitespace(c)
    ensures c in Trim(s)
  {
    var lead := TrimStartLeaves(s);
    var tail := TrimEndLeaves(TrimStart(s));
    InSum(s, lead, TrimStart(s), c);
    InSum(TrimStart(s), Trim(s), tail, c);
  }

  lemma InSum(all: string, a: string, b: string, c: char)
    requires all == a + b && c in all
    ensures c in a || c in b
  {
  }

  lemma NoDigits(t: string, c: char, max: nat)
    requires c in t && !IsDigit(c) && c != '+'
    ensures ParseUnsigned(t, max) == None
  {
    if t[0] == '+' {
      InSum(t, t[..1], t[1..], c);
    }
  }

  lemma NoNumberParses(field: string)
    requires NoNumber(field)
    ensures ParseSize(field) == None
  {
    var c :| c in field && !IsDigit(c) && !IsWhitespace(c) && c != '+';
    TrimKeeps(field, c);
    NoDigits(Trim(field), c, USIZE_MAX);
  }

  /** Without the PRESENT marker the answer is the MISSING marker's alone. */
  lemma MissingOutput(noise: string, trailer: string)
    requires !Contains(noise + MISSING + trailer, PRESENT)
    ensures ParseRemoteFileProbe(noise + MISSING + trailer) == Some(Missing)
  {
    var out := noise + MISSING + trailer;
    assert out[|noise|..|noise| + |MISSING|] == MISSING;
    assert OccursAt(out, MISSING, |noise|);
  }
}
