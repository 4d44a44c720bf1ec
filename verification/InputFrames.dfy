/** The newline-framed hex protocol of the remote input writer
    (crates/agentum-server/src/host_runtime.rs). */
module InputFrames {
  import opened Basics

  newtype byte = x: int | 0 <= x < 256

  const FRAME_BYTES: nat := 64

  function HexDigit(n: nat): (c: char)
    requires n < 16
    ensures c != ' ' && c != '\n'
  {
    if n < 10 then (n + 48) as char else (n + 87) as char
  }

  /** `{byte:02x}`. */
  function Pair(b: byte): string {
    [HexDigit((b as int / 16) as nat), HexDigit((b as int % 16) as nat)]
  }

  /** The rest of a line, after its first byte. */
  function Tail(chunk: seq<byte>): (s: string)
    ensures |s| == 3 * |chunk|
    ensures '\n' !in s
  {
    if chunk == [] then [] else [' '] + Pair(chunk[0]) + Tail(chunk[1..])
  }

  function Line(chunk: seq<byte>): (s: string)
    requires chunk != []
    ensures |s| == 3 * |chunk| - 1
    ensures '\n' !in s
  {
    Pair(chunk[0]) + Tail(chunk[1..])
  }

  /** `chunks(64)`. */
  function Chunks(bytes: seq<byte>): (cs: seq<seq<byte>>)
    ensures forall k :: 0 <= k < |cs| ==> 1 <= |cs[k]| <= FRAME_BYTES
    ensures |cs| == (|bytes| + FRAME_BYTES - 1) / FRAME_BYTES
  {
    if bytes == [] then []
    else if |bytes| <= FRAME_BYTES then [bytes]
    else [bytes[..FRAME_BYTES]] + Chunks(bytes[FRAME_BYTES..])
  }

  function Frames(chunks: seq<seq<byte>>): string
    requires forall k :: 0 <= k < |chunks| ==> chunks[k] != []
  {
    if chunks == [] then [] else Line(chunks[0]) + ['\n'] + Frames(chunks[1..])
  }

  function Encode(bytes: seq<byte>): string {
    Frames(Chunks(bytes))
  }

  lemma {:induction false} TailSnoc(chunk: seq<byte>, b: byte)
    ensures Tail(chunk + [b]) == Tail(chunk) + [' '] + Pair(b)
  {
    if chunk == [] {
      assert (chunk + [b])[1..] == [];
    } else {
      TailSnoc(chunk[1..], b);
      assert (chunk + [b])[1..] == chunk[1..] + [b];
    }
  }

  lemma LineSnoc(chunk: seq<byte>, b: byte)
    requires chunk != []
    ensures Line(chunk + [b]) == Line(chunk) + [' '] + Pair(b)
  {
    TailSnoc(chunk[1..], b);
    assert (chunk + [b])[1..] == chunk[1..] + [b];
  }

  lemma {:induction false} FramesSnoc(chunks: seq<seq<byte>>, chunk: seq<byte>)
    requires (forall k :: 0 <= k < |chunks| ==> chunks[k] != []) && chunk != []
    ensures Frames(chunks + [chunk]) == Frames(chunks) + Line(chunk) + ['\n']
  {
    if chunks == [] {
      assert (chunks + [chunk])[1..] == [];
    } else {
      FramesSnoc(chunks[1..], chunk);
      assert (chunks + [chunk])[1..] == chunks[1..] + [chunk];
      LineJoins(Line(chunks[0]) + ['\n'], Frames(chunks[1..]), Line(chunk), ['\n']);
    }
  }

  lemma LineJoins(a: string, b: string, c: string, d: string)
    ensures a + (b + c + d) == (a + b) + c + d
  {
  }

  /** The inner loop, over one chunk. */
  method PushChunk(out: string, chunk: seq<byte>) returns (r: string)
    requires chunk != []
    ensures r == out + Line(chunk)
  {
    r := out;
    for i := 0 to |chunk|
      invariant r == if i == 0 then out else out + Line(chunk[..i])
    {
      assert chunk[..i + 1] == chunk[..i] + [chunk[i]];
      if i > 0 {
        LineSnoc(chunk[..i], chunk[i]);
        r := r + [' '];
      }
      r := r + Pair(chunk[i]);
    }
    assert chunk[..|chunk|] == chunk;
  }

  method EncodeRemoteInputLines(bytes: seq<byte>) returns (out: string)
    ensures out == Encode(bytes)
  {
    out := [];
    var chunks := Chunks(bytes);
    for k := 0 to |chunks|
      invariant out == Frames(chunks[..k])
    {
      assert chunks[..k + 1] == chunks[..k] + [chunks[k]];
      FramesSnoc(chunks[..k], chunks[k]);
      out := PushChunk(out, chunks[k]);
      out := out + ['\n'];
    }
    assert chunks[..|chunks|] == chunks;
  }

  // ---------- what a line looks like ----------

  const HEX := "0123456789abcdef"

  predicate Shown(s: string, at: nat, b: byte) {
    at + 2 <= |s| && s[at] == HEX[b as int / 16] && s[at + 1] == HEX[b as int % 16]
  }

  lemma DigitIs(n: nat, hex: string)
    requires n < 16 && hex == HEX
    ensures HexDigit(n) == hex[n]
  {
  }

  lemma {:induction false} TailAt(chunk: seq<byte>, k: nat)
    requires k < |chunk|
    ensures Tail(chunk)[3 * k] == ' ' && Shown(Tail(chunk), 3 * k + 1, chunk[k])
  {
    if k == 0 {
      DigitIs((chunk[0] as int / 16) as nat, HEX);
      DigitIs((chunk[0] as int % 16) as nat, HEX);
    } else {
      TailAt(chunk[1..], k - 1);
      assert forall i :: 3 <= i < |Tail(chunk)| ==> Tail(chunk)[i] == Tail(chunk[1..])[i - 3];
    }
  }

  /** A line shows its bytes as pairs of hexadecimal digits with one space in between. */
  lemma LineAt(chunk: seq<byte>, k: nat)
    requires k < |chunk|
    ensures Shown(Line(chunk), 3 * k, chunk[k]) && (k > 0 ==> Line(chunk)[3 * k - 1] == ' ')
  {
    if k == 0 {
      DigitIs((chunk[0] as int / 16) as nat, HEX);
      DigitIs((chunk[0] as int % 16) as nat, HEX);
    } else {
      TailAt(chunk[1..], k - 1);
      assert forall i :: 2 <= i < |Line(chunk)| ==> Line(chunk)[i] == Tail(chunk[1..])[i - 2];
    }
  }

  // ---------- the reading end ----------

  /** `split` on a separator. */
  function Split(s: string, sep: char): (pieces: seq<string>)
    ensures pieces != []
  {
    if s == [] then [[]]
    else
      var rest := Split(s[1..], sep);
      if s[0] == sep then [[]] + rest else [[s[0]] + rest[0]] + rest[1..]
  }

  function NonEmpty(pieces: seq<string>): seq<string> {
    if pieces == [] then []
    else if pieces[0] == [] then NonEmpty(pieces[1..])
    else [pieces[0]] + NonEmpty(pieces[1..])
  }

  function HexValue(c: char): Option<nat> {
    if '0' <= c <= '9' then Some(c as int - 48)
    else if 'a' <= c <= 'f' then Some(c as int - 87)
    else if 'A' <= c <= 'F' then Some(c as int - 55)
    else None
  }

  function HexNumber(w: string): Option<nat> {
    if w == [] then Some(0)
    else
      match (HexNumber(w[..|w| - 1]), HexValue(w[|w| - 1]))
      case (Some(n), Some(d)) => Some(16 * n + d)
      case _ => None
  }

  /** `u8::from_str_radix(_, 16)`. */
  function ParseByte(w: string): Option<byte> {
    var digits := if w != [] && w[0] == '+' then w[1..] else w;
    match HexNumber(digits)
    case Some(n) => if digits != [] && n < 256 then Some(n as byte) else None
    case None => None
  }

  function DecodeWords(words: seq<string>): Option<seq<byte>> {
    if words == [] then Some([])
    else
      match (ParseByte(words[0]), DecodeWords(words[1..]))
      case (Some(b), Some(bs)) => Some([b] + bs)
      case _ => None
  }

  function DecodeLine(line: string): Option<seq<byte>> {
    DecodeWords(Split(line, ' '))
  }

  function DecodeLines(lines: seq<string>): Option<seq<byte>> {
    if lines == [] then Some([])
    else
      match (DecodeLine(lines[0]), DecodeLines(lines[1..]))
      case (Some(bs), Some(cs)) => Some(bs + cs)
      case _ => None
  }

  function LinesOf(out: string): seq<string> {
    NonEmpty(Split(out, '\n'))
  }

  function Decode(out: string): Option<seq<byte>> {
    DecodeLines(LinesOf(out))
  }

  // ---------- the round trip ----------

  lemma {:induction false} SplitFirst(a: string, sep: char, b: string)
    requires sep !in a
    ensures Split(a + [sep] + b, sep) == [a] + Split(b, sep)
  {
    if a == [] {
      assert (a + [sep] + b)[1..] == b;
    } else {
      assert (a + [sep] + b)[1..] == a[1..] + [sep] + b;
      SplitFirst(a[1..], sep, b);
      assert [a[0]] + a[1..] == a;
    }
  }

  lemma {:induction false} SplitNone(a: string, sep: char)
    requires sep !in a
    ensures Split(a, sep) == [a]
  {
    if a != [] {
      SplitNone(a[1..], sep);
      assert [a[0]] + a[1..] == a;
    }
  }

  lemma HexDigitValue(n: nat)
    requires n < 16
    ensures HexValue(HexDigit(n)) == Some(n) && HexDigit(n) != '+'
  {
  }

  lemma PairParses(b: byte)
    ensures ParseByte(Pair(b)) == Some(b)
  {
    var hi, lo := (b as int / 16) as nat, (b as int % 16) as nat;
    HexDigitValue(hi);
    HexDigitValue(lo);
    var w := Pair(b);
    assert w[..1] == [HexDigit(hi)] && w[..1][..0] == [];
    assert HexNumber(w[..1]) == Some(16 * 0 + hi);
    assert HexNumber(w) == Some(16 * hi + lo);
  }

  lemma DecodeFirst(w: string, words: seq<string>, b: byte)
    requires ParseByte(w) == Some(b) && DecodeWords(words).Some?
    ensures DecodeWords([w] + words) == Some([b] + DecodeWords(words).value)
  {
    assert ([w] + words)[1..] == words;
  }

  lemma {:induction false} LineDecodes(chunk: seq<byte>)
    requires chunk != []
    ensures DecodeLine(Line(chunk)) == Some(chunk)
  {
    PairParses(chunk[0]);
    var first, rest := Pair(chunk[0]), chunk[1..];
    assert chunk == [chunk[0]] + rest;
    if rest == [] {
      SplitNone(first, ' ');
      DecodeFirst(first, [], chunk[0]);
      assert [first] == [first] + [] && Line(chunk) == first;
    } else {
      LineDecodes(rest);
      SplitFirst(first, ' ', Line(rest));
      DecodeFirst(first, Split(Line(rest), ' '), chunk[0]);
      assert Line(chunk) == first + [' '] + Line(rest);
    }
  }

  function Concat(chunks: seq<seq<byte>>): seq<byte> {
    if chunks == [] then [] else chunks[0] + Concat(chunks[1..])
  }

  lemma {:induction false} ChunksConcat(bytes: seq<byte>)
    ensures Concat(Chunks(bytes)) == bytes
  {
    if |bytes| > FRAME_BYTES {
      ChunksConcat(bytes[FRAME_BYTES..]);
      assert Chunks(bytes)[1..] == Chunks(bytes[FRAME_BYTES..]);
    } else if bytes != [] {
      assert [bytes][1..] == [];
    }
  }

  /** A line for each chunk, which decodes to that chunk. */
  lemma {:induction false} FramesDecode(chunks: seq<seq<byte>>)
    requires forall k :: 0 <= k < |chunks| ==> chunks[k] != []
    ensures var lines := LinesOf(Frames(chunks));
      && |lines| == |chunks|
      && (forall k :: 0 <= k < |chunks| ==> DecodeLine(lines[k]) == Some(chunks[k]))
      && DecodeLines(lines) == Some(Concat(chunks))
  {
    if chunks == [] {
      var pieces: seq<string> := [[]];
      assert pieces[1..] == [];
    } else {
      var line, rest := Line(chunks[0]), Frames(chunks[1..]);
      FramesDecode(chunks[1..]);
      LineDecodes(chunks[0]);
      SplitFirst(line, '\n', rest);
      assert ([line] + Split(rest, '\n'))[1..] == Split(rest, '\n');
      assert LinesOf(Frames(chunks)) == [line] + LinesOf(rest);
      assert ([line] + LinesOf(rest))[1..] == LinesOf(rest);
    }
  }

  /** Nothing is lost: decoding the frames gives the input back. */
  lemma RoundTrip(bytes: seq<byte>)
    ensures Decode(Encode(bytes)) == Some(bytes)
  {
    FramesDecode(Chunks(bytes));
    ChunksConcat(bytes);
  }

  /** One line per 64 bytes begun, each carrying between 1 and 64 of them. */
  lemma LinesAreBounded(bytes: seq<byte>)
    ensures var lines := LinesOf(Encode(bytes));
      && |lines| == (|bytes| + 63) / 64
      && forall k :: 0 <= k < |lines| ==>
           DecodeLine(lines[k]).Some? && 1 <= |DecodeLine(lines[k]).value| <= 64
  {
    FramesDecode(Chunks(bytes));
  }

  lemma {:induction false} FramesLength(chunks: seq<seq<byte>>)
    requires forall k :: 0 <= k < |chunks| ==> chunks[k] != []
    ensures |Frames(chunks)| == 3 * |Concat(chunks)|
  {
    if chunks != [] {
      FramesLength(chunks[1..]);
    }
  }

  lemma EncodedLength(bytes: seq<byte>)
    ensures |Encode(bytes)| == 3 * |bytes|
  {
    FramesLength(Chunks(bytes));
    ChunksConcat(bytes);
  }
}
