/** What one list of secrets cannot hide, exactly
    (crates/agentum-server/src/host_runtime.rs). */
module RedactionLists {
  import opened Basics
  import opened Text
  import opened Redaction
  import opened RedactionLimits

  // ---------- one list of secrets ----------

  /** The secrets of more than one byte, which go first, and the single bytes after them. */
  function Wide(secrets: seq<string>): seq<string> {
    if secrets == [] || ByteLength(secrets[0]) <= 1 then [] else [secrets[0]] + Wide(secrets[1..])
  }

  function Narrow(secrets: seq<string>): (r: seq<string>)
    ensures forall w :: w in r ==> w in secrets
  {
    if secrets == [] || ByteLength(secrets[0]) <= 1 then secrets else Narrow(secrets[1..])
  }

  ghost predicate Singles(secrets: seq<string>) {
    forall w :: w in secrets ==> |w| == 1
  }

  lemma FirstIsLongest(secrets: seq<string>)
    requires LongestFirst(secrets) && secrets != []
    ensures LongestFirst(secrets[1..]) && forall w :: w in secrets ==> ByteLength(w) <= ByteLength(secrets[0])
  {
    var rest := secrets[1..];
    forall i, j | 0 <= i < j < |rest| ensures ByteLength(rest[i]) >= ByteLength(rest[j]) {
      assert rest[i] == secrets[i + 1] && rest[j] == secrets[j + 1];
    }
    forall w | w in secrets ensures ByteLength(w) <= ByteLength(secrets[0]) {
      var i :| 0 <= i < |secrets| && secrets[i] == w;
    }
  }

  lemma {:induction false} Rejoined(secrets: seq<string>)
    ensures secrets == Wide(secrets) + Narrow(secrets)
  {
    if secrets != [] && ByteLength(secrets[0]) > 1 {
      Rejoined(secrets[1..]);
      assert [secrets[0]] + secrets[1..] == secrets;
    }
  }

  lemma {:induction false} WideOnes(secrets: seq<string>, w: string)
    requires w in Wide(secrets)
    ensures ByteLength(w) > 1
  {
    if w != secrets[0] { WideOnes(secrets[1..], w); }
  }

  lemma {:induction false} NarrowOnes(secrets: seq<string>, w: string)
    requires LongestFirst(secrets) && w in Narrow(secrets)
    ensures ByteLength(w) <= 1
  {
    FirstIsLongest(secrets);
    if ByteLength(secrets[0]) > 1 { NarrowOnes(secrets[1..], w); }
  }

  lemma WideThenNarrow(secrets: seq<string>)
    requires Ordered(secrets)
    ensures secrets == Wide(secrets) + Narrow(secrets)
    ensures forall w :: w in Wide(secrets) ==> w != "" && ByteLength(w) > 1
    ensures Singles(Narrow(secrets))
  {
    Rejoined(secrets);
    forall w | w in Wide(secrets) ensures w != "" && ByteLength(w) > 1 {
      WideOnes(secrets, w);
    }
    forall w | w in Narrow(secrets) ensures |w| == 1 {
      NarrowOnes(secrets, w);
      BytesAtLeast(w);
    }
  }

  lemma {:induction false} RedactInTurn(text: string, first: seq<string>, second: seq<string>)
    requires "" !in first && "" !in second
    ensures RedactAll(text, first + second) == RedactAll(RedactAll(text, first), second)
    decreases |first|
  {
    if first == [] {
      assert first + second == second;
    } else {
      assert (first + second)[1..] == first[1..] + second;
      RedactInTurn(Replace(text, first[0], MARK), first[1..], second);
    }
  }

  lemma OccursLater(text: string, w: string, k: nat)
    requires |w| == 1 && text != ""
    ensures OccursAt(text, w, k + 1) <==> OccursAt(text[1..], w, k)
  {
    assert k + 1 < |text| ==> text[k + 1..k + 2] == text[1..][k..k + 1];
  }

  lemma FoundFirst(text: string, w: string)
    requires |w| == 1 && text != "" && text[0] == w[0]
    ensures Find(text, w) == Some(0)
  {
    assert text[0..1] == w;
    FindIs(text, w, 0);
  }

  lemma FoundLater(text: string, w: string, i: nat)
    requires |w| == 1 && text != "" && text[0] != w[0] && Find(text[1..], w) == Some(i)
    ensures Find(text, w) == Some(i + 1)
  {
    NotAt(text, w, 0);
    OccursLater(text, w, i);
    forall k: nat | k < i + 1 ensures !OccursAt(text, w, k) {
      if k > 0 { OccursLater(text, w, k - 1); }
    }
    FindIs(text, w, i + 1);
  }

  lemma FoundNowhere(text: string, w: string)
    requires |w| == 1 && text != "" && text[0] != w[0] && Find(text[1..], w).None?
    ensures Find(text, w).None?
  {
    NotAt(text, w, 0);
    forall k: nat ensures !OccursAt(text, w, k) {
      if k > 0 { OccursLater(text, w, k - 1); }
    }
  }

  /** A single character is replaced character by character. */
  lemma ReplaceFirst(text: string, w: string, mark: string)
    requires |w| == 1 && text != ""
    ensures Replace(text, w, mark) == (if text[0] == w[0] then mark else [text[0]]) + Replace(text[1..], w, mark)
  {
    if text[0] == w[0] {
      FoundFirst(text, w);
      assert text[..0] + mark == mark;
    } else if Find(text[1..], w).None? {
      FoundNowhere(text, w);
      ReplaceNothing(text, w, mark);
      ReplaceNothing(text[1..], w, mark);
      HeadTail(text);
    } else {
      ReplaceLater(text, w, mark, Find(text[1..], w).value);
    }
  }

  lemma ReplaceLater(text: string, w: string, mark: string, i: nat)
    requires |w| == 1 && text != "" && text[0] != w[0] && Find(text[1..], w) == Some(i)
    ensures Replace(text, w, mark) == [text[0]] + Replace(text[1..], w, mark)
  {
    FoundLater(text, w, i);
    PieceLater(text, text[1..], i, mark, Replace(text[1..][i + 1..], w, mark));
  }

  lemma PieceLater(text: string, rest: string, i: nat, mark: string, more: string)
    requires i < |rest| && text != "" && rest == text[1..]
    ensures text[..i + 1] + mark + more == [text[0]] + (rest[..i] + mark + more)
    ensures text[i + 2..] == rest[i + 1..]
  {
    assert text[..i + 1] == [text[0]] + rest[..i];
  }

  function Swapped(text: string, d: char, mark: string): string {
    if text == "" then "" else (if text[0] == d then mark else [text[0]]) + Swapped(text[1..], d, mark)
  }

  lemma {:induction false} ReplaceIsSwapped(text: string, w: string, mark: string)
    requires |w| == 1
    ensures Replace(text, w, mark) == Swapped(text, w[0], mark)
  {
    if text == "" {
      ShorterLacks(text, w);
    } else {
      ReplaceFirst(text, w, mark);
      ReplaceIsSwapped(text[1..], w, mark);
    }
  }

  lemma {:induction false} SwappedSplits(a: string, b: string, d: char, mark: string)
    ensures Swapped(a + b, d, mark) == Swapped(a, d, mark) + Swapped(b, d, mark)
  {
    if a == "" {
      assert a + b == b;
    } else {
      assert (a + b)[1..] == a[1..] + b;
      SwappedSplits(a[1..], b, d, mark);
    }
  }

  lemma ReplaceSplits(a: string, b: string, w: string, mark: string)
    requires |w| == 1
    ensures Replace(a + b, w, mark) == Replace(a, w, mark) + Replace(b, w, mark)
  {
    ReplaceIsSwapped(a, w, mark);
    ReplaceIsSwapped(b, w, mark);
    ReplaceIsSwapped(a + b, w, mark);
    SwappedSplits(a, b, w[0], mark);
  }

  lemma {:induction false} RedactSplits(a: string, b: string, narrow: seq<string>)
    requires Singles(narrow)
    ensures RedactAll(a + b, narrow) == RedactAll(a, narrow) + RedactAll(b, narrow)
    decreases |narrow|
  {
    if narrow != [] {
      assert narrow[0] in narrow;
      ReplaceSplits(a, b, narrow[0], MARK);
      RedactSplits(Replace(a, narrow[0], MARK), Replace(b, narrow[0], MARK), narrow[1..]);
    }
  }

  /** What the single bytes and the filter make of a text. */
  function Glue(t: string, narrow: seq<string>): string
    requires "" !in narrow
  {
    Printable(RedactAll(t, narrow))
  }

  lemma GlueSplits(a: string, b: string, narrow: seq<string>)
    requires Singles(narrow)
    ensures Glue(a + b, narrow) == Glue(a, narrow) + Glue(b, narrow)
  {
    RedactSplits(a, b, narrow);
    PrintableAppend(RedactAll(a, narrow), RedactAll(b, narrow));
  }

  lemma GlueFirst(t: string, narrow: seq<string>)
    requires Singles(narrow) && t != ""
    ensures Glue(t, narrow) == Glue([t[0]], narrow) + Glue(t[1..], narrow)
  {
    assert [t[0]] + t[1..] == t;
    GlueSplits([t[0]], t[1..], narrow);
  }

  lemma GlueNothing(narrow: seq<string>)
    requires Singles(narrow)
    ensures Glue("", narrow) == ""
  {
    forall w | w in narrow ensures !Contains("", w) {
    }
    RedactsNothing("", narrow);
  }

  lemma OnePrints(t: string, d: char)
    requires t == [d]
    ensures Printable(t) == if Kept(d) then t else ""
  {
    assert t[1..] == "";
    assert Printable(t[1..]) == "";
    assert t[0] == d && t != "";
  }

  /** One character comes out as it is, or as marks within marks. */
  lemma ShapeOf(d: char, narrow: seq<string>)
    requires Singles(narrow)
    ensures [d] !in narrow ==> Glue([d], narrow) == if Kept(d) then [d] else ""
    ensures [d] in narrow ==> Glue([d], narrow) != "" && forall c :: c in Glue([d], narrow) ==> c in MARK
  {
    if [d] !in narrow {
      forall w | w in narrow ensures !Contains([d], w) {
        OtherSingle([d], w);
      }
      RedactsNothing([d], narrow);
      OnePrints([d], d);
    } else {
      MarksOnly([d], narrow);
      MarkKept();
      PrintableIsIdentity(RedactAll([d], narrow));
    }
  }

  /** A text of the mark's characters, and one that is a secret, becomes one of the mark's. */
  lemma {:induction false} MarksOnly(t: string, narrow: seq<string>)
    requires Singles(narrow) && t != "" && ((forall c :: c in t ==> c in MARK) || t in narrow)
    ensures RedactAll(t, narrow) != "" && forall c :: c in RedactAll(t, narrow) ==> c in MARK
    decreases |narrow|
  {
    if narrow != [] {
      assert narrow[0] in narrow;
      if t == narrow[0] {
        MarkAlone(t, MARK);
      } else if t in narrow {
        OtherSingle(t, narrow[0]);
        ReplaceNothing(t, narrow[0], MARK);
      } else {
        ReplaceWithin(t, narrow[0], MARK);
        ReplaceLeavesText(t, narrow[0], MARK);
      }
      MarksOnly(Replace(t, narrow[0], MARK), narrow[1..]);
    }
  }

  lemma OtherSingle(t: string, w: string)
    requires |t| == 1 && |w| == 1 && t != w
    ensures !Contains(t, w)
  {
    assert t == [t[0]] && w == [w[0]];
    if i: nat :| OccursAt(t, w, i) { AtOccurrence(t, w, i, 0); }
  }

  lemma {:induction false} ReplaceWithin(t: string, w: string, mark: string)
    requires w != "" && forall c :: c in t ==> c in mark
    ensures forall c :: c in Replace(t, w, mark) ==> c in mark
    decreases |t|
  {
    if Find(t, w).Some? {
      var i := Find(t, w).value;
      var rest := t[i + |w|..];
      ReplaceWithin(rest, w, mark);
      WithinSum(t[..i], mark, Replace(rest, w, mark), mark);
    }
  }

  lemma WithinSum(a: string, b: string, c: string, all: string)
    requires (forall d :: d in a ==> d in all) && (forall d :: d in b ==> d in all) && forall d :: d in c ==> d in all
    ensures forall d :: d in a + b + c ==> d in all
  {
  }

  lemma ReplaceLeavesText(t: string, w: string, mark: string)
    requires w != "" && mark != "" && t != ""
    ensures Replace(t, w, mark) != ""
  {
  }

  // ---------- values that a list lets through ----------

  /** A character of the value or a single byte among the secrets, that is not replaced
      before the single bytes are. */
  predicate MayStand(d: char, v: string, secrets: seq<string>) {
    (d in v || [d] in Narrow(secrets)) && [d] !in Wide(secrets)
  }

  /** What becomes of a character that stands alone. */
  function Shape(d: char, secrets: seq<string>): string
    requires "" !in secrets
  {
    Glue([d], Narrow(secrets))
  }

  /** The value is the beginning of a row of shapes. */
  ghost predicate Covered(v: string, secrets: seq<string>)
    requires "" !in secrets
    decreases |v|, 1
  {
    v == "" || exists d :: MayStand(d, v, secrets) && Continues(v, Shape(d, secrets), secrets)
  }

  /** The value is the beginning of a row of shapes that starts with this one. */
  ghost predicate Continues(v: string, shape: string, secrets: seq<string>)
    requires "" !in secrets
    decreases |v|, 0
  {
    shape != "" && (v <= shape || (shape <= v && Covered(v[|shape|..], secrets)))
  }

  /** The value starts `k` characters into the shape of `d`. */
  ghost predicate StartsIn(d: char, k: nat, v: string, secrets: seq<string>)
    requires "" !in secrets
  {
    MayStand(d, v, secrets) && k < |Shape(d, secrets)| && Continues(v, Shape(d, secrets)[k..], secrets)
  }

  /** No character of the text is a secret of more than one byte. */
  ghost predicate Cleared(t: string, secrets: seq<string>) {
    forall d :: d in t ==> [d] !in Wide(secrets)
  }

  lemma ShapeStands(d: char, v: string, k: nat, secrets: seq<string>)
    requires Ordered(secrets) && [d] !in Wide(secrets) && v != "" && k < |Shape(d, secrets)|
    requires v[0] == Shape(d, secrets)[k]
    ensures MayStand(d, v, secrets)
  {
    WideThenNarrow(secrets);
    ShapeOf(d, Narrow(secrets));
  }

  lemma {:induction false} GlueCovered(t: string, v: string, secrets: seq<string>)
    requires Ordered(secrets) && Cleared(t, secrets) && v <= Glue(t, Narrow(secrets))
    ensures Covered(v, secrets)
    decreases |t|
  {
    if v != "" {
      var shape, rest := FirstShape(t, secrets);
      if shape == "" {
        assert shape + rest == rest;
        GlueCovered(t[1..], v, secrets);
      } else {
        PrefixOfRow(shape, rest, v);
        ShapeStands(t[0], v, 0, secrets);
        if |v| > |shape| {
          GlueCovered(t[1..], v[|shape|..], secrets);
        }
        assert Continues(v, shape, secrets);
      }
    }
  }

  lemma PrefixOfRow(shape: string, rest: string, v: string)
    requires v <= shape + rest && v != "" && shape != ""
    ensures v[0] == shape[0]
    ensures if |v| <= |shape| then v <= shape else shape <= v && v[|shape|..] <= rest
  {
    var row := shape + rest;
    assert v == row[..|v|];
    if |v| <= |shape| {
      assert row[..|v|] == shape[..|v|];
    } else {
      assert row[|shape|..|v|] == rest[..|v| - |shape|];
    }
  }

  lemma FirstShape(t: string, secrets: seq<string>) returns (shape: string, rest: string)
    requires Ordered(secrets) && Cleared(t, secrets) && Glue(t, Narrow(secrets)) != ""
    ensures t != "" && shape == Shape(t[0], secrets) && rest == Glue(t[1..], Narrow(secrets))
    ensures Glue(t, Narrow(secrets)) == shape + rest && Cleared(t[1..], secrets) && [t[0]] !in Wide(secrets)
  {
    WideThenNarrow(secrets);
    GlueNothing(Narrow(secrets));
    GlueFirst(t, Narrow(secrets));
    assert t[0] in t;
    shape, rest := Shape(t[0], secrets), Glue(t[1..], Narrow(secrets));
  }

  /** Where a value stands in a row of shapes: `k` characters into a shape that starts at `g`. */
  lemma {:induction false} OccursStarts(t: string, row: string, v: string, j: nat, secrets: seq<string>)
    returns (d: char, k: nat, g: nat)
    requires Ordered(secrets) && Cleared(t, secrets) && row == Glue(t, Narrow(secrets))
    requires v != "" && OccursAt(row, v, j)
    ensures StartsIn(d, k, v, secrets) && g + k == j && OccursAt(row, Shape(d, secrets), g)
    decreases |t|
  {
    var shape, rest := FirstShape(t, secrets);
    if j < |shape| {
      d, k, g := t[0], j, 0;
      StandsHere(t, v, j, secrets, shape, rest);
      StartOccurs(shape, rest);
    } else {
      LaterOccurs(shape, rest, v, j);
      var h;
      d, k, h := OccursStarts(t[1..], rest, v, j - |shape|, secrets);
      OccursBehind(shape, rest, Shape(d, secrets), h);
      g := h + |shape|;
    }
  }

  lemma StartOccurs(shape: string, rest: string)
    ensures OccursAt(shape + rest, shape, 0)
  {
    assert (shape + rest)[0..|shape|] == shape;
  }

  lemma LaterOccurs(shape: string, rest: string, v: string, j: nat)
    requires OccursAt(shape + rest, v, j) && j >= |shape|
    ensures OccursAt(rest, v, j - |shape|)
  {
    assert rest[j - |shape|..j - |shape| + |v|] == (shape + rest)[j..j + |v|];
  }

  lemma OccursBehind(shape: string, rest: string, w: string, g: nat)
    requires OccursAt(rest, w, g)
    ensures OccursAt(shape + rest, w, g + |shape|)
  {
    assert rest[g..g + |w|] == (shape + rest)[g + |shape|..g + |shape| + |w|];
  }

  lemma StandsHere(t: string, v: string, j: nat, secrets: seq<string>, shape: string, rest: string)
    requires Ordered(secrets) && v != "" && t != "" && Cleared(t[1..], secrets) && [t[0]] !in Wide(secrets)
    requires shape == Shape(t[0], secrets) && rest == Glue(t[1..], Narrow(secrets))
    requires OccursAt(shape + rest, v, j) && j < |shape|
    ensures StartsIn(t[0], j, v, secrets)
  {
    var here := shape[j..];
    PartOfRow(shape, rest, v, j);
    PrefixOfRow(here, rest, v);
    ShapeStands(t[0], v, j, secrets);
    if |v| > |here| {
      GlueCovered(t[1..], v[|here|..], secrets);
    }
    assert Continues(v, here, secrets);
  }

  lemma PartOfRow(shape: string, rest: string, v: string, j: nat)
    requires OccursAt(shape + rest, v, j) && j < |shape|
    ensures v <= shape[j..] + rest
  {
    assert (shape + rest)[j..] == shape[j..] + rest;
    assert v == (shape + rest)[j..][..|v|];
  }

  /** The row ends with the value, or within a mark. */
  predicate Neat(row: string, ends: nat) {
    |row| == ends || (|row| > ends && row[|row| - 1] in MARK)
  }

  lemma {:induction false} CoveredText(v: string, secrets: seq<string>) returns (t: string)
    requires Ordered(secrets) && Covered(v, secrets)
    ensures Cleared(t, secrets) && v <= Glue(t, Narrow(secrets)) && Neat(Glue(t, Narrow(secrets)), |v|)
    decreases |v|, 1
  {
    if v == "" {
      WideThenNarrow(secrets);
      GlueNothing(Narrow(secrets));
      t := "";
    } else {
      var d :| MayStand(d, v, secrets) && Continues(v, Shape(d, secrets), secrets);
      t := ContinuedText(d, 0, v, secrets);
    }
  }

  lemma {:induction false} ContinuedText(d: char, k: nat, v: string, secrets: seq<string>) returns (t: string)
    requires Ordered(secrets) && [d] !in Wide(secrets) && k <= |Shape(d, secrets)|
    requires v != "" && Continues(v, Shape(d, secrets)[k..], secrets)
    ensures Cleared(t, secrets) && OccursAt(Glue(t, Narrow(secrets)), v, k) && Shape(d, secrets) <= Glue(t, Narrow(secrets))
    ensures Neat(Glue(t, Narrow(secrets)), k + |v|)
    decreases |v|, 0
  {
    var shape, here := Shape(d, secrets), Shape(d, secrets)[k..];
    if |v| > |here| {
      var rest := CoveredText(v[|here|..], secrets);
      t := [d] + rest;
      ShapeThenGlue(d, rest, secrets);
      Continued(shape, k, v, Glue(rest, Narrow(secrets)));
    } else {
      t := [d];
      if |shape| > 1 { ShapeEnds(d, secrets); }
      EndsInside(shape, k, v);
    }
  }

  lemma ShapeThenGlue(d: char, rest: string, secrets: seq<string>)
    requires Ordered(secrets)
    ensures Glue([d] + rest, Narrow(secrets)) == Shape(d, secrets) + Glue(rest, Narrow(secrets))
  {
    WideThenNarrow(secrets);
    GlueSplits([d], rest, Narrow(secrets));
  }

  lemma ShapeEnds(d: char, secrets: seq<string>)
    requires Ordered(secrets) && |Shape(d, secrets)| > 1
    ensures Shape(d, secrets)[|Shape(d, secrets)| - 1] in MARK
  {
    WideThenNarrow(secrets);
    ShapeOf(d, Narrow(secrets));
  }

  lemma EndsInside(shape: string, k: nat, v: string)
    requires k <= |shape| && v <= shape[k..] && (|shape| > k + |v| ==> shape[|shape| - 1] in MARK)
    ensures OccursAt(shape, v, k) && Neat(shape, k + |v|)
  {
    assert shape[k..k + |v|] == shape[k..][..|v|];
  }

  lemma Continued(shape: string, k: nat, v: string, more: string)
    requires k <= |shape| && |shape[k..]| <= |v| && shape[k..] <= v
    requires v[|shape[k..]|..] <= more && Neat(more, |v| - |shape[k..]|) && |v| > |shape[k..]|
    ensures OccursAt(shape + more, v, k) && Neat(shape + more, k + |v|)
  {
    var row, here := shape + more, shape[k..];
    assert v == here + v[|here|..];
    assert row[k..] == here + more;
    assert row[k..k + |v|] == v;
    assert row[|row| - 1] == more[|more| - 1];
  }

  /** A control character that no secret uses. */
  ghost predicate Separator(c: char, secrets: seq<string>) {
    !Kept(c) && forall w :: w in secrets ==> c !in w
  }

  /** Spread out with a separator, the characters of a text go their own ways. */
  lemma SpreadComesThrough(t: string, secrets: seq<string>, c: char)
    requires Ordered(secrets) && Cleared(t, secrets) && Separator(c, secrets)
    ensures Printable(RedactAll(Spread(t, c), secrets)) == Glue(t, Narrow(secrets))
  {
    WideThenNarrow(secrets);
    forall w | w in Wide(secrets) ensures !Contains(Spread(t, c), w) {
      assert w in secrets;
      assert |w| == 1 ==> w == [w[0]];
      SpreadHides(t, c, w);
    }
    RedactsNothing(Spread(t, c), Wide(secrets));
    RedactInTurn(Spread(t, c), Wide(secrets), Narrow(secrets));
    SpreadGlue(t, c, Narrow(secrets));
  }

  lemma {:induction false} SpreadGlue(t: string, c: char, narrow: seq<string>)
    requires Singles(narrow) && !Kept(c) && [c] !in narrow
    ensures Glue(Spread(t, c), narrow) == Glue(t, narrow)
  {
    if |t| > 1 {
      SpreadGlue(t[1..], c, narrow);
      GlueFirst(t, narrow);
      SeparatorVanishes([t[0]], c, Spread(t[1..], c), narrow);
      assert [t[0]] + [c] == [t[0], c];
    }
  }

  lemma SeparatorVanishes(a: string, c: char, b: string, narrow: seq<string>)
    requires Singles(narrow) && !Kept(c) && [c] !in narrow
    ensures Glue(a + [c] + b, narrow) == Glue(a, narrow) + Glue(b, narrow)
  {
    ShapeOf(c, narrow);
    GlueSplits(a, [c], narrow);
    GlueSplits(a + [c], b, narrow);
  }

  lemma HighByteApart(w: string, mark: string)
    requires |w| == 1 && Utf8Length(w[0]) > 1 && |mark| > 1 && forall c :: c in mark ==> Utf8Length(c) == 1
    ensures Apart(w, mark)
  {
    if i: nat :| OccursAt(mark, w, i) { AtOccurrence(mark, w, i, 0); }
    SingleApart(w, mark);
  }

  /** What the secrets of more than one byte leave is cleared of those that are characters. */
  lemma WideClears(text: string, secrets: seq<string>)
    requires Ordered(secrets)
    ensures "" !in Wide(secrets) && Cleared(RedactAll(text, Wide(secrets)), secrets)
  {
    WideThenNarrow(secrets);
    var left := RedactAll(text, Wide(secrets));
    forall d | d in left ensures [d] !in Wide(secrets) {
      if [d] in Wide(secrets) {
        OneByteLength([d]);
        MarkBytes();
        HighByteApart([d], MARK);
        RedactRemoves(text, Wide(secrets), [d]);
        SingleContained(left, d);
      }
    }
  }

  lemma OneByteLength(w: string)
    requires |w| == 1
    ensures ByteLength(w) == Utf8Length(w[0])
  {
    assert w[1..] == "";
  }

  lemma MarkBytes()
    ensures forall c :: c in MARK ==> Utf8Length(c) == 1
  {
  }

  /** What the longer secrets leave for the single bytes. */
  lemma Left(text: string, secrets: seq<string>) returns (left: string)
    requires Ordered(secrets)
    ensures Cleared(left, secrets) && Printable(RedactAll(text, secrets)) == Glue(left, Narrow(secrets))
  {
    WideThenNarrow(secrets);
    WideClears(text, secrets);
    left := RedactAll(text, Wide(secrets));
    RedactInTurn(text, Wide(secrets), Narrow(secrets));
  }

  ghost predicate Exposed(v: string, secrets: seq<string>)
    requires "" !in secrets
  {
    exists d: char, k: nat :: StartsIn(d, k, v, secrets)
  }

  ghost predicate FilterLets(secrets: seq<string>, text: string, v: string)
    requires "" !in secrets
  {
    Contains(Printable(RedactAll(text, secrets)), v)
  }

  /** One list after the filter: some output shows a value exactly when the value is part of
      a row of shapes, each a character or what the single bytes among the secrets make of
      one, with no character that is a longer secret by itself. */
  lemma FilteredShowsIff(secrets: seq<string>, v: string, c: char)
    requires Ordered(secrets) && v != "" && Separator(c, secrets)
    ensures (exists text :: FilterLets(secrets, text, v)) <==> Exposed(v, secrets)
  {
    if text :| FilterLets(secrets, text, v) {
      var left := Left(text, secrets);
      var j: nat :| OccursAt(Glue(left, Narrow(secrets)), v, j);
      var d, k, g := OccursStarts(left, Glue(left, Narrow(secrets)), v, j, secrets);
    }
    if d, k: nat :| StartsIn(d, k, v, secrets) {
      var t := ContinuedText(d, k, v, secrets);
      SpreadComesThrough(t, secrets, c);
      assert FilterLets(secrets, Spread(t, c), v);
    }
  }

  lemma {:induction false} AllStand(v: string, secrets: seq<string>)
    requires Ordered(secrets) && forall c :: c in v ==> Kept(c) && [c] !in secrets
    ensures Covered(v, secrets)
    ensures v != "" ==> StartsIn(v[0], 0, v, secrets)
    decreases |v|
  {
    if v != "" {
      AllStand(v[1..], secrets);
      OneStands(v[0], v, v[1..], secrets);
    }
  }

  lemma OneStands(d: char, v: string, rest: string, secrets: seq<string>)
    requires Ordered(secrets) && v != "" && d == v[0] && rest == v[1..] && Covered(rest, secrets)
    requires Kept(d) && [d] !in secrets
    ensures StartsIn(d, 0, v, secrets) && Covered(v, secrets)
  {
    WideThenNarrow(secrets);
    ShapeOf(d, Narrow(secrets));
    var shape := Shape(d, secrets);
    assert shape[0..] == shape && shape <= v && v[|shape|..] == rest;
    assert MayStand(d, v, secrets) && Continues(v, shape, secrets);
  }

  lemma StandsUnreplaced(t: string, secrets: seq<string>, c: char)
    requires Ordered(secrets) && Cleared(t, secrets) && c in Glue(t, Narrow(secrets))
    ensures Kept(c) && ([c] in secrets ==> c in MARK)
  {
    WideThenNarrow(secrets);
    var out := RedactAll(t, Narrow(secrets));
    PrintableKept(out);
    SingleContained(out, c);
    if [c] in secrets && c !in MARK {
      if i: nat :| OccursAt(MARK, [c], i) { AtOccurrence(MARK, [c], i, 0); }
      SingleApart([c], MARK);
      if [c] in Narrow(secrets) {
        RedactRemoves(t, Narrow(secrets), [c]);
      } else {
        if i: nat :| OccursAt(t, [c], i) { AtOccurrence(t, [c], i, 0); }
        RedactKeepsAbsent(t, Narrow(secrets), [c]);
      }
    }
  }

  /** When no character of the value is both of the mark and a secret by itself: the list lets
      the value through exactly when it has no control character and none of its characters
      is a secret. */
  lemma ExposedPlainlyIff(v: string, secrets: seq<string>)
    requires Ordered(secrets) && v != "" && forall c :: c in v && c in MARK ==> [c] !in secrets
    ensures Exposed(v, secrets) <==> forall c :: c in v ==> Kept(c) && [c] !in secrets
  {
    if forall c :: c in v ==> Kept(c) && [c] !in secrets {
      AllStand(v, secrets);
    } else if d, k: nat :| StartsIn(d, k, v, secrets) {
      var t := ContinuedText(d, k, v, secrets);
      var c :| c in v && !(Kept(c) && [c] !in secrets);
      CharsOfPart(Glue(t, Narrow(secrets)), v, c);
      StandsUnreplaced(t, secrets, c);
    }
  }

  // ---------- one list, the finished diagnostic ----------

  /** Also within what the bound leaves. */
  ghost predicate StartsWithin(d: char, k: nat, v: string, secrets: seq<string>, max: nat)
    requires "" !in secrets
  {
    StartsIn(d, k, v, secrets) && ByteLength(Shape(d, secrets)[..k]) + ByteLength(v) <= max
  }

  ghost predicate ExposedWithin(v: string, secrets: seq<string>, max: nat)
    requires "" !in secrets
  {
    exists d: char, k: nat :: StartsWithin(d, k, v, secrets, max)
  }

  ghost predicate DiagnosticLets(secrets: seq<string>, text: string, v: string)
    requires "" !in secrets
  {
    Contains(Diagnostic(text, secrets), v)
  }

  /** The trim takes nothing off such a value and the bound adds nothing to it. */
  predicate Sturdy(v: string) {
    v != "" && !IsWhitespace(v[0]) && !IsWhitespace(v[|v| - 1]) && '\U{2026}' !in v
  }

  lemma ShapeHasNoBlank(d: char, k: nat, secrets: seq<string>)
    requires Ordered(secrets) && 0 < k < |Shape(d, secrets)|
    ensures !IsWhitespace(Shape(d, secrets)[0])
  {
    WideThenNarrow(secrets);
    ShapeOf(d, Narrow(secrets));
    MarkHasNoBlank();
  }

  lemma NeatEnds(row: string, ends: nat)
    requires Neat(row, ends) && |row| > ends
    ensures !IsWhitespace(row[|row| - 1])
  {
    MarkHasNoBlank();
  }

  lemma BoundKeeps(row: string, v: string, k: nat, max: nat)
    requires OccursAt(row, v, k) && ByteLength(row[..k]) + ByteLength(v) <= max
    ensures Contains(BoundedText(row, max), v)
  {
    var a := row[..k + |v|];
    EndOfPrefix(row, v, k, a);
    BytesAppend(row[..k], v);
    if ByteLength(row) > max {
      PrefixReaches(a, row, max);
      PrefixContained(BoundedText(row, max), a);
      ContainsTransitive(BoundedText(row, max), a, v);
    }
  }

  lemma EndOfPrefix(row: string, v: string, k: nat, a: string)
    requires OccursAt(row, v, k) && a == row[..k + |v|]
    ensures a == row[..k] + v && Contains(a, v)
  {
    assert a[k..k + |v|] == row[k..k + |v|];
    assert OccursAt(a, v, k);
  }

  /** A row that holds such a value, from its first shape on, is not trimmed. */
  lemma RowKeepsEnds(d: char, k: nat, v: string, secrets: seq<string>, row: string)
    requires Ordered(secrets) && Sturdy(v) && k < |Shape(d, secrets)|
    requires OccursAt(row, v, k) && Shape(d, secrets) <= row && Neat(row, k + |v|)
    ensures Trim(row) == row
  {
    AtOccurrence(row, v, k, 0);
    AtOccurrence(row, v, k, |v| - 1);
    if k > 0 { ShapeHasNoBlank(d, k, secrets); }
    if |row| > k + |v| { NeatEnds(row, k + |v|); }
    EndsKept(row, v, k, Shape(d, secrets)[0]);
  }

  lemma EndsKept(row: string, v: string, k: nat, first: char)
    requires Sturdy(v) && k + |v| <= |row| && row[0] == first && (k > 0 ==> !IsWhitespace(first))
    requires row[k] == v[0] && row[k + |v| - 1] == v[|v| - 1]
    requires |row| > k + |v| ==> !IsWhitespace(row[|row| - 1])
    ensures Trim(row) == row
  {
    TrimIsIdentity(row);
  }

  lemma {:induction false} LeadIsBlank(s: string, i: nat)
    requires i < |s| - |TrimStart(s)|
    ensures IsWhitespace(s[i])
  {
    if i > 0 {
      LeadIsBlank(s[1..], i - 1);
    }
  }

  /** What is trimmed off the start. */
  predicate Lead(s: string, end: string, lead: nat) {
    lead + |end| == |s| && end == s[lead..] && forall i :: 0 <= i < lead ==> IsWhitespace(s[i])
  }

  lemma TrimStartIsEnd(s: string)
    ensures Lead(s, TrimStart(s), |s| - |TrimStart(s)|)
  {
    forall i | 0 <= i < |s| - |TrimStart(s)| ensures IsWhitespace(s[i]) {
      LeadIsBlank(s, i);
    }
  }

  lemma LeadThenPrefix(s: string, end: string, lead: nat, w: string)
    requires Lead(s, end, lead) && w <= end
    ensures lead + |w| <= |s| && s[lead..lead + |w|] == w
    ensures forall i :: 0 <= i < lead ==> IsWhitespace(s[i])
  {
    assert w == end[..|w|];
  }

  lemma TrimIsSlice(s: string, w: string) returns (lead: nat)
    requires w == Trim(s)
    ensures lead + |w| <= |s| && s[lead..lead + |w|] == w
    ensures forall i :: 0 <= i < lead ==> IsWhitespace(s[i])
  {
    TrimStartIsEnd(s);
    TrimIsPrefix(s, w);
    lead := |s| - |TrimStart(s)|;
    LeadThenPrefix(s, TrimStart(s), lead, w);
  }

  lemma TrimIsPrefix(s: string, w: string)
    requires w == Trim(s)
    ensures w <= TrimStart(s)
  {
  }

  lemma WithinPrefix(w: string, q: string, v: string, i: nat, max: nat)
    requires q <= w && ByteLength(q) <= max && OccursAt(q, v, i)
    ensures OccursAt(w, v, i) && ByteLength(w[..i]) + ByteLength(v) <= max
  {
    assert w[i..i + |v|] == q[i..i + |v|] && w[..i] == q[..i];
    assert q == q[..i] + v + q[i + |v|..];
    BytesAppend(q[..i] + v, q[i + |v|..]);
    BytesAppend(q[..i], v);
  }

  lemma SturdyBody(v: string)
    requires Sturdy(v)
    ensures Body(v) == v
  {
    assert v[|v| - 1] in v;
  }

  /** A sturdy value in the bounded text stands in the text, within the bound. */
  lemma BoundShows(w: string, v: string, max: nat) returns (i: nat)
    requires Sturdy(v) && Contains(BoundedText(w, max), v)
    ensures OccursAt(w, v, i) && ByteLength(w[..i]) + ByteLength(v) <= max
  {
    i :| OccursAt(BoundedText(w, max), v, i);
    BodyOccurs(w, v, i, max);
    SturdyBody(v);
    WithinPrefix(w, if ByteLength(w) <= max then w else PrefixWithin(w, max), v, i, max);
  }

  /** The part of its shape before the value is not trimmed away. */
  lemma ShapeAfterLead(printed: string, shape: string, g: nat, k: nat, lead: nat, w: string, i: nat)
    requires OccursAt(printed, shape, g) && k <= |shape| && g + k == lead + i && lead <= g
    requires lead + |w| <= |printed| && w == printed[lead..lead + |w|] && i <= |w|
    ensures ByteLength(shape[..k]) <= ByteLength(w[..i])
  {
    var before, part := w[..g - lead], shape[..k];
    forall n | 0 <= n < k ensures w[g - lead + n] == part[n] {
      AtOccurrence(printed, shape, g, n);
    }
    assert w[..i] == before + part;
    BytesAppend(before, part);
  }

  lemma PlacedWithin(left: string, printed: string, v: string, secrets: seq<string>, max: nat,
                     lead: nat, w: string, i: nat) returns (d: char, k: nat)
    requires Ordered(secrets) && Cleared(left, secrets) && v != "" && printed == Glue(left, Narrow(secrets))
    requires lead + |w| <= |printed| && w == printed[lead..lead + |w|]
    requires forall n :: 0 <= n < lead ==> IsWhitespace(printed[n])
    requires OccursAt(w, v, i) && ByteLength(w[..i]) + ByteLength(v) <= max
    ensures StartsWithin(d, k, v, secrets, max)
  {
    SliceOccurs(printed, lead, w, v, i);
    var g;
    d, k, g := OccursStarts(left, printed, v, lead + i, secrets);
    if k == 0 {
      assert Shape(d, secrets)[..0] == "";
    } else {
      ShapeHasNoBlank(d, k, secrets);
      AtOccurrence(printed, Shape(d, secrets), g, 0);
      ShapeAfterLead(printed, Shape(d, secrets), g, k, lead, w, i);
    }
  }

  lemma SliceOccurs(text: string, lead: nat, w: string, v: string, i: nat)
    requires lead + |w| <= |text| && w == text[lead..lead + |w|] && OccursAt(w, v, i)
    ensures OccursAt(text, v, lead + i)
  {
    forall n | 0 <= n < |v| ensures text[lead + i + n] == v[n] {
      AtOccurrence(w, v, i, n);
    }
    assert text[lead + i..lead + i + |v|] == v;
  }

  lemma TrimmedStartsWithin(left: string, printed: string, w: string, lead: nat, v: string, secrets: seq<string>, max: nat)
    returns (d: char, k: nat)
    requires Ordered(secrets) && Cleared(left, secrets) && Sturdy(v) && printed == Glue(left, Narrow(secrets))
    requires lead + |w| <= |printed| && w == printed[lead..lead + |w|]
    requires forall n :: 0 <= n < lead ==> IsWhitespace(printed[n])
    requires Contains(BoundedText(w, max), v)
    ensures StartsWithin(d, k, v, secrets, max)
  {
    var i := BoundShows(w, v, max);
    d, k := PlacedWithin(left, printed, v, secrets, max, lead, w, i);
  }

  lemma GluedStartsWithin(left: string, printed: string, w: string, v: string, secrets: seq<string>, max: nat)
    returns (d: char, k: nat)
    requires Ordered(secrets) && Cleared(left, secrets) && Sturdy(v) && printed == Glue(left, Narrow(secrets))
    requires w == Trim(printed) && Contains(BoundedText(w, max), v)
    ensures StartsWithin(d, k, v, secrets, max)
  {
    var lead := TrimIsSlice(printed, w);
    d, k := TrimmedStartsWithin(left, printed, w, lead, v, secrets, max);
  }

  lemma ShownStartsWithin(text: string, printed: string, w: string, v: string, secrets: seq<string>, max: nat)
    returns (d: char, k: nat)
    requires Ordered(secrets) && Sturdy(v)
    requires printed == Printable(RedactAll(text, secrets)) && w == Trim(printed) && Contains(BoundedText(w, max), v)
    ensures StartsWithin(d, k, v, secrets, max)
  {
    var left := Left(text, secrets);
    d, k := GluedStartsWithin(left, printed, w, v, secrets, max);
  }

  lemma WithinShows(d: char, k: nat, v: string, secrets: seq<string>, max: nat, c: char) returns (text: string)
    requires Ordered(secrets) && Sturdy(v) && Separator(c, secrets) && StartsWithin(d, k, v, secrets, max)
    ensures Contains(BoundedText(Trim(Printable(RedactAll(text, secrets))), max), v)
  {
    var t := ContinuedText(d, k, v, secrets);
    text := Spread(t, c);
    SpreadComesThrough(t, secrets, c);
    RowShows(d, k, v, secrets, max, Glue(t, Narrow(secrets)));
  }

  lemma RowShows(d: char, k: nat, v: string, secrets: seq<string>, max: nat, row: string)
    requires Ordered(secrets) && Sturdy(v) && StartsWithin(d, k, v, secrets, max)
    requires OccursAt(row, v, k) && Shape(d, secrets) <= row && Neat(row, k + |v|)
    ensures Trim(row) == row && Contains(BoundedText(row, max), v)
  {
    RowKeepsEnds(d, k, v, secrets, row);
    RowBounded(d, k, v, secrets, max, row);
  }

  lemma RowBounded(d: char, k: nat, v: string, secrets: seq<string>, max: nat, row: string)
    requires Ordered(secrets) && StartsWithin(d, k, v, secrets, max)
    requires OccursAt(row, v, k) && Shape(d, secrets) <= row
    ensures Contains(BoundedText(row, max), v)
  {
    assert row[..k] == Shape(d, secrets)[..k];
    BoundKeeps(row, v, k, max);
  }

  /** One list and the finished diagnostic: some output shows a sturdy value exactly when it
      starts, in a row of shapes, near enough to the start of one for the bound. */
  lemma DiagnosticListIff(secrets: seq<string>, v: string, c: char)
    requires Ordered(secrets) && Sturdy(v) && Separator(c, secrets)
    ensures (exists text :: DiagnosticLets(secrets, text, v)) <==> ExposedWithin(v, secrets, DIAGNOSTIC_BYTES)
  {
    if text :| DiagnosticLets(secrets, text, v) {
      var printed := Printable(RedactAll(text, secrets));
      var d, k := ShownStartsWithin(text, printed, Trim(printed), v, secrets, DIAGNOSTIC_BYTES);
    }
    if d, k: nat :| StartsWithin(d, k, v, secrets, DIAGNOSTIC_BYTES) {
      var text := WithinShows(d, k, v, secrets, DIAGNOSTIC_BYTES, c);
      assert DiagnosticLets(secrets, text, v);
    }
  }
}
