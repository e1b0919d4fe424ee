/**
  How the pretty printer writes a string without colours: quoted, as a raw literal
  when it contains a quote, or cut in the middle when it is too long.
 */
module StringText {
  import opened Wrappers
  import opened Tokens
  import opened Utf8
  import Unescape

  // ---------------------------------------------------------------- raw literals

  function HashRun(s: string): (n: nat)
    ensures n <= |s|
  {
    if s != "" && s[0] == '#' then 1 + HashRun(s[1..]) else 0
  }

  function Hashes(n: nat): (s: string)
    ensures |s| == n && forall i :: 0 <= i < n ==> s[i] == '#'
  {
    seq(n, _ => '#')
  }

  /** A raw literal opened with `width` hashes may end at `at`. */
  predicate EndsAt(text: string, width: nat, at: nat) {
    && at + 1 + width <= |text| && text[at] == '"'
    && forall k :: at < k <= at + width ==> text[k] == '#'
  }

  /** The body of the raw literal, read up to the first place where it may end. */
  function ReadRaw(text: string, width: nat, from: nat): Option<string>
    requires from <= |text|
    decreases |text| - from
  {
    if EndsAt(text, width, from) then Some(text[..from])
    else if from == |text| then None
    else ReadRaw(text, width, from + 1)
  }

  function Max(a: nat, b: nat): nat {
    if a < b then b else a
  }

  /** What the scan computes: over all quotes, one more than the hashes behind it. */
  function Needed(s: string): (n: nat)
    ensures n > 0 <==> '"' in s
  {
    if s == "" then 0
    else Max(if s[0] == '"' then 1 + HashRun(s[1..]) else 0, Needed(s[1..]))
  }

  function Find(s: string): (r: Option<nat>)
    ensures r == None ==> '"' !in s
    ensures r.Some? ==> r.value < |s| && s[r.value] == '"' && '"' !in s[..r.value]
  {
    if s == "" then None
    else if s[0] == '"' then Some(0)
    else
      match Find(s[1..])
      case Some(i) => assert s[..i + 1] == [s[0]] + s[1..][..i]; Some(i + 1)
      case None => None
  }

  lemma {:induction false} NeededSkips(s: string, i: nat)
    requires i <= |s| && '"' !in s[..i]
    ensures Needed(s) == Needed(s[i..])
  {
    if i > 0 {
      assert s[0] == s[..i][0];
      assert s[1..][..i - 1] == s[..i][1..];
      NeededSkips(s[1..], i - 1);
      assert s[1..][i - 1..] == s[i..];
    } else {
      assert s[0..] == s;
    }
  }

  lemma {:induction false} HashRunIsRun(s: string, w: nat)
    ensures w <= HashRun(s) <==> w <= |s| && forall k :: 0 <= k < w ==> s[k] == '#'
  {
    if w > 0 && s != "" {
      HashRunIsRun(s[1..], w - 1);
      if s[0] == '#' {
        forall k | 0 <= k < w && w <= HashRun(s) ensures s[k] == '#' {
          if k > 0 {
            assert s[k] == s[1..][k - 1];
          }
        }
        if w <= |s| && forall k :: 0 <= k < w ==> s[k] == '#' {
          assert forall k :: 0 <= k < w - 1 ==> s[1..][k] == s[k + 1];
        }
      }
    }
  }

  /** The scan is exact: a body can end early at a width exactly when the width is less. */
  lemma {:induction false} NeededIsLeast(s: string, w: nat)
    ensures w < Needed(s) <==> exists i :: 0 <= i < |s| && EndsAt(s, w, i)
  {
    if s != "" {
      NeededIsLeast(s[1..], w);
      HashRunIsRun(s[1..], w);
      FirstEnds(s, w);
      if i :| 0 <= i < |s| && EndsAt(s, w, i) {
        if i > 0 {
          EndsShifted(s, w, i);
          assert EndsAt(s[1..], w, i - 1);
        }
      }
      if i :| 0 <= i < |s[1..]| && EndsAt(s[1..], w, i) {
        EndsShifted(s, w, i + 1);
        assert EndsAt(s, w, i + 1);
      }
    }
  }

  lemma FirstEnds(s: string, w: nat)
    requires s != ""
    ensures EndsAt(s, w, 0) <==> s[0] == '"' && w <= HashRun(s[1..])
  {
    HashRunIsRun(s[1..], w);
    assert forall k :: 0 < k < |s| ==> s[k] == s[1..][k - 1];
    if s[0] == '"' && w <= HashRun(s[1..]) {
      forall k | 0 < k <= w ensures s[k] == '#' {
        assert s[1..][k - 1] == '#';
      }
    }
    if EndsAt(s, w, 0) {
      forall k | 0 <= k < w ensures s[1..][k] == '#' {
        assert s[k + 1] == '#';
      }
    }
  }

  lemma EndsShifted(s: string, w: nat, i: nat)
    requires 0 < i < |s|
    ensures EndsAt(s, w, i) <==> EndsAt(s[1..], w, i - 1)
  {
    if EndsAt(s, w, i) {
      forall k | i - 1 < k <= i - 1 + w ensures s[1..][k] == '#' {
        assert s[k + 1] == '#';
      }
    }
    if EndsAt(s[1..], w, i - 1) {
      forall k | i < k <= i + w ensures s[k] == '#' {
        assert s[1..][k - 1] == '#';
      }
    }
  }

  /** The closing quote stops every run of hashes, so the body alone decides. */
  lemma EndsInBody(s: string, w: nat, i: nat)
    requires i < |s|
    ensures EndsAt(s + "\"" + Hashes(w), w, i) <==> EndsAt(s, w, i)
  {
    var text := s + "\"" + Hashes(w);
    assert text[|s|] == '"';
    assert forall k :: 0 <= k < |s| ==> text[k] == s[k];
    if EndsAt(text, w, i) && i + 1 + w > |s| {
      assert i < |s| <= i + w;
    }
  }

  lemma {:induction false} ReadsFrom(text: string, w: nat, from: nat, at: nat)
    requires from <= at <= |text| && EndsAt(text, w, at)
    ensures ReadRaw(text, w, from) == Some(text[..at]) <==> forall i :: from <= i < at ==> !EndsAt(text, w, i)
    decreases at - from
  {
    if from < at {
      if EndsAt(text, w, from) {
        assert |text[..from]| != |text[..at]|;
      } else {
        ReadsFrom(text, w, from + 1, at);
      }
    }
  }

  /** A raw literal reads back as its body exactly when it has at least the scanned number of hashes. */
  lemma RawRoundTrip(s: string, w: nat)
    ensures ReadRaw(s + "\"" + Hashes(w), w, 0) == Some(s) <==> Needed(s) <= w
  {
    var text := s + "\"" + Hashes(w);
    assert EndsAt(text, w, |s|);
    assert text[..|s|] == s;
    ReadsFrom(text, w, 0, |s|);
    NeededIsLeast(s, w);
    forall i | 0 <= i < |s| ensures EndsAt(text, w, i) <==> EndsAt(s, w, i) {
      EndsInBody(s, w, i);
    }
  }

  /** The printer writes one hash too few: no string with a quote reads back from its raw literal. */
  lemma EmittedEndsEarly(s: string)
    requires '"' in s
    ensures ReadRaw(s + "\"" + Hashes(Needed(s) - 1), Needed(s) - 1, 0) != Some(s)
  {
    hide ReadRaw, Needed, Hashes;
    RawRoundTrip(s, Needed(s) - 1);
  }

  // ---------------------------------------------------------------- reading a literal back

  /** The value of a string literal, raw or with escapes, when the text is one and nothing else. */
  function ReadLiteral(text: string): Option<string> {
    if text == "" then None
    else if text[0] == '"' then
      if |text| > 1 && QuoteLength(text[1..]) == |text| - 1 && Unescape.Decode(text[1..|text| - 1]).Ok?
      then Some(Unescape.Decode(text[1..|text| - 1]).value)
      else None
    else if text[0] == 'r' then
      var w := HashRun(text[1..]);
      var after := text[1 + w..];
      if after != "" && after[0] == '"' && ReadRaw(after[1..], w, 0).Some?
         && |ReadRaw(after[1..], w, 0).value| + 1 + w == |after[1..]|
      then ReadRaw(after[1..], w, 0)
      else None
    else None
  }

  lemma {:induction false} QuotePlain(s: string)
    requires '"' !in s && '\\' !in s
    ensures QuoteLength(s + "\"") == |s| + 1
  {
    if s != "" {
      assert s[0] in s && forall c :: c in s[1..] ==> c in s;
      QuotePlain(s[1..]);
      assert (s + "\"")[1..] == s[1..] + "\"";
    }
  }

  /** A text between quotes reads back exactly when it has no quote and no backslash. */
  lemma QuotedReads(s: string)
    requires '"' !in s
    ensures ReadLiteral("\"" + s + "\"") == Some(s) <==> '\\' !in s
  {
    var text := "\"" + s + "\"";
    assert text[1..] == s + "\"" && text[1..|text| - 1] == s;
    Unescape.DecodeFixes(s);
    if '\\' !in s { QuotePlain(s); }
  }

  lemma RawReadsBody(w: nat, body: string)
    ensures var r := ReadLiteral("r" + (Hashes(w) + ("\"" + body)));
            r == None || r == ReadRaw(body, w, 0)
  {
    hide ReadRaw, HashRun, Hashes, QuoteLength;
    var after := "\"" + body;
    var text := "r" + (Hashes(w) + after);
    HashRunOfHashes(w, after);
    assert text[1..] == Hashes(w) + after;
    assert text[1 + w..] == (Hashes(w) + after)[w..] == after;
    assert after[1..] == body;
  }

  /** The raw literal that is written for a text with a quote never reads back. */
  lemma RawMisreads(s: string)
    requires '"' in s
    ensures var w := Needed(s) - 1;
            ReadLiteral("r" + Hashes(w) + "\"" + s + "\"" + Hashes(w)) != Some(s)
  {
    hide ReadRaw, ReadLiteral, Needed, Hashes;
    var w := Needed(s) - 1;
    var body := s + "\"" + Hashes(w);
    RawReadsBody(w, body);
    EmittedEndsEarly(s);
    assert "r" + Hashes(w) + "\"" + s + "\"" + Hashes(w) == "r" + (Hashes(w) + ("\"" + body));
  }

  lemma {:induction false} HashRunOfHashes(w: nat, s: string)
    requires s != "" && s[0] != '#'
    ensures HashRun(Hashes(w) + s) == w
  {
    if w == 0 {
      assert Hashes(0) + s == s;
    } else {
      assert (Hashes(w) + s)[1..] == Hashes(w - 1) + s;
      HashRunOfHashes(w - 1, s);
    }
  }

  // ---------------------------------------------------------------- cutting in the middle

  /** The characters whose first byte is before `half`. */
  function StartChars(s: string, half: nat): (n: nat)
    ensures n <= |s|
  {
    if s == "" then 0
    else if ByteLen(s[..|s| - 1]) < half then |s|
    else StartChars(s[..|s| - 1], half)
  }

  /** The characters that begin within `half` bytes of the end; `from` of them are not yet looked at. */
  function EndChar(s: string, half: nat, from: nat): (n: nat)
    requires from <= |s|
    ensures n <= from
  {
    if from > 0 && ByteLen(s) - ByteLen(s[..from - 1]) <= half then EndChar(s, half, from - 1) else from
  }

  datatype Cut = Cut(startPart: string, omitted: nat, endPart: string)

  lemma {:induction false} LengthGrows(s: string, i: nat, j: nat)
    requires i <= j <= |s|
    ensures ByteLen(s[..i]) + (j - i) <= ByteLen(s[..j])
    decreases j - i
  {
    if i < j {
      LengthGrows(s, i, j - 1);
      assert s[..j][..j - 1] == s[..j - 1];
    }
  }

  lemma {:induction false} StartIsLongest(s: string, half: nat)
    ensures var n := StartChars(s, half);
            && (n > 0 ==> ByteLen(s[..n - 1]) < half && ByteLen(s[..n]) <= half + 3)
            && (n < |s| ==> ByteLen(s[..n]) >= half)
  {
    if s != "" {
      var last := |s| - 1;
      assert s[..|s|] == s;
      if ByteLen(s[..last]) >= half {
        StartIsLongest(s[..last], half);
        var n := StartChars(s[..last], half);
        assert s[..last][..n] == s[..n];
        if n > 0 {
          assert s[..last][..n - 1] == s[..n - 1];
          assert s[..n][..n - 1] == s[..n - 1];
        }
      }
    }
  }

  lemma {:induction false} EndIsLongest(s: string, half: nat, from: nat)
    requires from <= |s| && ByteLen(s) - ByteLen(s[..from]) <= half
    ensures var n := EndChar(s, half, from);
            && ByteLen(s) - ByteLen(s[..n]) <= half
            && (n > 0 ==> ByteLen(s) - ByteLen(s[..n - 1]) > half)
  {
    if from > 0 && ByteLen(s) - ByteLen(s[..from - 1]) <= half {
      EndIsLongest(s, half, from - 1);
    }
  }

  function CutMiddle(s: string, max: nat): Cut
    requires ByteLen(s) > max
  {
    var half := max / 2;
    var start := StartChars(s, half);
    var end := EndChar(s, half, |s|);
    CutsInOrder(s, max);
    Cut(s[..start], end - start, s[end..])
  }

  lemma CutsInOrder(s: string, max: nat)
    requires ByteLen(s) > max
    ensures StartChars(s, max / 2) <= EndChar(s, max / 2, |s|)
  {
    var start, end := StartChars(s, max / 2), EndChar(s, max / 2, |s|);
    assert s[..|s|] == s;
    StartIsLongest(s, max / 2);
    EndIsLongest(s, max / 2, |s|);
    if end < start {
      LengthGrows(s, end, start - 1);
    }
  }

  /** The parts and the omitted middle rebuild the string, and the count is right. */
  lemma CutRebuilds(s: string, max: nat)
    requires ByteLen(s) > max
    ensures var cut := CutMiddle(s, max);
            && |cut.startPart| + cut.omitted + |cut.endPart| == |s|
            && s == cut.startPart + s[|cut.startPart|..|cut.startPart| + cut.omitted] + cut.endPart
  {
    hide StartChars, EndChar, ByteLen;
    CutsInOrder(s, max);
    var start, end := StartChars(s, max / 2), EndChar(s, max / 2, |s|);
    ThreeParts(s, start, end);
    assert CutMiddle(s, max) == Cut(s[..start], end - start, s[end..]);
  }

  lemma ThreeParts(s: string, i: nat, j: nat)
    requires i <= j <= |s|
    ensures s == s[..i] + s[i..j] + s[j..]
  {
  }

  /** At most three bytes over the limit are kept, and neither part could have been longer. */
  lemma CutIsTight(s: string, max: nat)
    requires ByteLen(s) > max
    ensures var cut := CutMiddle(s, max);
            && ByteLen(cut.startPart) + ByteLen(cut.endPart) <= max + 3
            && ByteLen(cut.startPart) >= max / 2
            && (cut.startPart != "" ==> ByteLen(cut.startPart[..|cut.startPart| - 1]) < max / 2)
            && ByteLen(cut.endPart) <= max / 2
            && |cut.endPart| < |s| && ByteLen(s[|s| - |cut.endPart| - 1..]) > max / 2
  {
    var half := max / 2;
    var start, end := StartChars(s, half), EndChar(s, half, |s|);
    CutsInOrder(s, max);
    assert s[..|s|] == s;
    StartIsTight(s, half);
    EndIsTight(s, half);
    var cut := CutMiddle(s, max);
    assert cut.startPart == s[..start] && cut.endPart == s[end..];
  }

  lemma StartIsTight(s: string, half: nat)
    requires half < ByteLen(s)
    ensures var part := s[..StartChars(s, half)];
            && half <= ByteLen(part) <= half + 3
            && (part != "" ==> ByteLen(part[..|part| - 1]) < half)
  {
    var n := StartChars(s, half);
    assert s[..|s|] == s;
    StartIsLongest(s, half);
    if n > 0 {
      assert s[..n][..n - 1] == s[..n - 1];
    }
  }

  lemma EndIsTight(s: string, half: nat)
    requires half < ByteLen(s)
    ensures var n := EndChar(s, half, |s|);
            n > 0 && ByteLen(s[n..]) <= half && ByteLen(s[n - 1..]) > half
  {
    var n := EndChar(s, half, |s|);
    assert s[..|s|] == s;
    EndIsLongest(s, half, |s|);
    assert s == s[..n] + s[n..];
    ByteLenAppend(s[..n], s[n..]);
    assert n > 0;
    assert s == s[..n - 1] + s[n - 1..];
    ByteLenAppend(s[..n - 1], s[n - 1..]);
  }

  // ---------------------------------------------------------------- the printer

  /** Both parts of the text, and how many characters are missing between them. */
  ghost predicate ShowsCut(text: string, value: string, limit: nat, a: string, n: nat, b: string) {
    && text == "\"" + a + "\"...(" + Decimal(n) + " chars)...\"" + b + "\""
    && |a| + n + |b| == |value| && value == a + value[|a|..|a| + n] + b
    && limit / 2 <= ByteLen(a) && ByteLen(b) <= limit / 2 && ByteLen(a) + ByteLen(b) <= limit + 3
  }

  lemma CutShows(value: string, limit: nat)
    requires ByteLen(value) > limit
    ensures var cut := CutMiddle(value, limit);
            ShowsCut("\"" + cut.startPart + "\"...(" + Decimal(cut.omitted) + " chars)...\"" + cut.endPart + "\"",
                     value, limit, cut.startPart, cut.omitted, cut.endPart)
  {
    hide CutMiddle, ByteLen, Decimal;
    CutRebuilds(value, limit);
    CutIsTight(value, limit);
  }

  /**
    `format_str_value` without colours.  A text within the limit reads back as the
    value exactly when the value has neither quotes nor backslashes; a longer one shows
    a start and an end of the value and counts the characters between.
   */
  method FormatStrValue(value: string, limit: Option<nat>) returns (text: string)
    ensures limit.Some? && ByteLen(value) > limit.value ==>
              exists a: string, n: nat, b: string :: ShowsCut(text, value, limit.value, a, n, b)
    ensures limit.None? || ByteLen(value) <= limit.value ==>
              (ReadLiteral(text) == Some(value) <==> '"' !in value && '\\' !in value)
    ensures limit.None? || ByteLen(value) <= limit.value ==>
              text == if '"' in value
                      then "r" + Hashes(Needed(value) - 1) + "\"" + value + "\"" + Hashes(Needed(value) - 1)
                      else "\"" + value + "\""
  {
    hide ReadLiteral, CutMiddle, ShowsCut, Needed;
    if limit.Some? && ByteLen(value) > limit.value {
      var cut := CutMiddle(value, limit.value);
      CutShows(value, limit.value);
      return "\"" + cut.startPart + "\"...(" + Decimal(cut.omitted) + " chars)...\"" + cut.endPart + "\"";
    }
    var hashes := ScanHashes(value);
    var width := if hashes > 0 then hashes - 1 else 0;
    text := "";
    if hashes > 0 {
      text := text + "r" + Hashes(width);
    }
    text := text + "\"";
    text := text + value;
    text := text + "\"";
    if hashes > 0 {
      text := text + Hashes(width);
      RawMisreads(value);
      assert text == "r" + Hashes(width) + "\"" + value + "\"" + Hashes(width);
    } else {
      assert text == "\"" + value + "\"";
      QuotedReads(value);
    }
  }

  /** The scan: from quote to quote, counting the hashes behind each. */
  method ScanHashes(value: string) returns (hashes: nat)
    ensures hashes == Needed(value)
    ensures forall w: nat :: hashes <= w <==> ReadRaw(value + "\"" + Hashes(w), w, 0) == Some(value)
  {
    hashes := 0;
    var rest := value;
    var found := Find(rest);
    while found.Some?
      invariant found == Find(rest)
      invariant Max(hashes, Needed(rest)) == Needed(value)
      decreases |rest|
    {
      ghost var was := rest;
      NeededSkips(rest, found.value);
      rest := rest[found.value + 1..];
      assert was[found.value..][1..] == rest;
      var before := |rest|;
      var run := HashRun(rest);
      HashRunIsRun(rest, run);
      NeededSkips(rest, run);
      rest := rest[run..];
      var count := before - |rest|;
      hashes := Max(hashes, 1 + count);
      found := Find(rest);
    }
    forall w: nat ensures hashes <= w <==> ReadRaw(value + "\"" + Hashes(w), w, 0) == Some(value) {
      RawRoundTrip(value, w);
    }
  }
}
