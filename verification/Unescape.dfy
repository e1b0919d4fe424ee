/**
  The escape decoder for doc strings, proved against a grammar of escapes: it
  accepts exactly the spellings of legal pieces, and no text is spelled two ways.
 */
module Unescape {
  import opened Wrappers
  import opened Utf8

  newtype u8 = x: int | 0 <= x < 0x100
  newtype u32 = x: int | 0 <= x < 0x1_0000_0000

  // ---------------------------------------------------------------- characters

  predicate IsHex(c: char) {
    '0' <= c <= '9' || 'a' <= c <= 'f' || 'A' <= c <= 'F'
  }

  /** `to_digit(16)`. */
  function Digit(c: char): (d: nat)
    requires IsHex(c)
    ensures d < 16
  {
    if c <= '9' then c as int - '0' as int
    else if c <= 'F' then c as int - 'A' as int + 10
    else c as int - 'a' as int + 10
  }

  function HexValue(digits: string): nat
    requires forall i :: 0 <= i < |digits| ==> IsHex(digits[i])
  {
    if digits == "" then 0 else HexValue(digits[..|digits| - 1]) * 16 + Digit(digits[|digits| - 1])
  }

  predicate AllHex(s: string) {
    forall i :: 0 <= i < |s| ==> IsHex(s[i])
  }

  /** `char::from_u32` succeeds. */
  predicate IsScalarValue(n: nat) {
    n < 0xD800 || 0xE000 <= n < 0x110000
  }

  // ---------------------------------------------------------------- the grammar

  datatype Piece = Plain(c: char) | Simple(letter: char) | Hex(digits: string) | Unicode(digits: string)

  const SIMPLE: string := "\\\"'nrt0"
  const MEANING: string := "\\\"'\n\r\t\0"

  predicate Legal(p: Piece) {
    match p
    case Plain(c) => c != '\\'
    case Simple(letter) => letter in SIMPLE
    case Hex(digits) => |digits| == 2 && AllHex(digits)
    case Unicode(digits) => 1 <= |digits| <= 6 && AllHex(digits) && IsScalarValue(HexValue(digits))
  }

  function Spell(p: Piece): string {
    match p
    case Plain(c) => [c]
    case Simple(letter) => ['\\', letter]
    case Hex(digits) => "\\x" + digits
    case Unicode(digits) => "\\u{" + digits + "}"
  }

  /** The position of the first occurrence of `c`. */
  function PositionOf(c: char, s: string): (k: nat)
    requires c in s
    ensures k < |s| && s[k] == c
  {
    if s[0] == c then 0 else 1 + PositionOf(c, s[1..])
  }

  function Meaning(p: Piece): char
    requires Legal(p)
  {
    match p
    case Plain(c) => c
    case Simple(letter) => MEANING[PositionOf(letter, SIMPLE)]
    case Hex(digits) =>
      HexTwo(digits);
      HexValue(digits) as char
    case Unicode(digits) => HexValue(digits) as char
  }

  lemma HexTwo(digits: string)
    requires |digits| == 2 && AllHex(digits)
    ensures HexValue(digits) == Digit(digits[0]) * 16 + Digit(digits[1]) < 256
  {
    assert digits[..1] == [digits[0]] && [digits[0]][..0] == "";
    assert HexValue([digits[0]]) == HexValue("") * 16 + Digit(digits[0]);
    assert HexValue(digits) == HexValue(digits[..1]) * 16 + Digit(digits[1]);
  }

  lemma {:induction false} HexBound(digits: string)
    requires AllHex(digits) && |digits| <= 6
    ensures HexValue(digits) < 0x100_0000
    ensures |digits| <= 5 ==> HexValue(digits) < 0x10_0000
  {
    HexPower(digits);
    assert Power(5) == 0x10_0000 && Power(6) == 0x100_0000;
    PowerGrows(|digits|, 6);
    if |digits| <= 5 { PowerGrows(|digits|, 5); }
  }

  function Power(n: nat): nat {
    if n == 0 then 1 else 16 * Power(n - 1)
  }

  lemma {:induction false} PowerGrows(m: nat, n: nat)
    requires m <= n
    ensures Power(m) <= Power(n)
    decreases n
  {
    if m < n { PowerGrows(m, n - 1); }
  }

  lemma {:induction false} HexPower(digits: string)
    requires AllHex(digits)
    ensures HexValue(digits) < Power(|digits|)
  {
    if digits != "" { HexPower(digits[..|digits| - 1]); }
  }

  predicate AllLegal(ps: seq<Piece>) {
    forall i :: 0 <= i < |ps| ==> Legal(ps[i])
  }

  function SpellAll(ps: seq<Piece>): string {
    if ps == [] then "" else Spell(ps[0]) + SpellAll(ps[1..])
  }

  function MeaningAll(ps: seq<Piece>): string
    requires AllLegal(ps)
  {
    if ps == [] then "" else [Meaning(ps[0])] + MeaningAll(ps[1..])
  }

  /** `s` spells `t` according to the grammar. */
  ghost predicate Decodes(s: string, t: string) {
    exists ps :: AllLegal(ps) && SpellAll(ps) == s && MeaningAll(ps) == t
  }

  // ---------------------------------------------------------------- scanning one escape

  datatype Fault = IllegalCharacter(found: char) | UnexpectedEof | InvalidHex | InvalidUnicode

  /** How many hex digits a text starts with. */
  function DigitRun(s: string): (n: nat)
    ensures n <= |s| && AllHex(s[..n]) && (n < |s| ==> !IsHex(s[n]))
  {
    if s == "" || !IsHex(s[0]) then 0
    else
      var n := 1 + DigitRun(s[1..]);
      assert s[..n] == [s[0]] + s[1..][..n - 1];
      n
  }

  /** The escape at the start of `s`, or what is wrong with it. */
  function Scan(s: string): (r: Result<Piece, Fault>)
    requires s != "" && s[0] == '\\'
    ensures r.Ok? ==> Legal(r.value) && Spell(r.value) <= s
  {
    if |s| == 1 then Err(UnexpectedEof)
    else if s[1] in SIMPLE then Ok(Simple(s[1]))
    else if s[1] == 'x' then
      if |s| >= 4 && AllHex(s[2..4]) then Ok(Hex(s[2..4])) else Err(InvalidHex)
    else if s[1] == 'u' then
      if |s| < 3 || s[2] != '{' then Err(InvalidUnicode) else
      var n := DigitRun(s[3..]);
      if 1 <= n <= 6 && 3 + n < |s| && s[3 + n] == '}' && IsScalarValue(HexValue(s[3..][..n]))
      then
        assert s[..4 + n] == "\\u{" + s[3..][..n] + "}";
        Ok(Unicode(s[3..][..n]))
      else Err(InvalidUnicode)
    else Err(IllegalCharacter(s[1]))
  }

  /** An escape that is there is found, and nothing else is. */
  lemma ScanFinds(p: Piece, rest: string)
    requires Legal(p) && !p.Plain?
    ensures Scan(Spell(p) + rest) == Ok(p)
  {
    var s := Spell(p) + rest;
    match p {
      case Simple(letter) =>
      case Hex(digits) => assert s[2..4] == digits;
      case Unicode(digits) =>
        var n := |digits|;
        assert s[3..][..n] == digits && s[3 + n] == '}';
        DigitRunIs(s[3..], n);
    }
  }

  lemma {:induction false} DigitRunIs(s: string, n: nat)
    requires n < |s| && AllHex(s[..n]) && !IsHex(s[n])
    ensures DigitRun(s) == n
  {
    var k := DigitRun(s);
    assert forall i :: 0 <= i < n ==> s[..n][i] == s[i];
    assert forall i :: 0 <= i < k ==> s[..k][i] == s[i];
  }

  // ---------------------------------------------------------------- what the decoder computes

  /** The whole decoding: the text, or where the first bad escape is and what is wrong with it. */
  function Decode(s: string): (r: Result<string, (nat, Fault)>)
    ensures r.Err? ==> r.error.0 < |s| && s[r.error.0] == '\\'
  {
    if s == "" then Ok("")
    else if s[0] != '\\' then Follow(s[0], 1, Decode(s[1..]))
    else
      match Scan(s)
      case Err(fault) => Err((0, fault))
      case Ok(p) => Follow(Meaning(p), |Spell(p)|, Decode(s[|Spell(p)|..]))
  }

  function Follow(c: char, length: nat, r: Result<string, (nat, Fault)>): Result<string, (nat, Fault)> {
    match r
    case Ok(t) => Ok([c] + t)
    case Err((at, fault)) => Err((length + at, fault))
  }

  lemma DecodeStep(p: Piece, rest: string)
    requires Legal(p)
    ensures Decode(Spell(p) + rest) == Follow(Meaning(p), |Spell(p)|, Decode(rest))
  {
    assert (Spell(p) + rest)[|Spell(p)|..] == rest;
    if !p.Plain? { ScanFinds(p, rest); }
  }

  lemma {:induction false} SpellingsDecode(ps: seq<Piece>, rest: string)
    requires AllLegal(ps)
    ensures Decode(SpellAll(ps) + rest) ==
            if Decode(rest).Ok? then Ok(MeaningAll(ps) + Decode(rest).value)
            else Err((|SpellAll(ps)| + Decode(rest).error.0, Decode(rest).error.1))
    decreases |ps|
  {
    hide Decode, Spell, Meaning, Legal;
    if ps == [] {
      assert "" + rest == rest;
      assert Decode(rest).Ok? ==> "" + Decode(rest).value == Decode(rest).value;
    } else {
      SpellingsDecode(ps[1..], rest);
      DecodeStep(ps[0], SpellAll(ps[1..]) + rest);
      assert SpellAll(ps) + rest == Spell(ps[0]) + (SpellAll(ps[1..]) + rest);
      var r := Decode(rest);
      if r.Ok? {
        assert [Meaning(ps[0])] + (MeaningAll(ps[1..]) + r.value) == MeaningAll(ps) + r.value;
      }
    }
  }

  /** The pieces read so far, up to the end or to the first bad escape. */
  lemma {:induction false} DecodeReads(s: string) returns (ps: seq<Piece>)
    ensures AllLegal(ps)
    ensures Decode(s).Ok? ==> SpellAll(ps) == s && MeaningAll(ps) == Decode(s).value
    ensures Decode(s).Err? ==>
              var e := Decode(s).error; SpellAll(ps) == s[..e.0] && Scan(s[e.0..]) == Err(e.1)
    decreases |s|
  {
    if s == "" {
      ps := [];
    } else if s[0] == '\\' && Scan(s).Err? {
      ps := [];
      assert s[0..] == s;
    } else {
      var p := if s[0] == '\\' then Scan(s).value else Plain(s[0]);
      var n := |Spell(p)|;
      var rest := DecodeReads(s[n..]);
      ps := [p] + rest;
      assert s == Spell(p) + s[n..];
      ReadsOn(p, s[n..], rest);
    }
  }

  /** One piece, and then what was read of the rest. */
  lemma ReadsOn(p: Piece, rest: string, ps: seq<Piece>)
    requires Legal(p) && AllLegal(ps)
    requires Decode(rest).Ok? ==> SpellAll(ps) == rest && MeaningAll(ps) == Decode(rest).value
    requires Decode(rest).Err? ==>
               var e := Decode(rest).error; SpellAll(ps) == rest[..e.0] && Scan(rest[e.0..]) == Err(e.1)
    ensures AllLegal([p] + ps)
    ensures var s := Spell(p) + rest;
            && (Decode(s).Ok? ==> SpellAll([p] + ps) == s && MeaningAll([p] + ps) == Decode(s).value)
            && (Decode(s).Err? ==>
                  var e := Decode(s).error; SpellAll([p] + ps) == s[..e.0] && Scan(s[e.0..]) == Err(e.1))
  {
    hide Decode, Scan, Spell, Meaning, Legal;
    DecodeStep(p, rest);
    assert ([p] + ps)[1..] == ps;
    var s, n := Spell(p) + rest, |Spell(p)|;
    if Decode(rest).Err? {
      var at := Decode(rest).error.0;
      assert s[..n + at] == Spell(p) + rest[..at];
      assert s[n + at..] == rest[at..];
    }
  }

  /** The decoder answers `t` exactly when the grammar derives the input from `t`. */
  lemma DecodeIsGrammar(s: string, t: string)
    ensures Decode(s) == Ok(t) <==> Decodes(s, t)
  {
    if Decode(s) == Ok(t) {
      var ps := DecodeReads(s);
    }
    if ps :| AllLegal(ps) && SpellAll(ps) == s && MeaningAll(ps) == t {
      SpellingsDecode(ps, "");
      assert SpellAll(ps) + "" == s && MeaningAll(ps) + "" == t;
    }
  }

  /** The grammar is unambiguous: a text has at most one reading. */
  lemma {:induction false} SpellingsUnique(ps: seq<Piece>, qs: seq<Piece>)
    requires AllLegal(ps) && AllLegal(qs) && SpellAll(ps) == SpellAll(qs)
    ensures ps == qs
    decreases |ps|
  {
    if ps != [] && qs != [] {
      FirstUnique(ps[0], SpellAll(ps[1..]), qs[0], SpellAll(qs[1..]));
      SpellingsUnique(ps[1..], qs[1..]);
      assert ps == [ps[0]] + ps[1..] && qs == [qs[0]] + qs[1..];
    }
  }

  lemma FirstUnique(p: Piece, a: string, q: Piece, b: string)
    requires Legal(p) && Legal(q) && Spell(p) + a == Spell(q) + b
    ensures p == q && a == b
  {
    assert (Spell(p) + a)[0] == Spell(p)[0] && (Spell(q) + b)[0] == Spell(q)[0];
    if !p.Plain? && !q.Plain? {
      ScanFinds(p, a);
      ScanFinds(q, b);
    }
    assert a == (Spell(p) + a)[|Spell(p)|..] && b == (Spell(q) + b)[|Spell(q)|..];
  }

  /** An error points at a backslash whose escape is bad; everything before it decodes. */
  lemma ErrorPosition(s: string)
    requires Decode(s).Err?
    ensures var e := Decode(s).error;
            && e.0 < |s| && s[e.0] == '\\'
            && Scan(s[e.0..]) == Err(e.1)
            && (exists t :: Decodes(s[..e.0], t))
            && !exists t :: Decodes(s, t)
  {
    var (at, fault) := Decode(s).error;
    var ps := DecodeReads(s);
    assert Decodes(s[..at], MeaningAll(ps));
    forall t ensures !Decodes(s, t) { DecodeIsGrammar(s, t); }
  }

  // ---------------------------------------------------------------- size

  lemma PieceShrinks(p: Piece)
    requires Legal(p)
    ensures Utf8Len(Meaning(p)) <= ByteLen(Spell(p))
  {
    ByteLenLower(Spell(p));
    match p {
      case Plain(c) => assert [c][..0] == "";
      case Simple(letter) =>
      case Hex(digits) => HexTwo(digits);
      case Unicode(digits) =>
    }
  }

  lemma {:induction false} PiecesShrink(ps: seq<Piece>)
    requires AllLegal(ps)
    ensures ByteLen(MeaningAll(ps)) <= ByteLen(SpellAll(ps))
  {
    if ps != [] {
      PieceShrinks(ps[0]);
      PiecesShrink(ps[1..]);
      ByteLenAppend(Spell(ps[0]), SpellAll(ps[1..]));
      ByteLenAppend([Meaning(ps[0])], MeaningAll(ps[1..]));
      assert [Meaning(ps[0])][..0] == "";
    }
  }

  /** Decoding never needs more bytes than the input has. */
  lemma DecodeShrinks(s: string)
    requires Decode(s).Ok?
    ensures ByteLen(Decode(s).value) <= ByteLen(s)
  {
    var ps := DecodeReads(s);
    PiecesShrink(ps);
  }

  lemma EscapeLength(s: string, p: Piece)
    requires s != "" && s[0] == '\\' && Legal(p) && Spell(p) <= s
    ensures |Spell(p)| >= 2
  {
  }

  /** The value of a digit is its place among the sixteen, in either case. */
  lemma DigitIs(c: char, k: nat)
    requires k < 16
    ensures IsHex(c) && Digit(c) == k <==> c == "0123456789abcdef"[k] || c == "0123456789ABCDEF"[k]
  {
  }

  /** The character that each escape of one letter stands for. */
  lemma SimpleEscapes()
    ensures Decode("\\n") == Ok("\n") && Decode("\\r") == Ok("\r") && Decode("\\t") == Ok("\t") && Decode("\\0") == Ok("\0")
    ensures Decode("\\\\") == Ok("\\") && Decode("\\\"") == Ok("\"") && Decode("\\'") == Ok("'")
  {
    hide Decode;
    OneEscape(3, 'n', '\n');
    OneEscape(4, 'r', '\r');
    OneEscape(5, 't', '\t');
    OneEscape(6, '0', '\0');
    OneEscape(0, '\\', '\\');
    OneEscape(1, '"', '"');
    OneEscape(2, '\'', '\'');
  }

  lemma {:induction false} PositionIs(s: string, k: nat)
    requires k < |s| && forall j :: 0 <= j < k ==> s[j] != s[k]
    ensures s[k] in s && PositionOf(s[k], s) == k
  {
    if k > 0 { PositionIs(s[1..], k - 1); }
  }

  lemma OneEscape(k: nat, letter: char, c: char)
    requires k < |SIMPLE| && SIMPLE[k] == letter && MEANING[k] == c
    ensures Decode(['\\', letter]) == Ok([c])
  {
    hide PositionOf;
    PositionIs(SIMPLE, k);
    var p := Simple(letter);
    DecodeStep(p, "");
    assert Spell(p) + "" == ['\\', letter];
    assert [c] + "" == [c];
  }

  /** Decoding shortens every text with a backslash, and leaves the others as they are. */
  lemma {:induction false} DecodeFixes(s: string)
    ensures Decode(s) == Ok(s) <==> '\\' !in s
    ensures Decode(s).Ok? ==> |Decode(s).value| <= |s| && ('\\' in s ==> |Decode(s).value| < |s|)
  {
    hide Scan, Meaning;
    if s != "" {
      if s[0] != '\\' {
        DecodeFixes(s[1..]);
        assert s == [s[0]] + s[1..];
      } else if Scan(s).Ok? {
        var n := |Spell(Scan(s).value)|;
        EscapeLength(s, Scan(s).value);
        DecodeFixes(s[n..]);
      }
    }
  }

  /**
    `\\xNN` is not limited to ASCII: every pair of digits is accepted, and the result
    is ASCII exactly when the first digit is below 8.
   */
  lemma HexBeyondAscii(digits: string)
    requires |digits| == 2 && AllHex(digits)
    ensures Decode("\\x" + digits) == Ok([(Digit(digits[0]) * 16 + Digit(digits[1])) as char])
    ensures Utf8Len((Digit(digits[0]) * 16 + Digit(digits[1])) as char) == 1 <==> Digit(digits[0]) < 8
  {
    HexTwo(digits);
    DecodeStep(Hex(digits), "");
    assert Spell(Hex(digits)) + "" == "\\x" + digits;
    assert [Meaning(Hex(digits))] + "" == [Meaning(Hex(digits))];
  }

  // ---------------------------------------------------------------- the decoder

  datatype UnescapeError = UnescapeError(fault: Fault, characterIndex: nat)

  /** Exactly two hex digits at `pos`; the accumulator is a `u8`. */
  method ParseHexEscape(s: string, pos: nat) returns (r: Option<char>, after: nat)
    requires pos <= |s|
    ensures pos <= after <= |s|
    ensures r.Some? <==> |s| >= pos + 2 && AllHex(s[pos..pos + 2])
    ensures r.Some? ==> after == pos + 2 && HexValue(s[pos..pos + 2]) < 256 && r.value == HexValue(s[pos..pos + 2]) as char
  {
    var value: u8 := 0;
    after := pos;
    for i := 0 to 2
      invariant after == pos + i <= |s| && AllHex(s[pos..after])
      invariant value as int == HexValue(s[pos..after])
      invariant i == 1 ==> value < 16
    {
      if after == |s| || !IsHex(s[after]) {
        assert |s| >= pos + 2 ==> s[pos..pos + 2][i] == s[after];
        return None, after;
      }
      assert s[pos..after + 1][..i] == s[pos..after];
      value := value * 16 + Digit(s[after]) as u8;
      after := after + 1;
    }
    r := Some(value as char);
  }

  lemma HexOfNothing(digits: string)
    requires digits == ""
    ensures HexValue(digits) == 0
  {
  }

  lemma NextDigit(body: string, k: nat)
    requires k < |body| && k <= 5 && AllHex(body[..k]) && IsHex(body[k])
    ensures AllHex(body[..k + 1])
    ensures HexValue(body[..k + 1]) == HexValue(body[..k]) * 16 + Digit(body[k]) < 0x100_0000
  {
    assert body[..k + 1][..k] == body[..k] && body[..k + 1][k] == body[k];
    HexBound(body[..k + 1]);
  }

  /** `{`, one to six hex digits, `}`; the accumulator is a `u32`. */
  method ParseUnicodeEscape(s: string, pos: nat) returns (r: Option<char>, after: nat)
    requires pos <= |s|
    ensures pos <= after <= |s|
    ensures var n := if pos < |s| then DigitRun(s[pos + 1..]) else 0;
            && (r.Some? <==>
                  && pos < |s| && s[pos] == '{' && 1 <= n <= 6
                  && pos + 1 + n < |s| && s[pos + 1 + n] == '}' && IsScalarValue(HexValue(s[pos + 1..][..n])))
            && (r.Some? ==> after == pos + n + 2 && r.value == HexValue(s[pos + 1..][..n]) as char)
  {
    hide HexValue, Digit, DigitRun;
    after := pos;
    if pos == |s| || s[pos] != '{' {
      return None, pos;
    }
    after := pos + 1;
    assert HexValue(s[pos + 1..][..0]) == 0 by { HexOfNothing(s[pos + 1..][..0]); }
    ghost var body := s[pos + 1..];
    ghost var n := DigitRun(body);
    var value: u32 := 0;
    var digitCount := 0;
    while true
      invariant digitCount <= n && digitCount <= 6 && after == pos + 1 + digitCount <= |s|
      invariant value as int == HexValue(body[..digitCount])
      decreases |s| - after
    {
      assert forall i :: 0 <= i < n ==> body[..n][i] == body[i];
      if after == |s| {
        return None, after;
      }
      var c := s[after];
      assert c == body[digitCount];
      after := after + 1;
      if c == '}' {
        break;
      }
      if !IsHex(c) {
        return None, after;
      }
      digitCount := digitCount + 1;
      if digitCount > 6 {
        return None, after;
      }
      NextDigit(body, digitCount - 1);
      value := value * 16 + Digit(c) as u32;
    }
    if digitCount == 0 || !IsScalarValue(value as int) {
      return None, after;
    }
    r := Some(value as char);
  }

  /** `out` has been decoded from the first `pos` characters. */
  ghost predicate DecodedTo(s: string, pos: nat, out: string)
    requires pos <= |s|
  {
    Decode(s) ==
      match Decode(s[pos..])
      case Ok(t) => Ok(out + t)
      case Err((at, fault)) => Err((pos + at, fault))
  }

  /** Reading one more piece. */
  lemma DecodedPiece(s: string, pos: nat, out: string, p: Piece)
    requires pos < |s| && DecodedTo(s, pos, out) && Legal(p) && Spell(p) <= s[pos..]
    ensures DecodedTo(s, pos + |Spell(p)|, out + [Meaning(p)])
  {
    hide Decode, Meaning, Scan, Legal;
    var n := |Spell(p)|;
    var rest := s[pos + n..];
    assert s[pos..][..n] == Spell(p) && s[pos..][n..] == rest;
    assert s[pos..] == Spell(p) + rest;
    DecodeStep(p, rest);
    var r := Decode(rest);
    if r.Ok? { assert out + ([Meaning(p)] + r.value) == out + [Meaning(p)] + r.value; }
  }

  /** The match after a backslash at `pos`. */
  method ReadEscape(s: string, pos: nat) returns (r: Result<char, Fault>, after: nat)
    requires pos < |s| && s[pos] == '\\'
    ensures var scanned := Scan(s[pos..]);
            && (scanned.Ok? ==> r == Ok(Meaning(scanned.value)) && after == pos + |Spell(scanned.value)|)
            && (scanned.Err? ==> r == Err(scanned.error))
  {
    hide DigitRun, HexValue;
    ghost var here := s[pos..];
    after := pos + 2;
    if pos + 1 == |s| {
      return Err(UnexpectedEof), pos + 1;
    }
    var next := s[pos + 1];
    if next in SIMPLE {
      r := Ok(MEANING[PositionOf(next, SIMPLE)]);
    } else if next == 'x' {
      var h;
      h, after := ParseHexEscape(s, pos + 2);
      assert pos + 4 <= |s| ==> here[2..4] == s[pos + 2..pos + 2 + 2];
      r := if h.Some? then Ok(h.value) else Err(InvalidHex);
    } else if next == 'u' {
      var u;
      u, after := ParseUnicodeEscape(s, pos + 2);
      assert pos + 2 < |s| ==> here[3..] == s[pos + 2 + 1..] && here[2] == s[pos + 2];
      r := if u.Some? then Ok(u.value) else Err(InvalidUnicode);
    } else {
      r := Err(IllegalCharacter(next));
    }
  }

  method UnescapeInner(s: string) returns (r: Result<string, UnescapeError>)
    ensures Decode(s).Ok? ==> r == Ok(Decode(s).value)
    ensures Decode(s).Err? ==> var e := Decode(s).error; r == Err(UnescapeError(e.1, ByteLen(s[..e.0])))
  {
    hide Decode, Scan, Meaning, Spell;
    var out, pos := "", 0;
    DecodeStart(s);
    while pos < |s|
      invariant pos <= |s| && DecodedTo(s, pos, out)
      decreases |s| - pos
    {
      var i, c := ByteLen(s[..pos]), s[pos];
      if c == '\\' {
        var escape, after := ReadEscape(s, pos);
        if escape.Err? {
          DecodeFault(s[pos..]);
          return Err(UnescapeError(escape.error, i));
        }
        SpellLength(Scan(s[pos..]).value);
        DecodedPiece(s, pos, out, Scan(s[pos..]).value);
        out, pos := out + [escape.value], after;
      } else {
        PlainPiece(c, s[pos..]);
        DecodedPiece(s, pos, out, Plain(c));
        out, pos := out + [c], pos + 1;
      }
    }
    assert s[pos..] == "";
    DecodeEnd();
    assert out + "" == out;
    r := Ok(out);
  }

  lemma SpellLength(p: Piece)
    ensures |Spell(p)| > 0
  {
  }

  lemma PlainPiece(c: char, s: string)
    requires c != '\\' && s != "" && s[0] == c
    ensures Legal(Plain(c)) && Spell(Plain(c)) == [c] <= s && Meaning(Plain(c)) == c
  {
  }

  lemma DecodeStart(s: string)
    ensures DecodedTo(s, 0, "")
  {
    assert s[0..] == s;
    var r := Decode(s);
    if r.Ok? { assert "" + r.value == r.value; }
  }

  lemma DecodeEnd()
    ensures Decode("") == Ok("")
  {
  }

  lemma DecodeFault(s: string)
    requires s != "" && s[0] == '\\' && Scan(s).Err?
    ensures Decode(s) == Err((0, Scan(s).error))
  {
  }
}
