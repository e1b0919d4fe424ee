/**
  Templates as text.  `Display` writes items one after the other with nothing in
  between, so neighbours may run into each other; the theorem says exactly for which
  templates the text still reads as the tokens it was made from.
 */
module TemplateText {
  import opened Wrappers
  import opened Tokens
  import opened Template

  // ---------------------------------------------------------------- characters

  predicate IsDigit(c: char) {
    '0' <= c <= '9'
  }

  predicate IsWordStart(c: char) {
    'a' <= c <= 'z' || 'A' <= c <= 'Z' || c == '_'
  }

  predicate IsWordChar(c: char) {
    IsWordStart(c) || IsDigit(c)
  }

  predicate IsOpen(c: char) {
    c == '(' || c == '[' || c == '{'
  }

  predicate IsClose(c: char) {
    c == ')' || c == ']' || c == '}'
  }

  predicate IsPunct(c: char) {
    c == '!' || '#' <= c <= '&' || '*' <= c <= '/' || ':' <= c <= '@' || c == '^' || c == '|' || c == '~'
  }

  function Closer(open: char): char {
    if open == '(' then ')' else if open == '[' then ']' else '}'
  }

  function DelimiterOf(open: char): Delimiter {
    if open == '(' then Parenthesis else if open == '[' then Bracket else Brace
  }

  /** How many word characters a text starts with. */
  function Run(s: string): (n: nat)
    ensures n <= |s| && (forall i :: 0 <= i < n ==> IsWordChar(s[i])) && (n < |s| ==> !IsWordChar(s[n]))
  {
    if s == "" || !IsWordChar(s[0]) then 0 else 1 + Run(s[1..])
  }

  /** The length of the number or string literal at the start of a text, suffix included, or 0. */
  function Munch(s: string): (n: nat)
    ensures n <= |s|
  {
    if s == "" then 0
    else if IsDigit(s[0]) then
      var n := Run(s);
      if n + 1 < |s| && s[n] == '.' && IsDigit(s[n + 1]) then n + 1 + Run(s[n + 1..]) else n
    else if s[0] == '"' && QuoteLength(s[1..]) > 0 then
      var n := 1 + QuoteLength(s[1..]);
      n + Run(s[n..])
    else 0
  }

  // ---------------------------------------------------------------- reading

  /**
    The words, and the `#`, that may not touch a following `#` or quote: every word
    since the 2021 edition, a few literal prefixes before it.
   */
  type Glue = (string, char) -> bool

  predicate Sticks(glue: Glue, word: string, next: char) {
    (next == '#' || next == '"') && glue(word, next)
  }

  /** The longest token at the start of a text that is not a group, and the text after it. */
  function ReadToken(glue: Glue, s: string): (r: Option<(TokenTree, string)>)
    requires s != ""
    ensures r.Some? ==> |r.value.1| < |s| && !r.value.0.Group?
  {
    if IsWordStart(s[0]) then
      var n := Run(s);
      var word, rest := s[..n], s[n..];
      if rest != "" && rest[0] == '#' && word == "r" then
        if |rest| > 1 && IsWordStart(rest[1]) then
          var m := Run(rest[1..]);
          Some((Ident("r#" + rest[1..1 + m]), rest[1 + m..]))
        else None
      else if rest != "" && Sticks(glue, word, rest[0]) then None
      else Some((Ident(word), rest))
    else if Munch(s) > 0 then Some((Literal(s[..Munch(s)]), s[Munch(s)..]))
    else if !IsPunct(s[0]) || (s[0] == '#' && |s| > 1 && Sticks(glue, "#", s[1])) then None
    else Some((Punct(s[0]), s[1..]))
  }

  function Cons(t: TokenTree, r: Option<(TokenStream, string)>): Option<(TokenStream, string)> {
    if r.None? then None else Some(([t] + r.value.0, r.value.1))
  }

  /** Reads tokens up to a closing delimiter or the end, and leaves the text from there. */
  function ReadSeq(glue: Glue, s: string): (r: Option<(TokenStream, string)>)
    ensures r.Some? ==> |r.value.1| <= |s|
    decreases |s|
  {
    if s == "" || IsClose(s[0]) then Some(([], s))
    else if IsWhitespace(s[0]) then ReadSeq(glue, s[1..])
    else if IsOpen(s[0]) then
      var inside := ReadSeq(glue, s[1..]);
      if inside.None? || inside.value.1 == "" || inside.value.1[0] != Closer(s[0]) then None
      else Cons(Group(DelimiterOf(s[0]), inside.value.0), ReadSeq(glue, inside.value.1[1..]))
    else
      var one := ReadToken(glue, s);
      if one.None? then None else Cons(one.value.0, ReadSeq(glue, one.value.1))
  }

  /** The token stream a text reads as. */
  function Read(glue: Glue, s: string): Option<TokenStream> {
    var r := ReadSeq(glue, s);
    if r.Some? && r.value.1 == "" then Some(r.value.0) else None
  }

  // ---------------------------------------------------------------- writing

  /** A token stream as text: tokens with a space between, delimiters around groups. */
  function Show(ts: TokenStream): string {
    if ts == [] then ""
    else if |ts| == 1 then ShowTree(ts[0])
    else ShowTree(ts[0]) + " " + Show(ts[1..])
  }

  function ShowTree(t: TokenTree): string {
    match t
    case Ident(name) => name
    case Punct(ch) => [ch]
    case Literal(text) => text
    case StringLiteral(value) => "\"" + value + "\""
    case Group(Parenthesis, stream) => "(" + Show(stream) + ")"
    case Group(Bracket, stream) => "[" + Show(stream) + "]"
    case Group(Brace, stream) => "{ " + Show(stream) + (if stream == [] then "" else " ") + "}"
    case Group(NoDelimiter, stream) => Show(stream)
  }

  function DisplayItem(item: Item): string
    decreases item, 0
  {
    match item
    case Text(tokens) => Show(tokens)
    case VarSimple(name) => "#" + name
    case VarExpr(expr) => "#(" + Show(expr) + ")"
    case For(binding, collection, body) =>
      "@for " + binding + " in " + collection + " { " + DisplayItems(body.items) + " }"
    case If(condition, thenBody, elseBody) =>
      "@if " + Show(condition) + " { " + DisplayItems(thenBody.items) + " }" +
        (match elseBody
         case Some(e) => " @else { " + DisplayItems(e.items) + " }"
         case None => "")
  }

  function DisplayItems(items: seq<Item>): string
    decreases items, 1
  {
    if items == [] then "" else DisplayItem(items[0]) + DisplayItems(items[1..])
  }

  class Formatter {
    var text: string

    constructor ()
      ensures text == ""
    {
      text := "";
    }

    method WriteStr(s: string)
      modifies this
      ensures text == old(text) + s
    {
      text := text + s;
    }

    method WriteTemplate(t: Template)
      modifies this
      ensures text == old(text) + DisplayItems(t.items)
      decreases t, 1
    {
      for i := 0 to |t.items|
        invariant text + DisplayItems(t.items[i..]) == old(text) + DisplayItems(t.items)
      {
        ghost var before := text;
        WriteItem(t.items[i]);
        assert t.items[i..][1..] == t.items[i + 1..];
        assert before + (DisplayItem(t.items[i]) + DisplayItems(t.items[i + 1..])) == text + DisplayItems(t.items[i + 1..]);
      }
    }

    method WriteItem(item: Item)
      modifies this
      ensures text == old(text) + DisplayItem(item)
      decreases item, 0
    {
      hide DisplayItems, Show;
      match item {
        case Text(tokens) => WriteStr(Show(tokens));
        case VarSimple(name) => WriteStr("#" + name);
        case VarExpr(expr) => WriteStr("#(" + Show(expr) + ")");
        case For(binding, collection, body) =>
          WriteStr("@for " + binding + " in " + collection + " { ");
          WriteTemplate(body);
          WriteStr(" }");
        case If(condition, thenBody, elseBody) =>
          WriteStr("@if " + Show(condition) + " { ");
          WriteTemplate(thenBody);
          WriteStr(" }");
          ghost var first := text;
          if elseBody.Some? {
            WriteStr(" @else { ");
            WriteTemplate(elseBody.value);
            WriteStr(" }");
            assert text == first + (" @else { " + DisplayItems(elseBody.value.items) + " }");
          }
      }
    }
  }

  // ---------------------------------------------------------------- templates of readable tokens

  predicate IsWord(name: string) {
    name != "" && IsWordStart(name[0]) && Run(name) == |name|
  }

  predicate IsRaw(name: string) {
    |name| > 2 && name[..2] == "r#" && IsWord(name[2..])
  }

  predicate IsName(name: string) {
    IsWord(name) || IsRaw(name)
  }

  /** Spelled as the reader knows it, at any depth. */
  predicate Lexical(ts: TokenStream) {
    forall i :: 0 <= i < |ts| ==> LexicalTree(ts[i])
  }

  predicate LexicalTree(t: TokenTree) {
    match t
    case Ident(name) => IsName(name)
    case Punct(ch) => IsPunct(ch)
    case Literal(text) => text != "" && Munch(text) == |text|
    case StringLiteral(_) => false
    case Group(_, stream) => Lexical(stream)
  }

  predicate Visible(ts: TokenStream) {
    forall i :: 0 <= i < |ts| ==> VisibleTree(ts[i])
  }

  /** No group without delimiters, at any depth. */
  predicate VisibleTree(t: TokenTree) {
    t.Group? ==> t.delimiter != NoDelimiter && Visible(t.stream)
  }

  /** The token and the character after it would be read as something else. */
  predicate Clash(glue: Glue, t: TokenTree, next: char) {
    match t
    case Ident(name) =>
      IsWordChar(next) || (IsWord(name) && ((name == "r" && next == '#') || Sticks(glue, name, next)))
    case Punct(ch) => ch == '#' && Sticks(glue, "#", next)
    case _ => false
  }

  /** The item runs into the text after it. */
  predicate RunsInto(glue: Glue, item: Item, rest: string) {
    rest != "" &&
    match item
    case VarSimple(name) => Clash(glue, Ident(name), rest[0])
    case Text(tokens) => tokens != [] && Clash(glue, tokens[|tokens| - 1], rest[0])
    case _ => false
  }

  predicate ClearItem(glue: Glue, item: Item)
    decreases item, 0
  {
    match item
    case For(_, _, body) => Clear(glue, body.items)
    case If(_, thenBody, elseBody) =>
      && Clear(glue, thenBody.items)
      && (match elseBody
          case Some(e) => Clear(glue, e.items)
          case None => true)
    case _ => true
  }

  /** No item, at any depth, runs into the one after it. */
  predicate Clear(glue: Glue, items: seq<Item>)
    decreases items, 1
  {
    items == [] || (
      && ClearItem(glue, items[0])
      && !RunsInto(glue, items[0], DisplayItems(items[1..]))
      && Clear(glue, items[1..]))
  }

  // ---------------------------------------------------------------- reading what was written

  function Prepend(ts: TokenStream, r: Option<(TokenStream, string)>): Option<(TokenStream, string)> {
    if r.None? then None else Some((ts + r.value.0, r.value.1))
  }

  /** `text` reads as `ts` and then like `rest`. */
  ghost predicate Reads(glue: Glue, text: string, ts: TokenStream, rest: string) {
    ReadSeq(glue, text) == Prepend(ts, ReadSeq(glue, rest))
  }

  /** `text` does not even read as something that starts with `ts`. */
  ghost predicate Misreads(glue: Glue, text: string, ts: TokenStream) {
    ReadSeq(glue, text).Some? ==> !(ts <= ReadSeq(glue, text).value.0)
  }

  lemma ReadsThen(glue: Glue, text: string, a: TokenStream, middle: string, b: TokenStream, rest: string)
    requires Reads(glue, text, a, middle)
    ensures Reads(glue, middle, b, rest) ==> Reads(glue, text, a + b, rest)
    ensures Misreads(glue, middle, b) ==> Misreads(glue, text, a + b)
  {
    hide ReadSeq;
    if Reads(glue, middle, b, rest) && ReadSeq(glue, rest).Some? {
      assert a + (b + ReadSeq(glue, rest).value.0) == (a + b) + ReadSeq(glue, rest).value.0;
    }
    if ReadSeq(glue, middle).Some? {
      CommonStart(a, b, ReadSeq(glue, middle).value.0);
    }
  }

  /** Once the first tokens are misread, so is everything that starts with them. */
  lemma MisreadsMore(glue: Glue, text: string, a: TokenStream, b: TokenStream)
    requires Misreads(glue, text, a)
    ensures Misreads(glue, text, a + b)
  {
    hide ReadSeq;
  }

  lemma CommonStart(a: TokenStream, b: TokenStream, c: TokenStream)
    ensures a + b <= a + c ==> b <= c
  {
    if a + b <= a + c {
      assert b == (a + b)[|a|..] && c == (a + c)[|a|..];
    }
  }

  lemma ReadSpace(glue: Glue, rest: string)
    ensures Reads(glue, " " + rest, [], rest)
  {
    assert (" " + rest)[1..] == rest;
    if ReadSeq(glue, rest).Some? {
      assert [] + ReadSeq(glue, rest).value.0 == ReadSeq(glue, rest).value.0;
    }
  }

  /** A token that is not a group is read, unless it clashes with what comes after it. */
  lemma TokenReads(glue: Glue, t: TokenTree, rest: string)
    requires LexicalTree(t) && !t.Group?
    requires t.Literal? && rest != "" ==> !IsWordChar(rest[0]) && rest[0] != '.'
    ensures rest == "" || !Clash(glue, t, rest[0]) ==> Reads(glue, ShowTree(t) + rest, [t], rest)
    ensures rest != "" && Clash(glue, t, rest[0]) ==> Misreads(glue, ShowTree(t) + rest, [t])
  {
    hide Reads, Misreads, Run, Munch;
    match t {
      case Ident(name) => if IsWord(name) { WordReads(glue, name, rest); } else { RawReads(glue, name, rest); }
      case Punct(ch) => PunctReads(glue, ch, rest);
      case Literal(text) => LiteralReads(glue, text, rest);
    }
  }

  /** What `ReadSeq` does at the start of a token. */
  lemma OneRead(glue: Glue, s: string, t: TokenTree, rest: string)
    requires s != "" && !IsClose(s[0]) && !IsWhitespace(s[0]) && !IsOpen(s[0])
    ensures ReadToken(glue, s) == Some((t, rest)) ==> Reads(glue, s, [t], rest)
    ensures ReadToken(glue, s).None? || ReadToken(glue, s).value.0 != t ==> Misreads(glue, s, [t])
  {
    var one := ReadToken(glue, s);
    if one.Some? && ReadSeq(glue, s).Some? {
      assert ReadSeq(glue, s).value.0[0] == one.value.0;
    }
  }

  lemma {:induction false} RunExtends(a: string, b: string)
    requires Run(a) == |a|
    ensures Run(a + b) == |a| + Run(b)
  {
    if a == "" {
      assert a + b == b;
    } else {
      assert (a + b)[1..] == a[1..] + b;
      RunExtends(a[1..], b);
    }
  }

  lemma WordReads(glue: Glue, name: string, rest: string)
    requires IsWord(name)
    ensures rest == "" || !Clash(glue, Ident(name), rest[0]) ==> Reads(glue, name + rest, [Ident(name)], rest)
    ensures rest != "" && Clash(glue, Ident(name), rest[0]) ==> Misreads(glue, name + rest, [Ident(name)])
  {
    hide Reads, Misreads, ReadSeq;
    var s := name + rest;
    RunExtends(name, rest);
    OneRead(glue, s, Ident(name), rest);
    var n := Run(s);
    if rest != "" && IsWordChar(rest[0]) {
      assert n > |name|;
      assert |s[..n]| != |name|;
      WordTokenLonger(glue, s, name);
    } else {
      assert s[..n] == name && s[n..] == rest;
      WordToken(glue, s, name, rest);
    }
  }

  lemma WordToken(glue: Glue, s: string, name: string, rest: string)
    requires s != "" && IsWordStart(s[0]) && s[..Run(s)] == name && s[Run(s)..] == rest
    ensures (rest != "" && ((name == "r" && rest[0] == '#') || Sticks(glue, name, rest[0]))) ==>
              ReadToken(glue, s).None? || ReadToken(glue, s).value.0 != Ident(name)
    ensures !(rest != "" && ((name == "r" && rest[0] == '#') || Sticks(glue, name, rest[0]))) ==>
              ReadToken(glue, s) == Some((Ident(name), rest))
  {
    if rest != "" && name == "r" && rest[0] == '#' {
      assert forall w: string :: |"r#" + w| >= 2;
    }
  }

  lemma WordTokenLonger(glue: Glue, s: string, name: string)
    requires s != "" && IsWordStart(s[0]) && Run(s) > |name| && s[..|name|] == name && IsWord(name)
    ensures ReadToken(glue, s).None? || ReadToken(glue, s).value.0 != Ident(name)
  {
    var one := ReadToken(glue, s);
    assert |s[..Run(s)]| == Run(s);
  }

  lemma RawReads(glue: Glue, name: string, rest: string)
    requires IsRaw(name)
    ensures rest == "" || !IsWordChar(rest[0]) ==> Reads(glue, name + rest, [Ident(name)], rest)
    ensures rest != "" && IsWordChar(rest[0]) ==> Misreads(glue, name + rest, [Ident(name)])
  {
    hide Reads, Misreads, ReadSeq, ReadToken;
    var s, word := name + rest, name[2..];
    assert name == "r#" + word;
    var all := word + rest;
    RunExtends(word, rest);
    var m := Run(all);
    RawToken(glue, all);
    assert s == "r#" + all;
    if rest == "" || !IsWordChar(rest[0]) {
      assert all[..m] == word && all[m..] == rest;
    } else {
      assert |"r#" + all[..m]| != |name|;
    }
    OneRead(glue, s, Ident(name), rest);
  }

  lemma RawToken(glue: Glue, all: string)
    requires all != "" && IsWordStart(all[0])
    ensures ReadToken(glue, "r#" + all) == Some((Ident("r#" + all[..Run(all)]), all[Run(all)..]))
  {
    hide Run, Munch, Sticks, IsWordStart;
    RunOfR(all);
    RawSlices(all, Run(all));
  }

  lemma RawSlices(all: string, m: nat)
    requires m <= |all|
    ensures var s := "r#" + all;
            && s[0] == 'r' && IsWordStart(s[0]) && s[..1] == "r" && s[1..] != "" && s[1..][0] == '#'
            && s[1..][1..] == all && s[1..][1..1 + m] == all[..m] && s[1..][1 + m..] == all[m..]
  {
  }

  lemma RunOfR(all: string)
    ensures Run("r#" + all) == 1
  {
    assert ("r#" + all)[1..] == "#" + all;
    assert Run("#" + all) == 0;
  }

  lemma PunctReads(glue: Glue, ch: char, rest: string)
    requires IsPunct(ch)
    ensures rest == "" || !Clash(glue, Punct(ch), rest[0]) ==> Reads(glue, [ch] + rest, [Punct(ch)], rest)
    ensures rest != "" && Clash(glue, Punct(ch), rest[0]) ==> Misreads(glue, [ch] + rest, [Punct(ch)])
  {
    hide Reads, Misreads, ReadSeq, ReadToken, IsWordStart, IsPunct;
    var s := [ch] + rest;
    assert s[1..] == rest;
    PunctPlain(ch);
    PunctToken(glue, s);
    OneRead(glue, s, Punct(ch), rest);
  }

  lemma PunctPlain(ch: char)
    requires IsPunct(ch)
    ensures !IsWordStart(ch) && !IsDigit(ch) && ch != '"' && !IsClose(ch) && !IsOpen(ch) && !IsWhitespace(ch)
  {
  }

  lemma PunctToken(glue: Glue, s: string)
    requires s != "" && IsPunct(s[0])
    ensures ReadToken(glue, s) ==
              if s[0] == '#' && |s| > 1 && Sticks(glue, "#", s[1]) then None else Some((Punct(s[0]), s[1..]))
  {
    hide Run, Sticks;
    PunctPlain(s[0]);
    assert Munch(s) == 0;
  }

  lemma {:induction false} QuoteExtends(a: string, b: string)
    requires QuoteLength(a) > 0
    ensures QuoteLength(a + b) == QuoteLength(a)
  {
    assert (a + b)[0] == a[0];
    if a[0] == '\\' {
      assert (a + b)[2..] == a[2..] + b;
      QuoteExtends(a[2..], b);
    } else if a[0] != '"' {
      assert (a + b)[1..] == a[1..] + b;
      QuoteExtends(a[1..], b);
    }
  }

  lemma {:induction false} RunStops(a: string, b: string)
    requires b == "" || !IsWordChar(b[0])
    ensures Run(a + b) == Run(a)
  {
    if a == "" {
      assert a + b == b;
    } else {
      assert (a + b)[1..] == a[1..] + b;
      RunStops(a[1..], b);
    }
  }

  lemma MunchStops(text: string, rest: string)
    requires text != "" && Munch(text) == |text|
    requires rest != "" ==> !IsWordChar(rest[0]) && rest[0] != '.'
    ensures Munch(text + rest) == |text|
  {
    hide Run, QuoteLength;
    var s := text + rest;
    if IsDigit(text[0]) {
      RunStops(text, rest);
      var n := Run(text);
      assert n < |text| ==> s[n] == text[n];
      if n + 1 < |text| {
        assert s[n + 1] == text[n + 1];
        assert s[n + 1..] == text[n + 1..] + rest;
        RunStops(text[n + 1..], rest);
      }
    } else {
      assert s[1..] == text[1..] + rest;
      QuoteExtends(text[1..], rest);
      var n := 1 + QuoteLength(text[1..]);
      assert s[n..] == text[n..] + rest;
      RunStops(text[n..], rest);
    }
  }

  lemma LiteralReads(glue: Glue, text: string, rest: string)
    requires text != "" && Munch(text) == |text|
    requires rest != "" ==> !IsWordChar(rest[0]) && rest[0] != '.'
    ensures Reads(glue, text + rest, [Literal(text)], rest)
  {
    hide Reads, Misreads, ReadSeq;
    var s := text + rest;
    MunchStops(text, rest);
    assert s[..|text|] == text && s[|text|..] == rest;
    assert IsDigit(text[0]) || text[0] == '"';
    OneRead(glue, s, Literal(text), rest);
  }

  /** Delimiters around a text make a group of what the text reads as. */
  lemma GroupReads(glue: Glue, open: char, inside: string, stream: TokenStream, rest: string)
    requires IsOpen(open)
    ensures var closed := inside + ([Closer(open)] + rest);
            && (Reads(glue, closed, stream, [Closer(open)] + rest) ==>
                  Reads(glue, [open] + closed, [Group(DelimiterOf(open), stream)], rest))
            && (Misreads(glue, closed, stream) ==>
                  Misreads(glue, [open] + closed, [Group(DelimiterOf(open), stream)]))
  {
    var end := [Closer(open)] + rest;
    var closed := inside + end;
    assert ([open] + closed)[1..] == closed && end[1..] == rest;
    assert ReadSeq(glue, end) == Some(([], end));
    if Reads(glue, closed, stream, end) {
      assert stream + [] == stream;
    }
    var r := ReadSeq(glue, [open] + closed);
    if Misreads(glue, closed, stream) && r.Some? {
      assert r.value.0[0] == Group(DelimiterOf(open), ReadSeq(glue, closed).value.0);
    }
  }

  /** What may follow the tokens of a literal, a condition or an expression. */
  predicate Quiet(rest: string) {
    rest == "" || rest[0] == ' ' || rest[0] == '#' || rest[0] == '@' || IsClose(rest[0])
  }

  lemma {:induction false} ShowReads(glue: Glue, ts: TokenStream, rest: string)
    requires Lexical(ts) && Visible(ts) && Quiet(rest)
    ensures ts == [] || rest == "" || !Clash(glue, ts[|ts| - 1], rest[0]) ==> Reads(glue, Show(ts) + rest, ts, rest)
    ensures ts != [] && rest != "" && Clash(glue, ts[|ts| - 1], rest[0]) ==> Misreads(glue, Show(ts) + rest, ts)
    decreases ts, 1
  {
    hide ReadSeq, Reads, Misreads, Clash, LexicalTree, VisibleTree, Show, ShowTree;
    ShowParts(ts, rest);
    if ts == [] {
      ReadNothing(glue, rest);
    } else if |ts| == 1 {
      assert ts == [ts[0]];
      TreeReads(glue, ts[0], rest);
    } else {
      var more := Show(ts[1..]) + rest;
      TreeReads(glue, ts[0], " " + more);
      NoClashWithSpace(glue, ts[0]);
      ShowReads(glue, ts[1..], rest);
      OneMore(glue, ShowTree(ts[0]), ts[0], more, ts[1..], rest);
      assert [ts[0]] + ts[1..] == ts;
    }
  }

  /** One more token in front, with a space after it. */
  lemma OneMore(glue: Glue, text: string, t: TokenTree, more: string, ts: TokenStream, rest: string)
    requires Reads(glue, text + (" " + more), [t], " " + more)
    ensures Reads(glue, more, ts, rest) ==> Reads(glue, text + (" " + more), [t] + ts, rest)
    ensures Misreads(glue, more, ts) ==> Misreads(glue, text + (" " + more), [t] + ts)
  {
    hide Reads, Misreads, ReadSeq;
    ReadSpace(glue, more);
    ReadsThen(glue, " " + more, [], more, ts, rest);
    assert [] + ts == ts;
    ReadsThen(glue, text + (" " + more), [t], " " + more, ts, rest);
  }

  lemma ShowParts(ts: TokenStream, rest: string)
    ensures ts == [] ==> Show(ts) + rest == rest
    ensures |ts| == 1 ==> Show(ts) + rest == ShowTree(ts[0]) + rest
    ensures |ts| > 1 ==> Show(ts) + rest == ShowTree(ts[0]) + (" " + (Show(ts[1..]) + rest))
  {
    hide ShowTree;
    if |ts| > 1 {
      FourTexts(ShowTree(ts[0]), Show(ts[1..]), rest);
    }
  }

  lemma FourTexts(a: string, b: string, c: string)
    ensures a + " " + b + c == a + (" " + (b + c))
  {
  }

  lemma ReadNothing(glue: Glue, rest: string)
    ensures Reads(glue, rest, [], rest)
  {
    if ReadSeq(glue, rest).Some? {
      assert [] + ReadSeq(glue, rest).value.0 == ReadSeq(glue, rest).value.0;
    }
  }

  lemma NoClashWithSpace(glue: Glue, t: TokenTree)
    ensures !Clash(glue, t, ' ')
  {
  }

  lemma {:induction false} TreeReads(glue: Glue, t: TokenTree, rest: string)
    requires LexicalTree(t) && VisibleTree(t) && Quiet(rest)
    ensures rest == "" || !Clash(glue, t, rest[0]) ==> Reads(glue, ShowTree(t) + rest, [t], rest)
    ensures rest != "" && Clash(glue, t, rest[0]) ==> Misreads(glue, ShowTree(t) + rest, [t])
    decreases t, 0
  {
    hide ReadSeq, Reads, Misreads, Show, Lexical, Visible;
    if !t.Group? {
      TokenReads(glue, t, rest);
    } else {
      var inside, stream := Show(t.stream), t.stream;
      if t.delimiter == Brace {
        BraceReads(glue, stream, rest);
      } else {
        var open := if t.delimiter == Parenthesis then '(' else '[';
        var end := [Closer(open)] + rest;
        ShowReads(glue, stream, end);
        NoClashWithCloser(glue, stream, Closer(open));
        GroupReads(glue, open, inside, stream, rest);
        assert ShowTree(t) + rest == [open] + (inside + end);
      }
    }
  }

  lemma NoClashWithCloser(glue: Glue, ts: TokenStream, close: char)
    requires IsClose(close)
    ensures ts != [] ==> !Clash(glue, ts[|ts| - 1], close)
  {
  }

  lemma {:induction false} BraceReads(glue: Glue, stream: TokenStream, rest: string)
    requires Lexical(stream) && Visible(stream)
    ensures Reads(glue, ShowTree(Group(Brace, stream)) + rest, [Group(Brace, stream)], rest)
    decreases stream, 2
  {
    hide ReadSeq, Reads, Misreads, Lexical, Visible, Show;
    var end := "}" + rest;
    var inside := Show(stream) + (if stream == [] then "" else " ");
    if stream == [] {
      ShowReads(glue, stream, end);
      assert inside + end == Show(stream) + end;
    } else {
      ShowReads(glue, stream, " " + end);
      NoClashWithSpace(glue, stream[|stream| - 1]);
      ReadSpace(glue, end);
      assert inside + end == Show(stream) + (" " + end);
      ReadsThen(glue, inside + end, stream, " " + end, [], end);
      assert stream + [] == stream;
    }
    SpacedGroup(glue, inside, stream, rest);
    assert ShowTree(Group(Brace, stream)) + rest == "{" + (" " + (inside + end));
  }

  /** A space after the opening brace changes nothing. */
  lemma SpacedGroup(glue: Glue, inside: string, stream: TokenStream, rest: string)
    ensures var closed := inside + ("}" + rest);
            && (Reads(glue, closed, stream, "}" + rest) ==> Reads(glue, "{" + (" " + closed), [Group(Brace, stream)], rest))
            && (Misreads(glue, closed, stream) ==> Misreads(glue, "{" + (" " + closed), [Group(Brace, stream)]))
  {
    hide ReadSeq, Reads, Misreads;
    var closed := inside + ("}" + rest);
    ReadSpace(glue, closed);
    ReadsThen(glue, " " + closed, [], closed, stream, "}" + rest);
    assert [] + stream == stream;
    GroupReads(glue, '{', " " + inside, stream, rest);
    assert (" " + inside) + ("}" + rest) == " " + closed;
  }

  // ---------------------------------------------------------------- items

  predicate LexicalItem(item: Item)
    decreases item, 0
  {
    match item
    case Text(tokens) => Lexical(tokens)
    case VarSimple(name) => IsName(name)
    case VarExpr(expr) => Lexical(expr)
    case For(binding, collection, body) => IsName(binding) && IsName(collection) && LexicalItems(body.items)
    case If(condition, thenBody, elseBody) =>
      && Lexical(condition)
      && LexicalItems(thenBody.items)
      && (match elseBody
          case Some(e) => LexicalItems(e.items)
          case None => true)
  }

  /** All tokens of the template are spelled as the reader knows them. */
  predicate LexicalItems(items: seq<Item>)
    decreases items, 1
  {
    items == [] || (LexicalItem(items[0]) && LexicalItems(items[1..]))
  }

  predicate VisibleItem(item: Item)
    decreases item, 0
  {
    match item
    case Text(tokens) => Visible(tokens)
    case VarSimple(_) => true
    case VarExpr(expr) => Visible(expr)
    case For(_, _, body) => VisibleItems(body.items)
    case If(condition, thenBody, elseBody) =>
      && Visible(condition)
      && VisibleItems(thenBody.items)
      && (match elseBody
          case Some(e) => VisibleItems(e.items)
          case None => true)
  }

  /** No token of the template is, or holds, a group without delimiters. */
  predicate VisibleItems(items: seq<Item>)
    decreases items, 1
  {
    items == [] || (VisibleItem(items[0]) && VisibleItems(items[1..]))
  }

  /** `text` reads as `ts` and then like `rest` if `good`, and is misread if not. */
  ghost predicate Judged(glue: Glue, text: string, ts: TokenStream, rest: string, good: bool) {
    (good ==> Reads(glue, text, ts, rest)) && (!good ==> Misreads(glue, text, ts))
  }

  lemma JudgedThen(glue: Glue, text: string, a: TokenStream, middle: string, b: TokenStream, rest: string, x: bool, y: bool)
    requires Judged(glue, text, a, middle, x) && Judged(glue, middle, b, rest, y)
    ensures Judged(glue, text, a + b, rest, x && y)
  {
    hide Reads, Misreads;
    if x {
      ReadsThen(glue, text, a, middle, b, rest);
    } else {
      MisreadsMore(glue, text, a, b);
    }
  }

  /** `@`, a keyword or name, and a space. */
  lemma NameReads(glue: Glue, name: string, rest: string)
    requires IsName(name)
    ensures Judged(glue, name + (" " + rest), [Ident(name)], rest, true)
  {
    hide Reads, Misreads, ReadSeq;
    TokenReads(glue, Ident(name), " " + rest);
    NoClashWithSpace(glue, Ident(name));
    ReadSpace(glue, rest);
    ReadsThen(glue, name + (" " + rest), [Ident(name)], " " + rest, [], rest);
    assert [Ident(name)] + [] == [Ident(name)];
  }

  lemma AtReads(glue: Glue, rest: string)
    ensures Judged(glue, "@" + rest, [AT], rest, true)
  {
    TokenReads(glue, AT, rest);
  }

  /** A body in braces, with a space on either side. */
  lemma BodyReads(glue: Glue, body: string, ts: TokenStream, rest: string, good: bool)
    requires Judged(glue, body + (" }" + rest), ts, " }" + rest, good)
    ensures Judged(glue, "{ " + (body + (" }" + rest)), [Group(Brace, ts)], rest, good)
  {
    hide Reads, Misreads, ReadSeq;
    ReadSpace(glue, "}" + rest);
    assert " " + ("}" + rest) == " }" + rest;
    JudgedThen(glue, body + (" }" + rest), ts, " }" + rest, [], "}" + rest, good, true);
    assert ts + [] == ts;
    SpacedGroup(glue, body + " ", ts, rest);
    assert (body + " ") + ("}" + rest) == body + (" }" + rest);
    assert "{" + (" " + (body + (" }" + rest))) == "{ " + (body + (" }" + rest));
  }

  /** A name and a space in front of something that is read. */
  lemma NameThen(glue: Glue, name: string, text: string, ts: TokenStream, rest: string, good: bool)
    requires IsName(name) && Judged(glue, text, ts, rest, good)
    ensures Judged(glue, name + (" " + text), [Ident(name)] + ts, rest, good)
  {
    hide Judged;
    NameReads(glue, name, text);
    JudgedThen(glue, name + (" " + text), [Ident(name)], text, ts, rest, true, good);
  }

  lemma AtThen(glue: Glue, text: string, ts: TokenStream, rest: string, good: bool)
    requires Judged(glue, text, ts, rest, good)
    ensures Judged(glue, "@" + text, [AT] + ts, rest, good)
  {
    hide Judged;
    AtReads(glue, text);
    JudgedThen(glue, "@" + text, [AT], text, ts, rest, true, good);
  }

  lemma Keywords()
    ensures IsName("for") && IsName("in") && IsName("if") && IsName("else")
  {
    forall w | w in ["for", "in", "if", "else"] ensures IsWord(w) {
      AllWord(w);
    }
  }

  lemma {:induction false} AllWord(s: string)
    requires forall i :: 0 <= i < |s| ==> IsWordChar(s[i])
    ensures Run(s) == |s|
  {
    if s != "" { AllWord(s[1..]); }
  }

  lemma SimpleReads(glue: Glue, name: string, rest: string)
    requires IsName(name)
    ensures var item := VarSimple(name);
            Judged(glue, DisplayItem(item) + rest, PrintItem(item), rest, !RunsInto(glue, item, rest))
  {
    hide Reads, Misreads, ReadSeq;
    var after := name + rest;
    assert !Clash(glue, HASH, after[0]) by { assert after[0] == name[0]; }
    TokenReads(glue, HASH, after);
    TokenReads(glue, Ident(name), rest);
    var good := !RunsInto(glue, VarSimple(name), rest);
    JudgedThen(glue, "#" + after, [HASH], after, [Ident(name)], rest, true, good);
    assert ("#" + name) + rest == "#" + after;
    assert [HASH] + [Ident(name)] == [HASH, Ident(name)];
  }

  lemma ExprReads(glue: Glue, expr: TokenStream, rest: string)
    requires Lexical(expr) && Visible(expr)
    ensures Judged(glue, DisplayItem(VarExpr(expr)) + rest, PrintItem(VarExpr(expr)), rest, true)
  {
    hide Reads, Misreads, ReadSeq, Lexical, Visible, Show;
    var end := ")" + rest;
    var after := "(" + (Show(expr) + end);
    TokenReads(glue, HASH, after);
    ShowReads(glue, expr, end);
    NoClashWithCloser(glue, expr, ')');
    GroupReads(glue, '(', Show(expr), expr, rest);
    JudgedThen(glue, "#" + after, [HASH], after, [Group(Parenthesis, expr)], rest, true, true);
    assert ("#(" + Show(expr) + ")") + rest == "#" + after;
    assert [HASH] + [Group(Parenthesis, expr)] == [HASH, Group(Parenthesis, expr)];
  }

  lemma ForReads(glue: Glue, binding: string, collection: string, text: string, ts: TokenStream, rest: string, good: bool)
    requires IsName(binding) && IsName(collection) && Judged(glue, text + (" }" + rest), ts, " }" + rest, good)
    ensures Judged(glue, ("@for " + binding + " in " + collection + " { " + text + " }") + rest,
                   [AT, Ident("for"), Ident(binding), Ident("in"), Ident(collection), Group(Brace, ts)], rest, good)
  {
    hide Judged, IsName;
    Keywords();
    BodyReads(glue, text, ts, rest, good);
    var t0, b0 := "{ " + (text + (" }" + rest)), [Group(Brace, ts)];
    NameThen(glue, collection, t0, b0, rest, good);
    var t1, b1 := collection + (" " + t0), [Ident(collection)] + b0;
    NameThen(glue, "in", t1, b1, rest, good);
    var t2, b2 := "in" + (" " + t1), [Ident("in")] + b1;
    NameThen(glue, binding, t2, b2, rest, good);
    var t3, b3 := binding + (" " + t2), [Ident(binding)] + b2;
    NameThen(glue, "for", t3, b3, rest, good);
    AtThen(glue, "for" + (" " + t3), [Ident("for")] + b3, rest, good);
    assert ("@for " + binding + " in " + collection + " { " + text + " }") + rest == "@" + ("for" + (" " + t3));
    assert [AT] + ([Ident("for")] + b3)
        == [AT, Ident("for"), Ident(binding), Ident("in"), Ident(collection), Group(Brace, ts)];
  }

  lemma IfReads(glue: Glue, condition: TokenStream, text: string, ts: TokenStream, rest: string, good: bool)
    requires Lexical(condition) && Visible(condition) && Judged(glue, text + (" }" + rest), ts, " }" + rest, good)
    ensures Judged(glue, ("@if " + Show(condition) + " { " + text + " }") + rest,
                   [AT, Ident("if")] + condition + [Group(Brace, ts)], rest, good)
  {
    hide Judged, IsName, Lexical, Visible, Show;
    Keywords();
    BodyReads(glue, text, ts, rest, good);
    var t0, b0 := "{ " + (text + (" }" + rest)), [Group(Brace, ts)];
    ConditionReads(glue, condition, t0);
    var t1, b1 := Show(condition) + (" " + t0), condition + b0;
    JudgedThen(glue, t1, condition, t0, b0, rest, true, good);
    NameThen(glue, "if", t1, b1, rest, good);
    AtThen(glue, "if" + (" " + t1), [Ident("if")] + b1, rest, good);
    assert ("@if " + Show(condition) + " { " + text + " }") + rest == "@" + ("if" + (" " + t1));
    assert [AT] + ([Ident("if")] + b1) == [AT, Ident("if")] + condition + [Group(Brace, ts)];
  }

  lemma ConditionReads(glue: Glue, condition: TokenStream, rest: string)
    requires Lexical(condition) && Visible(condition)
    ensures Judged(glue, Show(condition) + (" " + rest), condition, rest, true)
  {
    hide Reads, Misreads, ReadSeq, Show, Lexical, Visible;
    ShowReads(glue, condition, " " + rest);
    if condition != [] { NoClashWithSpace(glue, condition[|condition| - 1]); }
    ReadSpace(glue, rest);
    ReadsThen(glue, Show(condition) + (" " + rest), condition, " " + rest, [], rest);
    assert condition + [] == condition;
  }

  lemma SpaceThen(glue: Glue, text: string, ts: TokenStream, rest: string, good: bool)
    requires Judged(glue, text, ts, rest, good)
    ensures Judged(glue, " " + text, ts, rest, good)
  {
    hide Reads, Misreads, ReadSeq;
    ReadSpace(glue, text);
    ReadsThen(glue, " " + text, [], text, ts, rest);
    assert [] + ts == ts;
  }

  lemma ElseReads(glue: Glue, text: string, ts: TokenStream, rest: string, good: bool)
    requires Judged(glue, text + (" }" + rest), ts, " }" + rest, good)
    ensures Judged(glue, (" @else { " + text + " }") + rest, [AT, Ident("else"), Group(Brace, ts)], rest, good)
  {
    hide Judged, IsName;
    Keywords();
    BodyReads(glue, text, ts, rest, good);
    var t0, b0 := "{ " + (text + (" }" + rest)), [Group(Brace, ts)];
    NameThen(glue, "else", t0, b0, rest, good);
    var t1, b1 := "else" + (" " + t0), [Ident("else")] + b0;
    AtThen(glue, t1, b1, rest, good);
    SpaceThen(glue, "@" + t1, [AT] + b1, rest, good);
    assert (" @else { " + text + " }") + rest == " " + ("@" + t1);
    assert [AT] + b1 == [AT, Ident("else"), Group(Brace, ts)];
  }

  lemma {:induction false} ItemReads(glue: Glue, item: Item, next: seq<Item>, rest: string)
    requires LexicalItem(item) && VisibleItem(item) && NormalItem(item, next) && (item.Text? ==> Quiet(rest))
    ensures Judged(glue, DisplayItem(item) + rest, PrintItem(item), rest, ClearItem(glue, item) && !RunsInto(glue, item, rest))
    decreases item, 1
  {
    hide Judged, Reads, Misreads, ReadSeq, Show, Lexical, Visible;
    match item {
      case Text(tokens) =>
        ShowReads(glue, tokens, rest);
        JudgedHere(glue, Show(tokens) + rest, tokens, rest, !RunsInto(glue, item, rest));
      case VarSimple(name) => SimpleReads(glue, name, rest);
      case VarExpr(expr) => ExprReads(glue, expr, rest);
      case For(binding, collection, body) =>
        ItemsRead(glue, body.items, false, " }" + rest);
        ForReads(glue, binding, collection, DisplayItems(body.items), PrintItems(body.items), rest, Clear(glue, body.items));
      case If(condition, thenBody, elseBody) => BlockReads(glue, item, next, rest);
    }
  }

  lemma JudgedHere(glue: Glue, text: string, ts: TokenStream, rest: string, good: bool)
    requires (good ==> Reads(glue, text, ts, rest)) && (!good ==> Misreads(glue, text, ts))
    ensures Judged(glue, text, ts, rest, good)
  {
  }

  lemma {:induction false} BlockReads(glue: Glue, item: Item, next: seq<Item>, rest: string)
    requires item.If? && LexicalItem(item) && VisibleItem(item) && NormalItem(item, next)
    ensures Judged(glue, DisplayItem(item) + rest, PrintItem(item), rest, ClearItem(glue, item))
    decreases item, 0
  {
    hide Judged, Reads, Misreads, ReadSeq, Show, Lexical, Visible, DisplayItems, PrintItems, Clear, Normal;
    var first, block := item.thenBody.items, "@if " + Show(item.condition) + " { " + DisplayItems(item.thenBody.items) + " }";
    if item.elseBody.Some? {
      var second := item.elseBody.value.items;
      var alt := " @else { " + DisplayItems(second) + " }";
      ItemsRead(glue, second, false, " }" + rest);
      ElseReads(glue, DisplayItems(second), PrintItems(second), rest, Clear(glue, second));
      ItemsRead(glue, first, false, " }" + (alt + rest));
      IfReads(glue, item.condition, DisplayItems(first), PrintItems(first), alt + rest, Clear(glue, first));
      JudgedThen(glue, block + (alt + rest),
        [AT, Ident("if")] + item.condition + [Group(Brace, PrintItems(first))], alt + rest,
        [AT, Ident("else"), Group(Brace, PrintItems(second))], rest, Clear(glue, first), Clear(glue, second));
      assert DisplayItem(item) + rest == block + (alt + rest);
    } else {
      ItemsRead(glue, first, false, " }" + rest);
      IfReads(glue, item.condition, DisplayItems(first), PrintItems(first), rest, Clear(glue, first));
      assert DisplayItem(item) == block + "" == block;
      assert PrintItem(item) == [AT, Ident("if")] + item.condition + [Group(Brace, PrintItems(first))] + []
        == [AT, Ident("if")] + item.condition + [Group(Brace, PrintItems(first))];
    }
  }

  /** The end of the text, or the space before a closing brace. */
  predicate IsEnd(tail: string) {
    tail == "" || tail[0] == ' '
  }

  lemma {:induction false} ItemsRead(glue: Glue, items: seq<Item>, afterText: bool, tail: string)
    requires LexicalItems(items) && VisibleItems(items) && Normal(items, afterText) && IsEnd(tail)
    ensures Judged(glue, DisplayItems(items) + tail, PrintItems(items), tail, Clear(glue, items))
    decreases items, 2
  {
    hide Judged, Reads, Misreads, ReadSeq, DisplayItem, PrintItem, NormalItem, RunsInto;
    if items == [] {
      assert "" + tail == tail;
      ReadNothing(glue, tail);
      JudgedHere(glue, tail, [], tail, true);
    } else {
      var item, next := items[0], items[1..];
      var rest := DisplayItems(next) + tail;
      NextStarts(glue, item, next, tail);
      ItemReads(glue, item, next, rest);
      ItemsRead(glue, next, item.Text?, tail);
      JudgedThen(glue, DisplayItem(item) + rest, PrintItem(item), rest, PrintItems(next), tail,
        ClearItem(glue, item) && !RunsInto(glue, item, rest), Clear(glue, next));
      assert DisplayItems(items) + tail == DisplayItem(item) + rest;
    }
  }

  /** Whether an item runs into what follows does not depend on the end of the body. */
  lemma NextStarts(glue: Glue, item: Item, next: seq<Item>, tail: string)
    requires LexicalItems(next) && VisibleItems(next) && Normal(next, item.Text?) && IsEnd(tail)
    ensures RunsInto(glue, item, DisplayItems(next) + tail) == RunsInto(glue, item, DisplayItems(next))
    ensures item.Text? ==> Quiet(DisplayItems(next) + tail)
  {
    hide Clash;
    if next == [] {
      assert "" + tail == tail;
      if item.VarSimple? { NoClashWithSpace(glue, Ident(item.name)); }
      if item.Text? && item.tokens != [] { NoClashWithSpace(glue, item.tokens[|item.tokens| - 1]); }
    } else {
      ItemStarts(next[0], item.Text?);
      var all := DisplayItems(next);
      assert all[0] == DisplayItem(next[0])[0] && (all + tail)[0] == all[0];
    }
  }

  lemma ItemStarts(item: Item, afterText: bool)
    requires LexicalItem(item) && VisibleItem(item)
    requires item.Text? ==> NormalText(item.tokens) && (afterText ==> IsSigil(item.tokens[0]))
    ensures DisplayItem(item) != ""
    ensures afterText || !item.Text? ==> Quiet(DisplayItem(item))
  {
    if item.Text? {
      TreeShows(item.tokens[0]);
      var first := ShowTree(item.tokens[0]);
      assert |item.tokens| > 1 ==> Show(item.tokens) == first + (" " + Show(item.tokens[1..]));
    }
  }

  lemma TreeShows(t: TokenTree)
    requires LexicalTree(t) && VisibleTree(t)
    ensures ShowTree(t) != ""
  {
  }

  // ---------------------------------------------------------------- the round trip

  /** The reader makes no group without delimiters. */
  lemma {:induction false} ReadIsVisible(glue: Glue, s: string)
    ensures ReadSeq(glue, s).Some? ==> Visible(ReadSeq(glue, s).value.0)
    decreases |s|
  {
    hide ReadToken;
    if s == "" || IsClose(s[0]) {
    } else if IsWhitespace(s[0]) {
      ReadIsVisible(glue, s[1..]);
    } else if IsOpen(s[0]) {
      ReadIsVisible(glue, s[1..]);
      var inside := ReadSeq(glue, s[1..]);
      if inside.Some? && inside.value.1 != "" {
        ReadIsVisible(glue, inside.value.1[1..]);
      }
    } else {
      var one := ReadToken(glue, s);
      if one.Some? { ReadIsVisible(glue, one.value.1); }
    }
  }

  lemma VisibleConcat(a: TokenStream, b: TokenStream)
    ensures Visible(a + b) <==> Visible(a) && Visible(b)
  {
    forall i | 0 <= i < |a| ensures (a + b)[i] == a[i] {}
    forall i | 0 <= i < |b| ensures (a + b)[|a| + i] == b[i] {}
    hide VisibleTree;
    if Visible(a + b) {
      forall i | 0 <= i < |a| ensures VisibleTree(a[i]) { assert VisibleTree((a + b)[i]); }
      forall i | 0 <= i < |b| ensures VisibleTree(b[i]) { assert VisibleTree((a + b)[|a| + i]); }
    }
  }

  lemma {:induction false} PrintVisible(items: seq<Item>)
    ensures Visible(PrintItems(items)) <==> VisibleItems(items)
    decreases items, 1
  {
    hide Visible, VisibleItem, PrintItem;
    if items == [] {
      NoneVisible();
    } else {
      PrintItemVisible(items[0]);
      PrintVisible(items[1..]);
      VisibleConcat(PrintItem(items[0]), PrintItems(items[1..]));
    }
  }

  lemma NoneVisible()
    ensures Visible([])
  {
  }

  lemma {:induction false} PrintItemVisible(item: Item)
    ensures Visible(PrintItem(item)) <==> VisibleItem(item)
    decreases item, 0
  {
    match item {
      case For(binding, collection, body) =>
        PrintVisible(body.items);
        var head := [AT, Ident("for"), Ident(binding), Ident("in"), Ident(collection)];
        GroupVisible(head, Brace, PrintItems(body.items));
        assert PrintItem(item) == head + [Group(Brace, PrintItems(body.items))];
      case VarExpr(expr) =>
        GroupVisible([HASH], Parenthesis, expr);
        assert PrintItem(item) == [HASH] + [Group(Parenthesis, expr)];
      case If(condition, thenBody, elseBody) =>
        PrintVisible(thenBody.items);
        var block := [AT, Ident("if")] + condition + [Group(Brace, PrintItems(thenBody.items))];
        VisibleConcat([AT, Ident("if")], condition);
        GroupVisible([AT, Ident("if")] + condition, Brace, PrintItems(thenBody.items));
        if elseBody.Some? {
          PrintVisible(elseBody.value.items);
          var more := [AT, Ident("else"), Group(Brace, PrintItems(elseBody.value.items))];
          GroupVisible([AT, Ident("else")], Brace, PrintItems(elseBody.value.items));
          assert [AT, Ident("else")] + [Group(Brace, PrintItems(elseBody.value.items))] == more;
          VisibleConcat(block, more);
        } else {
          assert PrintItem(item) == block;
        }
      case _ =>
    }
  }

  lemma GroupVisible(before: TokenStream, delimiter: Delimiter, stream: TokenStream)
    requires delimiter != NoDelimiter
    ensures Visible(before + [Group(delimiter, stream)]) <==> Visible(before) && Visible(stream)
  {
    VisibleConcat(before, [Group(delimiter, stream)]);
    assert Visible([Group(delimiter, stream)]) <==> VisibleTree([Group(delimiter, stream)][0]);
  }

  /**
    The displayed text of a normal-form template reads as its tokens if and only if
    no item, at any depth, runs into the next one and no group lacks delimiters.
   */
  lemma DisplayReads(glue: Glue, items: seq<Item>)
    requires LexicalItems(items) && Normal(items, false)
    ensures Read(glue, DisplayItems(items)) == Some(PrintItems(items)) <==> VisibleItems(items) && Clear(glue, items)
  {
    hide LexicalItems, VisibleItems, Normal, Clear, DisplayItems, PrintItems;
    var text := DisplayItems(items);
    if VisibleItems(items) {
      ItemsRead(glue, items, false, "");
      assert text + "" == text && PrintItems(items) + [] == PrintItems(items);
      assert ReadSeq(glue, "") == Some(([], ""));
    } else {
      ReadIsVisible(glue, text);
      PrintVisible(items);
    }
  }

  /** The text round trip: displaying, reading and parsing gives the template back under the same condition. */
  lemma TextRoundTrip(glue: Glue, t: Template)
    requires LexicalItems(t.items) && Normal(t.items, false)
    ensures var ts := Read(glue, DisplayItems(t.items));
            ts.Some? && ParseItems(ts.value, []) == Ok(t.items) <==> VisibleItems(t.items) && Clear(glue, t.items)
  {
    hide LexicalItems, VisibleItems, Normal, Clear, DisplayItems, PrintItems, ParseItems, Read;
    DisplayReads(glue, t.items);
    var ts := Read(glue, DisplayItems(t.items));
    if ts.Some? { RoundTrip(ts.value, t); }
  }

  lemma LexicalConcat(a: TokenStream, b: TokenStream)
    ensures Lexical(a + b) <==> Lexical(a) && Lexical(b)
  {
    hide LexicalTree;
    if Lexical(a + b) {
      forall i | 0 <= i < |a| ensures LexicalTree(a[i]) { assert LexicalTree((a + b)[i]); }
      forall i | 0 <= i < |b| ensures LexicalTree(b[i]) { assert LexicalTree((a + b)[|a| + i]); }
    }
  }

  lemma GroupLexical(before: TokenStream, delimiter: Delimiter, stream: TokenStream)
    ensures Lexical(before + [Group(delimiter, stream)]) ==> Lexical(before) && Lexical(stream)
  {
    LexicalConcat(before, [Group(delimiter, stream)]);
    assert Lexical([Group(delimiter, stream)]) ==> LexicalTree([Group(delimiter, stream)][0]);
  }

  /** A template printed from readable tokens has readable tokens. */
  lemma {:induction false} PrintLexical(items: seq<Item>)
    ensures Lexical(PrintItems(items)) ==> LexicalItems(items)
    decreases items, 1
  {
    hide Lexical, LexicalItem, PrintItem;
    if items != [] && Lexical(PrintItems(items)) {
      LexicalConcat(PrintItem(items[0]), PrintItems(items[1..]));
      PrintItemLexical(items[0]);
      PrintLexical(items[1..]);
    }
  }

  lemma {:induction false} PrintItemLexical(item: Item)
    requires Lexical(PrintItem(item))
    ensures LexicalItem(item)
    decreases item, 0
  {
    match item {
      case Text(_) =>
      case VarSimple(name) => assert LexicalTree(PrintItem(item)[1]);
      case VarExpr(_) => assert LexicalTree(PrintItem(item)[1]);
      case For(binding, collection, body) =>
        assert LexicalTree(PrintItem(item)[2]) && LexicalTree(PrintItem(item)[4]) && LexicalTree(PrintItem(item)[5]);
        PrintLexical(body.items);
      case If(condition, thenBody, elseBody) =>
        var head := [AT, Ident("if")] + condition;
        var block := head + [Group(Brace, PrintItems(thenBody.items))];
        PrintLexical(thenBody.items);
        if elseBody.Some? {
          var more := [AT, Ident("else"), Group(Brace, PrintItems(elseBody.value.items))];
          LexicalConcat(block, more);
          assert LexicalTree(more[2]);
          PrintLexical(elseBody.value.items);
        } else {
          assert PrintItem(item) == block;
        }
        GroupLexical(head, Brace, PrintItems(thenBody.items));
        LexicalConcat([AT, Ident("if")], condition);
    }
  }

  /**
    Whenever parsing succeeds, the displayed template reads back as the original
    tokens if and only if they hold no group without delimiters and no item runs into
    the next one.
   */
  lemma ParsedReadsBack(glue: Glue, ts: TokenStream, items: seq<Item>)
    requires Lexical(ts) && ParseItems(ts, []) == Ok(items)
    ensures Read(glue, DisplayItems(items)) == Some(ts) <==> Visible(ts) && Clear(glue, items)
  {
    hide Lexical, LexicalItems, Visible, VisibleItems, Normal, Clear, DisplayItems, PrintItems, ParseItems, Read;
    RoundTrip(ts, Template(items));
    PrintLexical(items);
    PrintVisible(items);
    DisplayReads(glue, items);
  }

  /** A variable runs into a literal that starts with a word: `#a` and `b` display as `#ab`. */
  lemma DisplayIsAmbiguous(glue: Glue)
    ensures var items := [VarSimple("a"), Text([Ident("b")])];
            && Normal(items, false) && LexicalItems(items) && VisibleItems(items) && !Clear(glue, items)
            && DisplayItems(items) == DisplayItems([VarSimple("ab")])
            && Read(glue, DisplayItems(items)) != Some(PrintItems(items))
  {
    var items := [VarSimple("a"), Text([Ident("b")])];
    assert items[1..] == [Text([Ident("b")])] && items[1..][1..] == [];
    assert [VarSimple("ab")][1..] == [];
    AllWord("a");
    AllWord("b");
    assert DisplayItems(items[1..]) == "b" + "" == "b";
    assert DisplayItems(items) == ("#" + "a") + "b" == "#ab" == DisplayItems([VarSimple("ab")]);
    assert Normal(items[1..], false);
    DisplayReads(glue, items);
  }

  /** A literal runs into a variable: `r` and `#x` display as the raw identifier `r#x`. */
  lemma DisplayMakesRaw(glue: Glue)
    ensures var items := [Text([Ident("r")]), VarSimple("x")];
            && Normal(items, false) && LexicalItems(items) && VisibleItems(items) && !Clear(glue, items)
            && DisplayItems(items) == "r#x" && Read(glue, "r#x") == Some([Ident("r#x")])
  {
    var items := [Text([Ident("r")]), VarSimple("x")];
    assert items[1..] == [VarSimple("x")] && items[1..][1..] == [];
    AllWord("r");
    AllWord("x");
    assert DisplayItems(items[1..]) == ("#" + "x") + "" == "#x";
    assert DisplayItems(items) == "r" + "#x" == "r#x";
    assert Normal(items[1..], true);
    AllWord("r#x"[2..]);
    assert IsRaw("r#x");
    RawReads(glue, "r#x", "");
    assert "r#x" + "" == "r#x" && [Ident("r#x")] + [] == [Ident("r#x")];
    assert ReadSeq(glue, "") == Some(([], ""));
  }
}
