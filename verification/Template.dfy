/**
  The template parser and its printer.  The parser is proved against the printer:
  it accepts exactly the printed forms of normal-form templates, and each of those
  in one way only.
 */
module Template {
  import opened Wrappers
  import opened Tokens

  datatype Template = Template(items: seq<Item>)

  datatype Item =
    | Text(tokens: TokenStream)
    | VarSimple(name: string)
    | VarExpr(expr: TokenStream)
    | For(binding: string, collection: string, body: Template)
    | If(condition: TokenStream, thenBody: Template, elseBody: Option<Template>)

  datatype ParseError =
    | ForBinding(got: Option<TokenTree>)
    | ForIn(got: Option<TokenTree>)
    | ForCollection(got: Option<TokenTree>)
    | ForBody(got: Option<TokenTree>)
    | IfBody
    | ElseKeyword
    | ElseInstead(name: string)
    | ElseBody(got: Option<TokenTree>)

  const HASH: TokenTree := Punct('#')
  const AT: TokenTree := Punct('@')

  predicate IsSigil(t: TokenTree) {
    t == HASH || t == AT
  }

  predicate IsBrace(t: TokenTree) {
    t.Group? && t.delimiter == Brace
  }

  // ---------------------------------------------------------------- the printer, token by token

  function PrintItem(item: Item): TokenStream
    decreases item, 0
  {
    match item
    case Text(tokens) => tokens
    case VarSimple(name) => [HASH, Ident(name)]
    case VarExpr(expr) => [HASH, Group(Parenthesis, expr)]
    case For(binding, collection, body) =>
      [AT, Ident("for"), Ident(binding), Ident("in"), Ident(collection), Group(Brace, PrintItems(body.items))]
    case If(condition, thenBody, elseBody) =>
      [AT, Ident("if")] + condition + [Group(Brace, PrintItems(thenBody.items))] +
        (match elseBody
         case Some(e) => [AT, Ident("else"), Group(Brace, PrintItems(e.items))]
         case None => [])
  }

  function PrintItems(items: seq<Item>): TokenStream
    decreases items, 1
  {
    if items == [] then [] else PrintItem(items[0]) + PrintItems(items[1..])
  }

  // ---------------------------------------------------------------- normal form

  /** A sigil that opens a literal must not be readable as the start of a directive. */
  predicate LoneSigil(sigil: TokenTree, next: TokenTree) {
    && (sigil == HASH ==> !next.Ident? && !(next.Group? && next.delimiter == Parenthesis))
    && (sigil == AT ==> next != Ident("for") && next != Ident("if"))
  }

  predicate SigilFree(ts: TokenStream) {
    forall i :: 0 <= i < |ts| ==> !IsSigil(ts[i])
  }

  /** Literals are split before every sigil. */
  predicate NormalText(tokens: TokenStream) {
    && tokens != []
    && SigilFree(tokens[1..])
    && (|tokens| > 1 ==> LoneSigil(tokens[0], tokens[1]))
  }

  predicate BraceFree(ts: TokenStream) {
    forall i :: 0 <= i < |ts| ==> !IsBrace(ts[i])
  }

  predicate StartsWithAt(items: seq<Item>) {
    items != [] &&
    match items[0]
    case For(_, _, _) => true
    case If(_, _, _) => true
    case Text(tokens) => tokens != [] && tokens[0] == AT
    case _ => false
  }

  predicate NormalItem(item: Item, next: seq<Item>)
    decreases item, 0
  {
    match item
    case Text(tokens) => NormalText(tokens)
    case For(_, _, body) => Normal(body.items, false)
    case If(condition, thenBody, elseBody) =>
      && BraceFree(condition)
      && Normal(thenBody.items, false)
      && (match elseBody
          case Some(e) => Normal(e.items, false)
          case None => !StartsWithAt(next))
    case _ => true
  }

  /** `afterText`: the item before these is a literal, so the next one must not extend it. */
  predicate Normal(items: seq<Item>, afterText: bool)
    decreases items, 1
  {
    items == [] || (
      && (afterText && items[0].Text? && items[0].tokens != [] ==> IsSigil(items[0].tokens[0]))
      && NormalItem(items[0], items[1..])
      && Normal(items[1..], items[0].Text?))
  }

  // ---------------------------------------------------------------- what the parser computes

  function Flush(lit: TokenStream): seq<Item> {
    if lit == [] then [] else [Text(lit)]
  }

  function Prepend(items: seq<Item>, r: Result<seq<Item>, ParseError>): Result<seq<Item>, ParseError> {
    match r
    case Ok(rest) => Ok(items + rest)
    case Err(e) => Err(e)
  }

  function First(ts: TokenStream): Option<TokenTree> {
    if ts == [] then None else Some(ts[0])
  }

  /** The items of `ts`, when the literal accumulated so far is `lit`. */
  function ParseItems(ts: TokenStream, lit: TokenStream): Result<seq<Item>, ParseError>
    decreases Size(ts), 1
  {
    if ts == [] then Ok(Flush(lit)) else
    SizeSplit(ts);
    if !IsSigil(ts[0]) then ParseItems(ts[1..], lit + [ts[0]])
    else if |ts| > 1 && !LoneSigil(ts[0], ts[1]) then
      match ParseDirective(ts)
      case Ok((item, rest)) => Prepend(Flush(lit) + [item], ParseItems(rest, []))
      case Err(e) => Err(e)
    else Prepend(Flush(lit), ParseItems(ts[1..], [ts[0]]))
  }

  /** One item that starts with a sigil, and the tokens after it. */
  function ParseDirective(ts: TokenStream): (r: Result<(Item, TokenStream), ParseError>)
    requires |ts| > 1 && IsSigil(ts[0]) && !LoneSigil(ts[0], ts[1])
    ensures r.Ok? ==> Size(r.value.1) < Size(ts)
    decreases Size(ts), 0
  {
    SizeSplit(ts);
    SizeSplit(ts[1..]);
    if ts[0] == HASH then
      Ok((if ts[1].Ident? then VarSimple(ts[1].name) else VarExpr(ts[1].stream), ts[2..]))
    else if ts[1] == Ident("for") then ParseFor(ts[2..])
    else ParseIf(ts[2..])
  }

  function ParseFor(ts: TokenStream): (r: Result<(Item, TokenStream), ParseError>)
    ensures r.Ok? ==> Size(r.value.1) <= Size(ts)
    decreases Size(ts), 2
  {
    if ts == [] || !ts[0].Ident? then Err(ForBinding(First(ts)))
    else if |ts| < 2 || ts[1] != Ident("in") then Err(ForIn(First(ts[1..])))
    else if |ts| < 3 || !ts[2].Ident? then Err(ForCollection(First(ts[2..])))
    else if |ts| < 4 || !IsBrace(ts[3]) then Err(ForBody(First(ts[3..])))
    else
      SizeSplit(ts);
      SizeSplit(ts[1..]);
      SizeSplit(ts[2..]);
      SizeSplit(ts[3..]);
      match ParseItems(ts[3].stream, [])
      case Ok(items) => Ok((For(ts[0].name, ts[2].name, Template(items)), ts[4..]))
      case Err(e) => Err(e)
  }

  /** The index of the first braced group. */
  function FirstBrace(ts: TokenStream): (k: nat)
    ensures k <= |ts| && BraceFree(ts[..k]) && (k < |ts| ==> IsBrace(ts[k]))
  {
    if ts == [] || IsBrace(ts[0]) then 0
    else
      var k := 1 + FirstBrace(ts[1..]);
      assert ts[..k] == [ts[0]] + ts[1..][..k - 1];
      k
  }

  function ParseIf(ts: TokenStream): (r: Result<(Item, TokenStream), ParseError>)
    ensures r.Ok? ==> Size(r.value.1) <= Size(ts)
    decreases Size(ts), 2
  {
    var k := FirstBrace(ts);
    if k == |ts| then Err(IfBody) else
    SizeDrop(ts, k);
    SizeSplit(ts[k..]);
    assert ts[k..][1..] == ts[k + 1..];
    match ParseItems(ts[k].stream, [])
    case Err(e) => Err(e)
    case Ok(thenItems) =>
      match ParseElse(ts[k + 1..])
      case Err(e) => Err(e)
      case Ok((elseBody, rest)) => Ok((If(ts[..k], Template(thenItems), elseBody), rest))
  }

  function ParseElse(ts: TokenStream): (r: Result<(Option<Template>, TokenStream), ParseError>)
    ensures r.Ok? ==> Size(r.value.1) <= Size(ts)
    decreases Size(ts), 2
  {
    if ts == [] || ts[0] != AT then Ok((None, ts))
    else if |ts| < 2 || !ts[1].Ident? then Err(ElseKeyword)
    else if ts[1].name != "else" then Err(ElseInstead(ts[1].name))
    else if |ts| < 3 || !IsBrace(ts[2]) then Err(ElseBody(First(ts[2..])))
    else
      SizeSplit(ts);
      SizeSplit(ts[1..]);
      SizeSplit(ts[2..]);
      match ParseItems(ts[2].stream, [])
      case Ok(items) => Ok((Some(Template(items)), ts[3..]))
      case Err(e) => Err(e)
  }

  lemma {:induction false} SizeDrop(ts: TokenStream, k: nat)
    requires k <= |ts|
    ensures Size(ts[k..]) <= Size(ts)
    decreases k
  {
    if k == 0 {
      assert ts[0..] == ts;
    } else {
      SizeDrop(ts[1..], k - 1);
      assert ts[1..][k - 1..] == ts[k..];
    }
  }

  // ---------------------------------------------------------------- printing undoes parsing

  lemma {:induction false} PrintAppend(a: seq<Item>, b: seq<Item>)
    ensures PrintItems(a + b) == PrintItems(a) + PrintItems(b)
    decreases |a|
  {
    if a == [] {
      assert a + b == b;
    } else {
      assert (a + b)[0] == a[0] && (a + b)[1..] == a[1..] + b;
      PrintAppend(a[1..], b);
    }
  }

  lemma PrintFlush(lit: TokenStream)
    ensures PrintItems(Flush(lit)) == lit
  {
    if lit != [] {
      assert [Text(lit)][1..] == [];
      assert PrintItems([Text(lit)]) == lit + PrintItems([]);
    }
  }

  /** The accumulated literal is one the parser can have built with `ts` still to come. */
  predicate Pending(lit: TokenStream, ts: TokenStream) {
    lit == [] || (
      && SigilFree(lit[1..])
      && (|lit| > 1 ==> LoneSigil(lit[0], lit[1]))
      && (|lit| == 1 && ts != [] ==> LoneSigil(lit[0], ts[0])))
  }

  /** Parsing never changes tokens: printing the result gives back what was consumed. */
  lemma {:induction false} ParsePrints(ts: TokenStream, lit: TokenStream)
    ensures var r := ParseItems(ts, lit);
            r.Ok? ==> PrintItems(r.value) == lit + ts
    decreases Size(ts), 1
  {
    hide ParseDirective;
    if ts == [] {
      PrintFlush(lit);
    } else {
      SizeSplit(ts);
      if !IsSigil(ts[0]) {
        ParsePrints(ts[1..], lit + [ts[0]]);
        assert lit + [ts[0]] + ts[1..] == lit + ts;
      } else if |ts| > 1 && !LoneSigil(ts[0], ts[1]) {
        DirectivePrints(ts);
        var d := ParseDirective(ts);
        if d.Ok? {
          var (item, rest) := d.value;
          ParsePrints(rest, []);
          var r := ParseItems(rest, []);
          if r.Ok? {
            assert Flush(lit) + [item] + r.value == Flush(lit) + ([item] + r.value);
            PrintAppend(Flush(lit), [item] + r.value);
            PrintFlush(lit);
            assert ([item] + r.value)[1..] == r.value;
          }
        }
      } else {
        ParsePrints(ts[1..], [ts[0]]);
        var r := ParseItems(ts[1..], [ts[0]]);
        if r.Ok? {
          PrintAppend(Flush(lit), r.value);
          PrintFlush(lit);
        }
      }
    }
  }

  lemma {:induction false} DirectivePrints(ts: TokenStream)
    requires |ts| > 1 && IsSigil(ts[0]) && !LoneSigil(ts[0], ts[1])
    ensures var r := ParseDirective(ts);
            r.Ok? ==> PrintItem(r.value.0) + r.value.1 == ts
    decreases Size(ts), 0
  {
    hide ParseItems;
    SizeSplit(ts);
    SizeSplit(ts[1..]);
    assert ts == [ts[0], ts[1]] + ts[2..];
    if ts[0] == AT {
      if ts[1] == Ident("for") { ForPrints(ts[2..]); } else { IfPrints(ts[2..]); }
    }
  }

  lemma {:induction false} ForPrints(ts: TokenStream)
    ensures var r := ParseFor(ts);
            r.Ok? ==> PrintItem(r.value.0) + r.value.1 == [AT, Ident("for")] + ts
    decreases Size(ts), 2
  {
    hide ParseItems, Size;
    var r := ParseFor(ts);
    if r.Ok? {
      SizeDrop(ts, 3);
      SizeSplit(ts[3..]);
      ParsePrints(ts[3].stream, []);
      assert ts == [ts[0], ts[1], ts[2], ts[3]] + ts[4..];
      assert ts[3] == Group(Brace, [] + ts[3].stream);
    }
  }

  lemma {:induction false} IfPrints(ts: TokenStream)
    ensures var r := ParseIf(ts);
            r.Ok? ==> PrintItem(r.value.0) + r.value.1 == [AT, Ident("if")] + ts
    decreases Size(ts), 2
  {
    hide ParseItems, ParseElse, Size;
    var r := ParseIf(ts);
    var k := FirstBrace(ts);
    if r.Ok? {
      SizeDrop(ts, k);
      SizeSplit(ts[k..]);
      assert ts[k..][1..] == ts[k + 1..];
      ParsePrints(ts[k].stream, []);
      ElsePrints(ts[k + 1..]);
      assert ts == ts[..k] + [ts[k]] + ts[k + 1..];
      assert ts[k] == Group(Brace, [] + ts[k].stream);
    }
  }

  function PrintElse(elseBody: Option<Template>): TokenStream {
    match elseBody
    case Some(e) => [AT, Ident("else"), Group(Brace, PrintItems(e.items))]
    case None => []
  }

  lemma {:induction false} ElsePrints(ts: TokenStream)
    ensures var r := ParseElse(ts);
            r.Ok? ==> PrintElse(r.value.0) + r.value.1 == ts
    decreases Size(ts), 2
  {
    hide ParseItems, Size;
    var r := ParseElse(ts);
    if r.Ok? && r.value.0.Some? {
      SizeDrop(ts, 2);
      SizeSplit(ts[2..]);
      ParsePrints(ts[2].stream, []);
      assert ts == [ts[0], ts[1], ts[2]] + ts[3..];
      assert ts[2] == Group(Brace, [] + ts[2].stream);
    }
  }

  // ---------------------------------------------------------------- the parser returns normal forms

  lemma {:induction false} ParseNormal(ts: TokenStream, lit: TokenStream)
    requires Pending(lit, ts)
    ensures var r := ParseItems(ts, lit);
            r.Ok? ==>
              && Normal(r.value, false)
              && (lit != [] ==> r.value != [] && r.value[0].Text? && lit <= r.value[0].tokens)
    decreases Size(ts), 1
  {
    hide ParseDirective, LoneSigil, NormalItem;
    if ts == [] {
      FlushNormal(lit, []);
      assert Flush(lit) + [] == Flush(lit);
    } else {
      SizeSplit(ts);
      if !IsSigil(ts[0]) {
        PendingGrows(lit, ts);
        ParseNormal(ts[1..], lit + [ts[0]]);
      } else if |ts| > 1 && !LoneSigil(ts[0], ts[1]) {
        var d := ParseDirective(ts);
        if d.Ok? {
          var (item, rest) := d.value;
          ParseNormal(rest, []);
          ParsePrints(rest, []);
          assert [] + rest == rest;
          var r := ParseItems(rest, []);
          if r.Ok? {
            DirectiveNormal(ts, r.value);
            assert Flush(lit) + [item] + r.value == Flush(lit) + ([item] + r.value);
            assert ([item] + r.value)[1..] == r.value;
            FlushNormal(lit, [item] + r.value);
          }
        }
      } else {
        ParseNormal(ts[1..], [ts[0]]);
        var r := ParseItems(ts[1..], [ts[0]]);
        if r.Ok? {
          FlushNormal(lit, r.value);
        }
      }
    }
  }

  lemma PendingGrows(lit: TokenStream, ts: TokenStream)
    requires Pending(lit, ts) && ts != [] && !IsSigil(ts[0])
    ensures Pending(lit + [ts[0]], ts[1..])
  {
    if lit != [] { assert (lit + [ts[0]])[1..] == lit[1..] + [ts[0]]; }
  }

  /** A literal followed by something that does not extend it. */
  lemma FlushNormal(lit: TokenStream, rest: seq<Item>)
    requires Pending(lit, []) && Normal(rest, false)
    requires rest != [] && rest[0].Text? && rest[0].tokens != [] ==> IsSigil(rest[0].tokens[0])
    ensures Normal(Flush(lit) + rest, false)
    ensures lit != [] ==> (Flush(lit) + rest)[0] == Text(lit)
  {
    if lit != [] {
      assert (Flush(lit) + rest)[1..] == rest;
      assert Normal(rest, true);
    } else {
      assert Flush(lit) + rest == rest;
    }
  }

  lemma StartsWithAtPrints(items: seq<Item>)
    requires Normal(items, false)
    ensures StartsWithAt(items) <==> PrintItems(items) != [] && PrintItems(items)[0] == AT
  {
    hide NormalItem;
    if items != [] && items[0].Text? { TextIsNormal(items[0], items[1..]); }
  }

  lemma TextIsNormal(item: Item, next: seq<Item>)
    requires item.Text? && NormalItem(item, next)
    ensures NormalText(item.tokens)
  {
  }

  lemma {:induction false} DirectiveNormal(ts: TokenStream, next: seq<Item>)
    requires |ts| > 1 && IsSigil(ts[0]) && !LoneSigil(ts[0], ts[1])
    requires ParseDirective(ts).Ok? && Normal(next, false) && PrintItems(next) == ParseDirective(ts).value.1
    ensures NormalItem(ParseDirective(ts).value.0, next) && !ParseDirective(ts).value.0.Text?
    decreases Size(ts), 0
  {
    hide ParseItems, Normal, PrintItems;
    SizeSplit(ts);
    SizeSplit(ts[1..]);
    if ts[0] == AT {
      if ts[1] == Ident("for") { ForNormal(ts[2..], next); } else { IfNormal(ts[2..], next); }
    }
  }

  lemma {:induction false} ForNormal(ts: TokenStream, next: seq<Item>)
    requires ParseFor(ts).Ok?
    ensures NormalItem(ParseFor(ts).value.0, next) && !ParseFor(ts).value.0.Text?
    decreases Size(ts), 2
  {
    hide ParseItems, Size;
    SizeDrop(ts, 3);
    SizeSplit(ts[3..]);
    ParseNormal(ts[3].stream, []);
  }

  lemma {:induction false} IfNormal(ts: TokenStream, next: seq<Item>)
    requires ParseIf(ts).Ok? && Normal(next, false) && PrintItems(next) == ParseIf(ts).value.1
    ensures NormalItem(ParseIf(ts).value.0, next) && !ParseIf(ts).value.0.Text?
    decreases Size(ts), 2
  {
    hide ParseItems, Size, PrintItems, StartsWithAt, Normal;
    var k := FirstBrace(ts);
    SizeDrop(ts, k);
    SizeSplit(ts[k..]);
    assert ts[k..][1..] == ts[k + 1..];
    ParseNormal(ts[k].stream, []);
    ElseNormal(ts[k + 1..]);
    StartsWithAtPrints(next);
  }

  lemma {:induction false} ElseNormal(ts: TokenStream)
    requires ParseElse(ts).Ok?
    ensures var (elseBody, rest) := ParseElse(ts).value;
            if elseBody.Some? then Normal(elseBody.value.items, false)
            else rest == [] || rest[0] != AT
    decreases Size(ts), 2
  {
    hide ParseItems, Size, Normal;
    if ParseElse(ts).value.0.Some? {
      SizeDrop(ts, 2);
      SizeSplit(ts[2..]);
      ParseNormal(ts[2].stream, []);
    }
  }

  // ---------------------------------------------------------------- parsing undoes printing

  /** What the parser does at a sigil. */
  lemma ParseAtSigil(ts: TokenStream, lit: TokenStream)
    requires ts != [] && IsSigil(ts[0])
    ensures |ts| > 1 && !LoneSigil(ts[0], ts[1]) ==>
              var d := ParseDirective(ts);
              ParseItems(ts, lit) ==
                if d.Ok? then Prepend(Flush(lit) + [d.value.0], ParseItems(d.value.1, [])) else Err(d.error)
    ensures |ts| <= 1 || LoneSigil(ts[0], ts[1]) ==>
              ParseItems(ts, lit) == Prepend(Flush(lit), ParseItems(ts[1..], [ts[0]]))
  {
    hide Prepend, ParseDirective, LoneSigil, IsSigil, Flush;
  }

  /** The literal accumulated so far goes in front of whatever the rest parses to. */
  lemma FlushFirst(ts: TokenStream, lit: TokenStream)
    requires ts == [] || IsSigil(ts[0])
    ensures ParseItems(ts, lit) == Prepend(Flush(lit), ParseItems(ts, []))
  {
    hide ParseDirective, LoneSigil, IsSigil, Size;
    if ts == [] {
      assert Flush(lit) + [] == Flush(lit);
    } else {
      hide ParseItems, Prepend;
      ParseAtSigil(ts, lit);
      ParseAtSigil(ts, []);
      if |ts| > 1 && !LoneSigil(ts[0], ts[1]) {
        var d := ParseDirective(ts);
        if d.Ok? {
          PrependTwice(Flush(lit), [d.value.0], ParseItems(d.value.1, []));
          assert [] + [d.value.0] == [d.value.0];
        } else {
          PrependError(Flush(lit), d.error);
        }
      } else {
        PrependTwice([], [], ParseItems(ts[1..], [ts[0]]));
      }
    }
  }

  lemma PrependError(items: seq<Item>, e: ParseError)
    ensures Prepend(items, Err(e)) == Err(e)
  {
  }

  lemma {:induction false} PlainRun(plain: TokenStream, rest: TokenStream, lit: TokenStream)
    requires SigilFree(plain)
    ensures ParseItems(plain + rest, lit) == ParseItems(rest, lit + plain)
    decreases |plain|
  {
    hide ParseDirective;
    if plain == [] {
      assert plain + rest == rest && lit + plain == lit;
    } else {
      assert (plain + rest)[0] == plain[0] && (plain + rest)[1..] == plain[1..] + rest;
      PlainRun(plain[1..], rest, lit + [plain[0]]);
      assert lit + [plain[0]] + plain[1..] == lit + plain;
    }
  }

  /** A literal's first token starts the accumulator, whether it is a sigil or not. */
  lemma TextStarts(first: TokenTree, ts: TokenStream)
    requires ts != [] && IsSigil(first) ==> LoneSigil(first, ts[0])
    ensures ParseItems([first] + ts, []) == ParseItems(ts, [first])
  {
    hide ParseDirective;
    var all := [first] + ts;
    assert all[0] == first && all[1..] == ts && (ts != [] ==> all[1] == ts[0]);
    assert [] + [first] == [first];
    var r := ParseItems(ts, [first]);
    assert Prepend([], r) == r by {
      if r.Ok? { assert [] + r.value == r.value; }
    }
  }

  lemma TextParses(tokens: TokenStream, rest: TokenStream)
    requires NormalText(tokens) && (rest == [] || IsSigil(rest[0]))
    ensures ParseItems(tokens + rest, []) == Prepend([Text(tokens)], ParseItems(rest, []))
  {
    hide ParseItems;
    var plain := tokens[1..];
    assert tokens + rest == [tokens[0]] + (plain + rest);
    assert |tokens| == 1 ==> plain + rest == rest;
    TextStarts(tokens[0], plain + rest);
    PlainRun(plain, rest, [tokens[0]]);
    assert [tokens[0]] + plain == tokens;
    FlushFirst(rest, tokens);
  }

  lemma NextIsSigil(items: seq<Item>)
    requires Normal(items, true)
    ensures PrintItems(items) == [] || IsSigil(PrintItems(items)[0])
  {
    hide NormalItem;
    if items != [] && items[0].Text? { TextIsNormal(items[0], items[1..]); }
  }

  /** Every template in normal form is read back as it was printed. */
  lemma {:induction false} PrintParses(items: seq<Item>, afterText: bool)
    requires Normal(items, afterText)
    ensures ParseItems(PrintItems(items), []) == Ok(items)
    decreases items, 1
  {
    hide ParseDirective, PrintItem;
    if items != [] {
      var item, rest := items[0], PrintItems(items[1..]);
      PrintParses(items[1..], item.Text?);
      assert items == [item] + items[1..];
      if item.Text? {
        TextIsNormal(item, items[1..]);
        NextIsSigil(items[1..]);
        TextParses(item.tokens, rest);
        PrintText(item);
      } else {
        ItemParses(item, items[1..]);
        assert [] + [item] + items[1..] == items;
      }
    }
  }

  lemma PrintText(item: Item)
    requires item.Text?
    ensures PrintItem(item) == item.tokens
  {
  }

  /** `ts` is read as `item`, followed by `rest`. */
  predicate ReadsAs(ts: TokenStream, item: Item, rest: TokenStream) {
    && |ts| > 1 && IsSigil(ts[0]) && !LoneSigil(ts[0], ts[1])
    && ParseDirective(ts) == Ok((item, rest))
  }

  lemma {:induction false} ItemParses(item: Item, next: seq<Item>)
    requires !item.Text? && NormalItem(item, next) && Normal(next, false)
    ensures ReadsAs(PrintItem(item) + PrintItems(next), item, PrintItems(next))
    decreases item, 0
  {
    hide ReadsAs, PrintItem, PrintItems, Normal, ParseItems, StartsWithAt, BraceFree;
    match item {
      case VarSimple(name) => VarParses(item, PrintItems(next));
      case VarExpr(expr) => VarParses(item, PrintItems(next));
      case For(binding, collection, body) =>
        PrintParses(body.items, false);
        ForItemParses(item, PrintItems(next));
      case If(condition, thenBody, elseBody) =>
        PrintParses(thenBody.items, false);
        if elseBody.Some? { PrintParses(elseBody.value.items, false); }
        StartsWithAtPrints(next);
        IfItemParses(item, PrintItems(next));
    }
  }

  lemma VarParses(item: Item, rest: TokenStream)
    requires item.VarSimple? || item.VarExpr?
    ensures ReadsAs(PrintItem(item) + rest, item, rest)
  {
    assert (PrintItem(item) + rest)[2..] == rest;
  }

  lemma ForItemParses(item: Item, rest: TokenStream)
    requires item.For? && ParseItems(PrintItems(item.body.items), []) == Ok(item.body.items)
    ensures ReadsAs(PrintItem(item) + rest, item, rest)
  {
    hide ParseItems, PrintItems, ParseFor;
    var group := Group(Brace, PrintItems(item.body.items));
    ForParses(item.binding, item.collection, item.body, rest);
    assert (PrintItem(item) + rest)[2..] == [Ident(item.binding), Ident("in"), Ident(item.collection), group] + rest;
  }

  lemma IfItemParses(item: Item, rest: TokenStream)
    requires item.If? && BraceFree(item.condition)
    requires ParseItems(PrintItems(item.thenBody.items), []) == Ok(item.thenBody.items)
    requires item.elseBody.Some? ==>
               ParseItems(PrintItems(item.elseBody.value.items), []) == Ok(item.elseBody.value.items)
    requires item.elseBody.None? ==> rest == [] || rest[0] != AT
    ensures ReadsAs(PrintItem(item) + rest, item, rest)
  {
    hide ParseItems, PrintItems, ParseIf, BraceFree;
    IfParses(item.condition, item.thenBody, item.elseBody, rest);
    assert (PrintItem(item) + rest)[2..] ==
           item.condition + [Group(Brace, PrintItems(item.thenBody.items))] + PrintElse(item.elseBody) + rest;
  }

  lemma ForParses(binding: string, collection: string, body: Template, rest: TokenStream)
    requires ParseItems(PrintItems(body.items), []) == Ok(body.items)
    ensures ParseFor([Ident(binding), Ident("in"), Ident(collection), Group(Brace, PrintItems(body.items))] + rest) ==
            Ok((For(binding, collection, body), rest))
  {
    hide ParseItems, PrintItems, Size;
    var ts := [Ident(binding), Ident("in"), Ident(collection), Group(Brace, PrintItems(body.items))] + rest;
    assert ts[4..] == rest;
  }

  lemma IfParses(condition: TokenStream, thenBody: Template, elseBody: Option<Template>, rest: TokenStream)
    requires BraceFree(condition)
    requires ParseItems(PrintItems(thenBody.items), []) == Ok(thenBody.items)
    requires elseBody.Some? ==> ParseItems(PrintItems(elseBody.value.items), []) == Ok(elseBody.value.items)
    requires elseBody.None? ==> rest == [] || rest[0] != AT
    ensures ParseIf(condition + [Group(Brace, PrintItems(thenBody.items))] + PrintElse(elseBody) + rest) ==
            Ok((If(condition, thenBody, elseBody), rest))
  {
    hide ParseItems, PrintItems, ParseElse, PrintElse, ParseIf, BraceFree;
    var k, group := |condition|, Group(Brace, PrintItems(thenBody.items));
    var after := PrintElse(elseBody) + rest;
    var ts := condition + [group] + PrintElse(elseBody) + rest;
    assert ts == condition + [group] + after;
    assert ts[k] == group && ts[..k] == condition && ts[k + 1..] == after;
    FirstBraceIs(ts, k);
    ElseParses(elseBody, rest);
    IfAt(ts, k, thenBody, elseBody, rest);
  }

  lemma IfAt(ts: TokenStream, k: nat, thenBody: Template, elseBody: Option<Template>, rest: TokenStream)
    requires k == FirstBrace(ts) && k < |ts|
    requires ParseItems(ts[k].stream, []) == Ok(thenBody.items) && ParseElse(ts[k + 1..]) == Ok((elseBody, rest))
    ensures ParseIf(ts) == Ok((If(ts[..k], thenBody, elseBody), rest))
  {
    hide ParseItems, ParseElse, FirstBrace;
  }

  lemma ElseParses(elseBody: Option<Template>, rest: TokenStream)
    requires elseBody.Some? ==> ParseItems(PrintItems(elseBody.value.items), []) == Ok(elseBody.value.items)
    requires elseBody.None? ==> rest == [] || rest[0] != AT
    ensures ParseElse(PrintElse(elseBody) + rest) == Ok((elseBody, rest))
  {
    hide ParseItems, PrintItems;
    var tail := PrintElse(elseBody) + rest;
    if elseBody.Some? {
      assert tail[3..] == rest;
    } else {
      assert tail == rest;
    }
  }

  lemma FirstBraceIs(ts: TokenStream, k: nat)
    requires k < |ts| && IsBrace(ts[k]) && BraceFree(ts[..k])
    ensures FirstBrace(ts) == k
  {
    var j := FirstBrace(ts);
    assert forall i :: 0 <= i < k ==> ts[..k][i] == ts[i];
    assert forall i :: 0 <= i < j ==> ts[..j][i] == ts[i];
  }

  // ---------------------------------------------------------------- the parser

  /**
    The parser inverts the printer exactly: a stream is accepted just when it is the
    printed form of a template in normal form, and that template is the answer.
   */
  lemma RoundTrip(ts: TokenStream, t: Template)
    ensures ParseItems(ts, []) == Ok(t.items) <==> Normal(t.items, false) && PrintItems(t.items) == ts
  {
    if ParseItems(ts, []) == Ok(t.items) {
      ParsePrints(ts, []);
      ParseNormal(ts, []);
      assert [] + ts == ts;
    }
    if Normal(t.items, false) && PrintItems(t.items) == ts {
      PrintParses(t.items, false);
    }
  }

  lemma PrependTwice(a: seq<Item>, b: seq<Item>, r: Result<seq<Item>, ParseError>)
    ensures Prepend(a, Prepend(b, r)) == Prepend(a + b, r)
    ensures Prepend([], r) == r
  {
    if r.Ok? { assert a + (b + r.value) == a + b + r.value && [] + r.value == r.value; }
  }

  /** A parsing method found what the parsing function says, and left the iterator there. */
  ghost predicate Agrees<T>(spec: Result<(T, TokenStream), ParseError>, r: Result<T, ParseError>, rest: TokenStream) {
    match spec
    case Ok((value, rest1)) => r == Ok(value) && rest == rest1
    case Err(e) => r == Err(e)
  }

  ghost predicate Parses(spec: Result<seq<Item>, ParseError>, r: Result<Template, ParseError>) {
    match spec
    case Ok(items) => r == Ok(Template(items))
    case Err(e) => r == Err(e)
  }

  method ParseTemplate(tokens: TokenStream) returns (r: Result<Template, ParseError>)
    ensures Parses(ParseItems(tokens, []), r)
    decreases Size(tokens), 3
  {
    hide ParseDirective, ParseFor, ParseIf, Size;
    var iter := new TokenIter(tokens);
    var items: seq<Item> := [];
    var literalAcc: TokenStream := [];
    ghost var goal := ParseItems(tokens, []);
    PrependTwice([], [], goal);
    while iter.rest != []
      invariant fresh(iter) && Size(iter.rest) <= Size(tokens)
      invariant goal == Prepend(items, ParseItems(iter.rest, literalAcc))
      decreases Size(iter.rest)
    {
      ghost var before, lit := iter.rest, literalAcc;
      SizeSplit(before);
      var tt := iter.Next();
      if iter.rest != [] { SizeSplit(iter.rest); }
      var peek := iter.Peek();
      if tt == Some(HASH) || tt == Some(AT) {
        ParseSigil(before, items, lit);
        items := items + Flush(literalAcc);
        literalAcc := [];
        if peek.Some? && tt == Some(HASH) && peek.value.Ident? {
          var ident := iter.Next();
          items := items + [VarSimple(ident.value.name)];
        } else if peek.Some? && tt == Some(HASH) && peek.value.Group? && peek.value.delimiter == Parenthesis {
          var group := iter.Next();
          items := items + [VarExpr(group.value.stream)];
        } else if tt == Some(AT) && peek == Some(Ident("for")) {
          var _ := iter.Next();
          var item := ParseForFrom(iter);
          if item.Err? {
            return Err(item.error);
          }
          items := items + [item.value];
        } else if tt == Some(AT) && peek == Some(Ident("if")) {
          var _ := iter.Next();
          var item := ParseIfFrom(iter);
          if item.Err? {
            return Err(item.error);
          }
          items := items + [item.value];
        } else {
          literalAcc := [tt.value];
        }
      } else {
        literalAcc := literalAcc + [tt.value];
      }
    }
    items := items + Flush(literalAcc);
    r := Ok(Template(items));
  }

  /** One step of the parser at a sigil, in terms of what has been parsed so far. */
  lemma ParseSigil(ts: TokenStream, items: seq<Item>, lit: TokenStream)
    requires ts != [] && IsSigil(ts[0])
    ensures Prepend(items, ParseItems(ts, lit)) ==
            if |ts| > 1 && !LoneSigil(ts[0], ts[1]) then
              match ParseDirective(ts)
              case Ok(one) => Prepend(items + Flush(lit) + [one.0], ParseItems(one.1, []))
              case Err(e) => Err(e)
            else Prepend(items + Flush(lit), ParseItems(ts[1..], [ts[0]]))
    ensures |ts| > 1 && !LoneSigil(ts[0], ts[1]) ==>
            ParseDirective(ts) ==
              if ts[0] == HASH then
                Ok((if ts[1].Ident? then VarSimple(ts[1].name) else VarExpr(ts[1].stream), ts[1..][1..]))
              else if ts[1] == Ident("for") then ParseFor(ts[1..][1..])
              else ParseIf(ts[1..][1..])
  {
    hide ParseFor, ParseIf;
    assert |ts| > 1 ==> ts[1..][1..] == ts[2..];
    if |ts| > 1 && !LoneSigil(ts[0], ts[1]) {
      var d := ParseDirective(ts);
      if d.Ok? {
        PrependTwice(items, Flush(lit) + [d.value.0], ParseItems(d.value.1, []));
        assert items + (Flush(lit) + [d.value.0]) == items + Flush(lit) + [d.value.0];
      }
    } else {
      PrependTwice(items, Flush(lit), ParseItems(ts[1..], [ts[0]]));
    }
  }

  method ParseForFrom(iter: TokenIter) returns (r: Result<Item, ParseError>)
    modifies iter
    ensures Agrees(ParseFor(old(iter.rest)), r, iter.rest)
    decreases Size(iter.rest), 4
  {
    hide ParseItems, Size;
    ghost var ts := iter.rest;
    var binding := iter.Next();
    if binding.None? || !binding.value.Ident? {
      return Err(ForBinding(binding));
    }
    var inKeyword := iter.Next();
    if inKeyword != Some(Ident("in")) {
      return Err(ForIn(inKeyword));
    }
    var collection := iter.Next();
    if collection.None? || !collection.value.Ident? {
      return Err(ForCollection(collection));
    }
    var group := iter.Next();
    if group.None? || !IsBrace(group.value) {
      return Err(ForBody(group));
    }
    SizeDrop(ts, 3);
    SizeSplit(ts[3..]);
    var body := ParseTemplate(group.value.stream);
    if body.Err? {
      return Err(body.error);
    }
    r := Ok(For(binding.value.name, collection.value.name, body.value));
  }

  method ParseIfFrom(iter: TokenIter) returns (r: Result<Item, ParseError>)
    modifies iter
    ensures Agrees(ParseIf(old(iter.rest)), r, iter.rest)
    decreases Size(iter.rest), 5
  {
    hide ParseItems, ParseElse, Size, FirstBrace;
    ghost var ts := iter.rest;
    ghost var k := FirstBrace(ts);
    var condition: TokenStream := [];
    while true
      invariant |condition| <= k && condition == ts[..|condition|] && iter.rest == ts[|condition|..]
      decreases k - |condition|
    {
      assert forall i :: 0 <= i < k ==> ts[..k][i] == ts[i];
      var peek := iter.Peek();
      if peek.None? {
        return Err(IfBody);
      }
      if IsBrace(peek.value) {
        break;
      }
      var t := iter.Next();
      condition := condition + [t.value];
    }
    assert |condition| == k;
    SizeDrop(ts, k);
    SizeSplit(ts[k..]);
    assert ts[k..][1..] == ts[k + 1..];
    var group := iter.Next();
    var thenBody := ParseTemplate(group.value.stream);
    if thenBody.Err? {
      return Err(thenBody.error);
    }
    var elseBody := ParseElseFrom(iter);
    if elseBody.Err? {
      return Err(elseBody.error);
    }
    r := Ok(If(condition, thenBody.value, elseBody.value));
  }

  method ParseElseFrom(iter: TokenIter) returns (r: Result<Option<Template>, ParseError>)
    modifies iter
    ensures Agrees(ParseElse(old(iter.rest)), r, iter.rest)
    decreases Size(iter.rest), 4
  {
    hide ParseItems, Size;
    ghost var ts := iter.rest;
    var peek := iter.Peek();
    if peek != Some(AT) {
      return Ok(None);
    }
    var _ := iter.Next();
    peek := iter.Peek();
    if peek.None? || !peek.value.Ident? {
      return Err(ElseKeyword);
    }
    if peek.value.name != "else" {
      return Err(ElseInstead(peek.value.name));
    }
    var _ := iter.Next();
    var group := iter.Next();
    if group.None? || !IsBrace(group.value) {
      return Err(ElseBody(group));
    }
    SizeDrop(ts, 2);
    SizeSplit(ts[2..]);
    var body := ParseTemplate(group.value.stream);
    if body.Err? {
      return Err(body.error);
    }
    r := Ok(Some(body.value));
  }

  /**
    What callers get: a template that prints as the input, and an error only when no
    normal-form template prints as the input.
   */
  method Parse(tokens: TokenStream) returns (r: Result<Template, ParseError>)
    ensures r.Ok? ==> Normal(r.value.items, false) && PrintItems(r.value.items) == tokens
    ensures r.Err? ==> forall t: Template :: Normal(t.items, false) ==> PrintItems(t.items) != tokens
  {
    hide ParseItems, Normal, PrintItems;
    r := ParseTemplate(tokens);
    if r.Ok? {
      RoundTrip(tokens, r.value);
    } else {
      forall t: Template ensures Normal(t.items, false) ==> PrintItems(t.items) != tokens {
        RoundTrip(tokens, t);
      }
    }
  }
}
