/** Token trees, without spans and punctuation spacing, and the text helpers the macros share. */
module Tokens {
  import opened Wrappers

  datatype Delimiter = Parenthesis | Bracket | Brace | NoDelimiter

  datatype TokenTree =
    | Ident(name: string)
    | Punct(ch: char)
    | Literal(text: string)
    | StringLiteral(value: string) // made from a string value, kept unescaped
    | Group(delimiter: Delimiter, stream: TokenStream)

  type TokenStream = seq<TokenTree>

  function TreeSize(t: TokenTree): nat {
    match t
    case Group(_, stream) => 1 + Size(stream)
    case _ => 1
  }

  function Size(ts: TokenStream): (n: nat)
    ensures |ts| <= n
  {
    if ts == [] then 0 else TreeSize(ts[0]) + Size(ts[1..])
  }

  lemma SizeSplit(ts: TokenStream)
    requires ts != []
    ensures Size(ts) == TreeSize(ts[0]) + Size(ts[1..])
    ensures ts[0].Group? ==> Size(ts[0].stream) + Size(ts[1..]) < Size(ts)
    ensures Size(ts[1..]) < Size(ts)
  {
  }

  /** `char::is_whitespace`: the Unicode White_Space property. */
  predicate IsWhitespace(c: char) {
    || '\U{9}' <= c <= '\U{D}' || c == '\U{20}' || c == '\U{85}' || c == '\U{A0}' || c == '\U{1680}'
    || '\U{2000}' <= c <= '\U{200A}' || c == '\U{2028}' || c == '\U{2029}' || c == '\U{202F}'
    || c == '\U{205F}' || c == '\U{3000}'
  }

  function TrimStart(s: string): string {
    if s != "" && IsWhitespace(s[0]) then TrimStart(s[1..]) else s
  }

  function TrimEnd(s: string): string {
    if s != "" && IsWhitespace(s[|s| - 1]) then TrimEnd(s[..|s| - 1]) else s
  }

  function Trim(s: string): string {
    TrimEnd(TrimStart(s))
  }

  function Join(parts: seq<string>, separator: string): string {
    if parts == [] then ""
    else if |parts| == 1 then parts[0]
    else parts[0] + separator + Join(parts[1..], separator)
  }

  predicate Contains(s: string, needle: string) {
    needle <= s || (s != "" && Contains(s[1..], needle))
  }

  function Decimal(n: nat): string {
    var digit := [('0' as int + n % 10) as char];
    if n < 10 then digit else Decimal(n / 10) + digit
  }

  /** The length of a string literal's body and closing quote, or 0 if it is not closed. */
  function QuoteLength(s: string): (n: nat)
    ensures n <= |s|
  {
    if s == "" then 0
    else if s[0] == '"' then 1
    else if s[0] == '\\' then
      if |s| == 1 || QuoteLength(s[2..]) == 0 then 0 else 2 + QuoteLength(s[2..])
    else if QuoteLength(s[1..]) == 0 then 0 else 1 + QuoteLength(s[1..])
  }

  /** `iter.next()` where a group is wanted: the group's stream if it is one, and the rest either way. */
  function TakeGroup(ts: TokenStream): (r: (Option<TokenStream>, TokenStream))
    ensures Size(r.1) <= Size(ts)
    ensures r.0.Some? ==> Size(r.0.value) + Size(r.1) < Size(ts)
  {
    if ts == [] then (None, [])
    else if ts[0].Group? then (Some(ts[0].stream), ts[1..])
    else (None, ts[1..])
  }

  /** The peekable token iterator that the evaluators and the parser consume from. */
  class TokenIter {
    var rest: TokenStream

    constructor (tokens: TokenStream)
      ensures rest == tokens
    {
      rest := tokens;
    }

    method Next() returns (t: Option<TokenTree>)
      modifies this
      ensures old(rest) == [] ==> t == None && rest == []
      ensures old(rest) != [] ==> t == Some(old(rest)[0]) && rest == old(rest)[1..]
    {
      if rest == [] {
        t := None;
      } else {
        t := Some(rest[0]);
        rest := rest[1..];
      }
    }

    method Peek() returns (t: Option<TokenTree>)
      ensures t == if rest == [] then None else Some(rest[0])
    {
      t := if rest == [] then None else Some(rest[0]);
    }

    method NextGroup() returns (stream: Option<TokenStream>)
      modifies this
      ensures (stream, rest) == TakeGroup(old(rest))
    {
      var t := Next();
      match t {
        case Some(Group(_, s)) => stream := Some(s);
        case _ => stream := None;
      }
    }
  }
}
