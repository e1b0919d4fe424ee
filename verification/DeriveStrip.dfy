/**
  Removing `derive(..)` items from `#[facet(..)]` attributes before the tokens are
  handed to the ordinary derive.
 */
module DeriveStrip {
  import opened Wrappers
  import opened Tokens

  const COMMA: TokenTree := Punct(',')

  predicate IsPluginItem(item: TokenStream) {
    item != [] && item[0] == Ident("derive")
  }

  predicate Keeps(item: TokenStream) {
    item != [] && !IsPluginItem(item)
  }

  // ---------------------------------------------------------------- items

  /** The stretches between commas, the last one included. */
  function Segments(content: TokenStream): (r: seq<TokenStream>)
    ensures r != []
    decreases |content|
  {
    if content == [] then [[]] else
    var n := |content| - 1;
    var before := Segments(content[..n]);
    if content[n] == COMMA then before + [[]]
    else before[..|before| - 1] + [before[|before| - 1] + [content[n]]]
  }

  function Filter(items: seq<TokenStream>): seq<TokenStream> {
    if items == [] then []
    else Filter(items[..|items| - 1]) + (if Keeps(items[|items| - 1]) then [items[|items| - 1]] else [])
  }

  function JoinItems(items: seq<TokenStream>): TokenStream {
    if items == [] then []
    else if |items| == 1 then items[0]
    else JoinItems(items[..|items| - 1]) + [COMMA] + items[|items| - 1]
  }

  method StripContent(content: TokenStream) returns (result: TokenStream)
    ensures result == JoinItems(Filter(Segments(content)))
  {
    var items: seq<TokenStream> := [];
    var current: TokenStream := [];
    for i := 0 to |content|
      invariant var segments := Segments(content[..i]);
                items == Filter(segments[..|segments| - 1]) && current == segments[|segments| - 1]
    {
      assert content[..i + 1][..i] == content[..i];
      if content[i] == COMMA {
        if current != [] && !IsPluginItem(current) {
          items := items + [current];
        }
        current := [];
      } else {
        current := current + [content[i]];
      }
    }
    assert content[..|content|] == content;
    if current != [] && !IsPluginItem(current) {
      items := items + [current];
    }
    assert items == Filter(Segments(content));
    result := [];
    for i := 0 to |items|
      invariant result == JoinItems(items[..i])
    {
      assert items[..i + 1][..i] == items[..i];
      if i > 0 {
        result := result + [COMMA];
      }
      result := result + items[i];
    }
    assert items[..|items|] == items;
  }

  ghost predicate CommaFree(item: TokenStream) {
    forall i :: 0 <= i < |item| ==> item[i] != COMMA
  }

  ghost predicate AllKept(items: seq<TokenStream>) {
    forall i :: 0 <= i < |items| ==> Keeps(items[i]) && CommaFree(items[i])
  }

  lemma {:induction false} SegmentsCommaFree(content: TokenStream)
    ensures forall i :: 0 <= i < |Segments(content)| ==> CommaFree(Segments(content)[i])
    decreases |content|
  {
    if content != [] { SegmentsCommaFree(content[..|content| - 1]); }
  }

  lemma {:induction false} FilterKept(items: seq<TokenStream>)
    requires forall i :: 0 <= i < |items| ==> CommaFree(items[i])
    ensures AllKept(Filter(items))
  {
    if items != [] { FilterKept(items[..|items| - 1]); }
  }

  lemma {:induction false} FilterIdentity(items: seq<TokenStream>)
    requires AllKept(items)
    ensures Filter(items) == items
  {
    if items != [] {
      FilterIdentity(items[..|items| - 1]);
    }
  }

  lemma SegmentsOneMore(content: TokenStream, t: TokenTree)
    requires t != COMMA
    ensures var before := Segments(content);
            Segments(content + [t]) == before[..|before| - 1] + [before[|before| - 1] + [t]]
  {
    assert (content + [t])[..|content|] == content;
  }

  /** Appending a comma-free stretch extends the last segment. */
  lemma {:induction false} SegmentsExtend(content: TokenStream, item: TokenStream)
    requires CommaFree(item)
    ensures var before := Segments(content);
            Segments(content + item) == before[..|before| - 1] + [before[|before| - 1] + item]
    decreases |item|
  {
    hide Segments;
    var before := Segments(content);
    if item == [] {
      assert content + item == content;
      assert before[|before| - 1] + item == before[|before| - 1];
    } else {
      var n := |item| - 1;
      SegmentsExtend(content, item[..n]);
      assert before[|before| - 1] + item == before[|before| - 1] + item[..n] + [item[n]];
      SegmentsOneMore(content + item[..n], item[n]);
      assert content + item == content + item[..n] + [item[n]];
    }
  }

  /** Joining kept items and cutting at the commas gives the items back. */
  lemma {:induction false} SegmentsOfJoin(items: seq<TokenStream>)
    requires AllKept(items) && items != []
    ensures Segments(JoinItems(items)) == items
  {
    hide Segments, CommaFree, Keeps;
    var n := |items| - 1;
    if n == 0 {
      SegmentsOne(items[0]);
      assert items == [items[0]];
    } else {
      var before := JoinItems(items[..n]);
      SegmentsOfJoin(items[..n]);
      SegmentsComma(before, items[n]);
      assert items == items[..n] + [items[n]];
    }
  }

  lemma SegmentsOne(item: TokenStream)
    requires CommaFree(item)
    ensures Segments(item) == [item]
  {
    SegmentsExtend([], item);
    assert Segments([]) == [[]] && [] + item == item;
  }

  /** A comma and a comma-free stretch are one more segment. */
  lemma SegmentsComma(content: TokenStream, item: TokenStream)
    requires CommaFree(item)
    ensures Segments(content + [COMMA] + item) == Segments(content) + [item]
  {
    var all := Segments(content);
    assert (content + [COMMA])[..|content|] == content;
    assert Segments(content + [COMMA]) == all + [[]];
    SegmentsExtend(content + [COMMA], item);
    assert (all + [[]])[..|all|] == all && [] + item == item;
  }

  /** The items of an attribute's content: non-empty stretches between commas. */
  function NonEmpty(items: seq<TokenStream>): seq<TokenStream> {
    if items == [] then []
    else NonEmpty(items[..|items| - 1]) + (if items[|items| - 1] != [] then [items[|items| - 1]] else [])
  }

  function WithoutDerive(items: seq<TokenStream>): seq<TokenStream> {
    if items == [] then []
    else WithoutDerive(items[..|items| - 1]) + (if IsPluginItem(items[|items| - 1]) then [] else [items[|items| - 1]])
  }

  lemma {:induction false} FilterInTwo(items: seq<TokenStream>)
    ensures Filter(items) == WithoutDerive(NonEmpty(items))
  {
    if items != [] {
      var n := |items| - 1;
      FilterInTwo(items[..n]);
      var before := NonEmpty(items[..n]);
      if items[n] != [] {
        assert NonEmpty(items) == before + [items[n]];
        assert (before + [items[n]])[..|before|] == before;
      } else {
        assert NonEmpty(items) == before && Filter(items) == Filter(items[..n]);
      }
    }
  }

  lemma {:induction false} NonEmptyKept(items: seq<TokenStream>)
    requires AllKept(items)
    ensures NonEmpty(items) == items
  {
    if items != [] { NonEmptyKept(items[..|items| - 1]); }
  }

  /** What stripping leaves are exactly the items that do not start with `derive`, in order. */
  lemma StrippedItems(content: TokenStream)
    ensures var stripped := JoinItems(Filter(Segments(content)));
            NonEmpty(Segments(stripped)) == WithoutDerive(NonEmpty(Segments(content)))
  {
    var kept := Filter(Segments(content));
    SegmentsCommaFree(content);
    FilterKept(Segments(content));
    FilterInTwo(Segments(content));
    if kept == [] {
      assert Segments([]) == [[]];
      assert NonEmpty([[]]) == NonEmpty([[]][..0]) + [] == [];
    } else {
      SegmentsOfJoin(kept);
      NonEmptyKept(kept);
    }
  }

  lemma StripContentTwice(content: TokenStream)
    ensures var stripped := JoinItems(Filter(Segments(content)));
            JoinItems(Filter(Segments(stripped))) == stripped
  {
    var kept := Filter(Segments(content));
    SegmentsCommaFree(content);
    FilterKept(Segments(content));
    if kept == [] {
      assert Segments([]) == [[]];
      assert Filter([[]]) == Filter([[]][..0]) + [] == [];
    } else {
      SegmentsOfJoin(kept);
      FilterIdentity(kept);
    }
  }

  // ---------------------------------------------------------------- attributes

  /** `facet ( .. )`, whatever follows the group. */
  predicate IsFacetBody(inner: TokenStream) {
    |inner| >= 2 && inner[0] == Ident("facet") && inner[1].Group? && inner[1].delimiter == Parenthesis
  }

  predicate IsFacetGroup(t: TokenTree) {
    t.Group? && t.delimiter == Bracket && IsFacetBody(t.stream)
  }

  /** The rebuilt attribute body: never empty, so the attribute itself always stays. */
  function FilteredBody(inner: TokenStream): (r: TokenStream)
    requires IsFacetBody(inner)
    ensures IsFacetBody(r)
  {
    [inner[0], Group(Parenthesis, JoinItems(Filter(Segments(inner[1].stream))))]
  }

  function FilteredGroup(t: TokenTree): (r: TokenTree)
    requires IsFacetGroup(t)
    ensures IsFacetGroup(r)
  {
    Group(Bracket, FilteredBody(t.stream))
  }

  /** Position `i` holds the bracket group of a `#[facet(..)]` attribute. */
  predicate AttrAt(tokens: TokenStream, i: nat)
    requires i < |tokens|
  {
    i > 0 && tokens[i - 1] == Punct('#') && IsFacetGroup(tokens[i])
  }

  /** `tokens` with every `#[facet(..)]` at the top level filtered, and nothing else touched. */
  ghost predicate Stripped(tokens: TokenStream, result: TokenStream) {
    && |result| == |tokens|
    && forall i :: 0 <= i < |tokens| ==>
         result[i] == if AttrAt(tokens, i) then FilteredGroup(tokens[i]) else tokens[i]
  }

  method StripFacetAttr(inner: TokenStream) returns (r: Option<TokenStream>)
    ensures r == if IsFacetBody(inner) then Some(FilteredBody(inner)) else None
  {
    if inner == [] || inner[0] != Ident("facet") {
      return None;
    }
    if |inner| < 2 || !inner[1].Group? || inner[1].delimiter != Parenthesis {
      return None;
    }
    var content := StripContent(inner[1].stream);
    r := Some([inner[0], Group(Parenthesis, content)]);
  }

  /**
    The result is position by position the input with the facet attributes
    filtered: no attribute is dropped, although an emptied one becomes `#[facet()]`.
   */
  method StripDeriveAttrs(tokens: TokenStream) returns (result: TokenStream)
    ensures Stripped(tokens, result)
  {
    result := [];
    var i := 0;
    while i < |tokens|
      invariant i <= |tokens| && |result| == i
      invariant forall j :: 0 <= j < i ==>
                  result[j] == if AttrAt(tokens, j) then FilteredGroup(tokens[j]) else tokens[j]
      invariant 0 < i < |tokens| ==> !AttrAt(tokens, i)
    {
      if tokens[i] == Punct('#') && i + 1 < |tokens| && tokens[i + 1].Group? && tokens[i + 1].delimiter == Bracket {
        var filtered := StripFacetAttr(tokens[i + 1].stream);
        if filtered.Some? {
          result := result + [tokens[i], Group(Bracket, filtered.value)];
          i := i + 2;
          continue;
        }
      }
      result := result + [tokens[i]];
      i := i + 1;
    }
  }

  /** Stripping twice is stripping once. */
  lemma StripIdempotent(tokens: TokenStream, once: TokenStream, twice: TokenStream)
    requires Stripped(tokens, once) && Stripped(once, twice)
    ensures twice == once
  {
    forall i | 0 <= i < |tokens| ensures twice[i] == once[i] {
      if i > 0 { assert once[i - 1] == Punct('#') <==> tokens[i - 1] == Punct('#'); }
      if AttrAt(tokens, i) {
        StripContentTwice(tokens[i].stream[1].stream);
      }
    }
  }

  /** No facet attribute of the result has an item that starts with `derive`. */
  lemma StripLeavesNoDerive(tokens: TokenStream, result: TokenStream, i: nat)
    requires Stripped(tokens, result) && i < |result| && AttrAt(result, i)
    ensures forall item :: item in NonEmpty(Segments(result[i].stream[1].stream)) ==> !IsPluginItem(item)
  {
    assert result[i - 1] == Punct('#') <==> tokens[i - 1] == Punct('#');
    var content := tokens[i].stream[1].stream;
    StrippedItems(content);
    WithoutDeriveHasNone(NonEmpty(Segments(content)));
  }

  lemma {:induction false} WithoutDeriveHasNone(items: seq<TokenStream>)
    ensures forall item :: item in WithoutDerive(items) ==> !IsPluginItem(item)
  {
    if items != [] { WithoutDeriveHasNone(items[..|items| - 1]); }
  }

  /** The stretches between commas, with the commas put back, are the content. */
  lemma {:induction false} SegmentsRebuild(content: TokenStream)
    ensures JoinItems(Segments(content)) == content
    decreases |content|
  {
    if content == [] {
      assert Segments(content) == [[]];
    } else {
      var n := |content| - 1;
      SegmentsRebuild(content[..n]);
      assert content == content[..n] + [content[n]];
      JoinGrows(Segments(content[..n]), content[n]);
    }
  }

  lemma JoinLast(items: seq<TokenStream>, last: TokenStream)
    ensures JoinItems(items + [last]) == if items == [] then last else JoinItems(items) + [COMMA] + last
  {
    assert (items + [last])[..|items|] == items;
  }

  lemma JoinGrows(items: seq<TokenStream>, t: TokenTree)
    requires items != []
    ensures JoinItems(items + [[]]) == JoinItems(items) + [COMMA]
    ensures JoinItems(items[..|items| - 1] + [items[|items| - 1] + [t]]) == JoinItems(items) + [t]
  {
    hide JoinItems;
    var before, last := items[..|items| - 1], items[|items| - 1];
    JoinLast(items, []);
    JoinLast(before, last);
    JoinLast(before, last + [t]);
    SplitLast(items);
    Associate(JoinItems(before), [COMMA], last, [t]);
    Associate(JoinItems(items), [COMMA], [], []);
  }

  lemma SplitLast(items: seq<TokenStream>)
    requires items != []
    ensures items == items[..|items| - 1] + [items[|items| - 1]]
  {
  }

  lemma Associate(a: TokenStream, b: TokenStream, c: TokenStream, d: TokenStream)
    ensures a + b + (c + d) == a + b + c + d && a + b + [] == a + b
  {
  }

  // ---------------------------------------------------------------- what is left behind

  lemma {:induction false} FilterEmpty(items: seq<TokenStream>)
    ensures Filter(items) == [] <==> forall i :: 0 <= i < |items| ==> !Keeps(items[i])
  {
    if items != [] {
      var n := |items| - 1;
      FilterEmpty(items[..n]);
      assert Keeps(items[n]) ==> Filter(items) != [];
      if Filter(items[..n]) == [] {
        forall i | 0 <= i < n ensures !Keeps(items[i]) {
          assert !Keeps(items[..n][i]);
        }
      } else {
        var k :| 0 <= k < n && Keeps(items[..n][k]);
        assert Keeps(items[k]);
      }
    }
  }

  lemma JoinEmpty(items: seq<TokenStream>)
    requires AllKept(items)
    ensures JoinItems(items) == [] <==> items == []
  {
    if items != [] {
      assert items[|items| - 1] != [];
    }
  }

  /** The content is emptied exactly when no stretch between commas is kept. */
  lemma ContentEmptied(content: TokenStream)
    ensures JoinItems(Filter(Segments(content))) == [] <==>
            forall i :: 0 <= i < |Segments(content)| ==> !Keeps(Segments(content)[i])
  {
    SegmentsCommaFree(content);
    FilterKept(Segments(content));
    JoinEmpty(Filter(Segments(content)));
    FilterEmpty(Segments(content));
  }

  const EMPTIED: TokenTree := Group(Bracket, [Ident("facet"), Group(Parenthesis, [])])

  /**
    An attribute is left as `#[facet()]` exactly when each of its items is empty or
    starts with `derive`; the documentation says that it is removed.
   */
  lemma EmptiedExactly(tokens: TokenStream, result: TokenStream, i: nat)
    requires Stripped(tokens, result) && i < |tokens| && AttrAt(tokens, i)
    ensures var items := Segments(tokens[i].stream[1].stream);
            result[i] == EMPTIED <==> forall k :: 0 <= k < |items| ==> !Keeps(items[k])
  {
    ContentEmptied(tokens[i].stream[1].stream);
  }

  /** What stands after the parenthesised group is lost: exactly the attributes longer than two tokens get shorter. */
  lemma TrailingLost(tokens: TokenStream, result: TokenStream, i: nat)
    requires Stripped(tokens, result) && i < |tokens| && AttrAt(tokens, i)
    ensures |result[i].stream| < |tokens[i].stream| <==> |tokens[i].stream| > 2
    ensures result[i] == FilteredGroup(Group(Bracket, tokens[i].stream[..2]))
  {
  }

  /** `#[facet(derive(X))]` becomes `#[facet()]`. */
  lemma DeriveLeavesEmptyAttribute(result: TokenStream)
    requires Stripped([Punct('#'), Group(Bracket, [Ident("facet"),
               Group(Parenthesis, [Ident("derive"), Group(Parenthesis, [Ident("X")])])])], result)
    ensures result == [Punct('#'), EMPTIED]
  {
    hide Segments, Filter, JoinItems, Keeps, FilteredGroup;
    var content := [Ident("derive"), Group(Parenthesis, [Ident("X")])];
    var tokens := [Punct('#'), Group(Bracket, [Ident("facet"), Group(Parenthesis, content)])];
    OneDerive(content);
    EmptiedExactly(tokens, result, 1);
    assert !AttrAt(tokens, 0);
    assert result == [result[0], result[1]];
  }

  lemma OneDerive(content: TokenStream)
    requires content == [Ident("derive"), Group(Parenthesis, [Ident("X")])]
    ensures Segments(content) == [content] && !Keeps(content)
  {
    SegmentsOne(content);
  }
}
