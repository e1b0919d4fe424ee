/**
  Case conversion of names.  Words are cut at separators and at case boundaries;
  the conversions are related by when one undoes another.  Case is ASCII case.
 */
module Rename {
  import opened Wrappers
  import opened Tokens

  predicate IsUpper(c: char) { 'A' <= c <= 'Z' }
  predicate IsLower(c: char) { 'a' <= c <= 'z' }
  predicate IsLetter(c: char) { IsUpper(c) || IsLower(c) }
  predicate IsDigit(c: char) { '0' <= c <= '9' }
  predicate IsSeparator(c: char) { c == '_' || c == '-' || IsWhitespace(c) }

  function LowerChar(c: char): char {
    if IsUpper(c) then (c as int - 'A' as int + 'a' as int) as char else c
  }

  function UpperChar(c: char): char {
    if IsLower(c) then (c as int - 'a' as int + 'A' as int) as char else c
  }

  function Lower(s: string): (r: string)
    ensures |r| == |s|
  {
    seq(|s|, i requires 0 <= i < |s| => LowerChar(s[i]))
  }

  function Upper(s: string): (r: string)
    ensures |r| == |s|
  {
    seq(|s|, i requires 0 <= i < |s| => UpperChar(s[i]))
  }

  // ---------------------------------------------------------------- splitting

  /** `c` starts a new word after `prev`: foo|Bar, foo1|Bar, and the last capital of HTTP|Server. */
  predicate CaseBoundary(prev: char, c: char, next: Option<char>) {
    IsUpper(c) && (IsLower(prev) || IsDigit(prev) || (IsUpper(prev) && next.Some? && IsLower(next.value)))
  }

  function Head(s: string): Option<char> {
    if s == "" then None else Some(s[0])
  }

  function Flush(word: string): seq<string> {
    if word == "" then [] else [word]
  }

  /** The words of `rest` when `word` has been collected so far. */
  function Split(word: string, rest: string): seq<string>
    decreases |rest|
  {
    if rest == "" then Flush(word)
    else if IsSeparator(rest[0]) then Flush(word) + Split("", rest[1..])
    else if word != "" && CaseBoundary(word[|word| - 1], rest[0], Head(rest[1..]))
    then [word] + Split([rest[0]], rest[1..])
    else Split(word + [rest[0]], rest[1..])
  }

  function Words(s: string): seq<string> {
    Split("", s)
  }

  method SplitIntoWords(input: string) returns (words: seq<string>)
    ensures words == Words(input)
  {
    hide Split, IsSeparator, IsLower, IsUpper, IsDigit;
    words := [];
    SplitEnd("");
    if input == "" {
      return;
    }
    var current := "";
    assert input[0..] == input;
    for i := 0 to |input|
      invariant words + Split(current, input[i..]) == Words(input)
    {
      var c, rest := input[i], input[i + 1..];
      var next := Head(rest);
      ghost var before, pushed, kept := words, Pushed(current, c, next), Kept(current, c, next);
      assert input[i..] == [c] + rest;
      SplitGoes(current, c, rest);
      assert "" + [c] == [c];
      if IsSeparator(c) {
        if current != "" {
          words := words + [current];
          current := "";
        }
      } else if IsUpper(c) {
        if current != "" {
          var prev := current[|current| - 1];
          if IsLower(prev) || IsDigit(prev) || (IsUpper(prev) && next.Some? && IsLower(next.value)) {
            words := words + [current];
            current := "";
          }
        }
        current := current + [c];
      } else {
        current := current + [c];
      }
      assert words == before + pushed && current == kept;
      assert before + (pushed + Split(kept, rest)) == before + pushed + Split(kept, rest);
    }
    assert input[|input|..] == "";
    SplitEnd(current);
    if current != "" {
      words := words + [current];
    }
  }

  /** The word that `c` finishes, if it does. */
  function Pushed(current: string, c: char, next: Option<char>): seq<string> {
    if IsSeparator(c) then Flush(current)
    else if current != "" && CaseBoundary(current[|current| - 1], c, next) then [current]
    else []
  }

  /** What has been collected after `c`. */
  function Kept(current: string, c: char, next: Option<char>): string {
    if IsSeparator(c) then ""
    else if current != "" && CaseBoundary(current[|current| - 1], c, next) then [c]
    else current + [c]
  }

  lemma SplitGoes(current: string, c: char, rest: string)
    ensures Split(current, [c] + rest) == Pushed(current, c, Head(rest)) + Split(Kept(current, c, Head(rest)), rest)
  {
    hide CaseBoundary, IsSeparator, Split;
    SplitStep(current, c, rest);
  }

  lemma SplitEnd(word: string)
    ensures Split(word, "") == Flush(word)
  {
  }

  // ---------------------------------------------------------------- where the cuts are

  /** A case boundary at position `i` of the input. */
  predicate CutAt(s: string, i: nat)
    requires i < |s|
  {
    && i > 0 && !IsSeparator(s[i - 1]) && !IsSeparator(s[i]) && IsUpper(s[i])
    && (IsLower(s[i - 1]) || IsDigit(s[i - 1]) || (IsUpper(s[i - 1]) && i + 1 < |s| && IsLower(s[i + 1])))
  }

  /** The input from `i` on, with an underscore put in at every case boundary. */
  function Marked(s: string, i: nat): string
    requires i <= |s|
    decreases |s| - i
  {
    if i == |s| then "" else (if CutAt(s, i) then "_" else "") + [s[i]] + Marked(s, i + 1)
  }

  /** Plain splitting at separators. */
  function Fields(word: string, rest: string): seq<string>
    decreases |rest|
  {
    if rest == "" then Flush(word)
    else if IsSeparator(rest[0]) then Flush(word) + Fields("", rest[1..])
    else Fields(word + [rest[0]], rest[1..])
  }

  /** Words are cut exactly at the separators and at the case boundaries. */
  lemma WordsAreCutAtBoundaries(s: string)
    ensures Words(s) == Fields("", Marked(s, 0))
  {
    assert s[0..] == s;
    SplitMarked(s, 0, "");
  }

  lemma {:induction false} SplitMarked(s: string, i: nat, word: string)
    requires i <= |s|
    requires word == "" <==> i == 0 || IsSeparator(s[i - 1])
    requires word != "" ==> word[|word| - 1] == s[i - 1]
    ensures Split(word, s[i..]) == Fields(word, Marked(s, i))
    decreases |s| - i
  {
    hide CaseBoundary, IsSeparator, Marked, Fields, Split, CutAt;
    if i < |s| {
      var c, tail, rest := s[i], s[i + 1..], Marked(s, i + 1);
      assert s[i..] == [c] + tail;
      SplitStep(word, c, tail);
      MarkedAt(s, i);
      CutIsBoundary(s, i);
      FieldsAt(word, c, rest);
      if IsSeparator(c) {
        SplitMarked(s, i + 1, "");
        assert "" + ([c] + rest) == [c] + rest;
      } else if CutAt(s, i) {
        UnderscoreSeparates();
        SplitMarked(s, i + 1, [c]);
        FieldsAt(word, '_', [c] + rest);
        FieldsAt("", c, rest);
        assert "_" + ([c] + rest) == ['_'] + ([c] + rest) && "" + [c] == [c];
      } else {
        SplitMarked(s, i + 1, word + [c]);
        assert "" + ([c] + rest) == [c] + rest;
      }
    } else {
      assert s[i..] == "";
      FieldsEnd(s, word);
      SplitEnd(word);
    }
  }

  lemma CutIsBoundary(s: string, i: nat)
    requires i < |s|
    ensures CutAt(s, i) <==>
              i > 0 && !IsSeparator(s[i - 1]) && !IsSeparator(s[i]) && CaseBoundary(s[i - 1], s[i], Head(s[i + 1..]))
  {
    hide IsSeparator;
  }

  lemma UnderscoreSeparates()
    ensures IsSeparator('_')
  {
  }

  lemma FieldsEnd(s: string, word: string)
    ensures Fields(word, Marked(s, |s|)) == Flush(word)
  {
  }

  lemma MarkedAt(s: string, i: nat)
    requires i < |s|
    ensures Marked(s, i) == (if CutAt(s, i) then "_" else "") + ([s[i]] + Marked(s, i + 1))
  {
    hide CutAt;
  }

  lemma FieldsAt(word: string, c: char, rest: string)
    ensures IsSeparator(c) ==> Fields(word, [c] + rest) == Flush(word) + Fields("", rest)
    ensures !IsSeparator(c) ==> Fields(word, [c] + rest) == Fields(word + [c], rest)
  {
    assert ([c] + rest)[1..] == rest;
  }

  function WithoutSeparators(s: string): string {
    if s == "" then "" else (if IsSeparator(s[0]) then "" else [s[0]]) + WithoutSeparators(s[1..])
  }

  function Concat(words: seq<string>): string {
    if words == [] then "" else words[0] + Concat(words[1..])
  }

  predicate NoSeparator(s: string) {
    forall i :: 0 <= i < |s| ==> !IsSeparator(s[i])
  }

  predicate Plain(word: string) {
    word != "" && NoSeparator(word)
  }

  predicate AllPlain(words: seq<string>) {
    forall i :: 0 <= i < |words| ==> Plain(words[i])
  }

  /** Nothing but separators is lost, and words are non-empty and free of separators. */
  lemma WordsKeepText(s: string)
    ensures Concat(Words(s)) == WithoutSeparators(s) && AllPlain(Words(s))
  {
    SplitKeepsText("", s);
    assert "" + WithoutSeparators(s) == WithoutSeparators(s);
  }

  lemma {:induction false} SplitKeepsText(word: string, rest: string)
    requires word == "" || Plain(word)
    ensures Concat(Split(word, rest)) == word + WithoutSeparators(rest)
    ensures AllPlain(Split(word, rest))
    decreases |rest|
  {
    ConcatFlush(word);
    if rest != "" {
      var tail := rest[1..];
      if IsSeparator(rest[0]) {
        SplitKeepsText("", tail);
        ConcatAppend(Flush(word), Split("", tail));
        assert word + ("" + WithoutSeparators(tail)) == word + WithoutSeparators(tail);
      } else if word != "" && CaseBoundary(word[|word| - 1], rest[0], Head(tail)) {
        SplitKeepsText([rest[0]], tail);
        ConcatAppend([word], Split([rest[0]], tail));
      } else {
        SplitKeepsText(word + [rest[0]], tail);
        assert word + [rest[0]] + WithoutSeparators(tail) == word + ([rest[0]] + WithoutSeparators(tail));
      }
    }
  }

  lemma ConcatFlush(word: string)
    ensures Concat(Flush(word)) == word && (word != "" ==> Concat([word]) == word)
  {
    if word != "" { assert [word][1..] == []; }
  }

  lemma {:induction false} ConcatAppend(a: seq<string>, b: seq<string>)
    ensures Concat(a + b) == Concat(a) + Concat(b)
    decreases |a|
  {
    if a == [] {
      assert a + b == b;
    } else {
      assert (a + b)[0] == a[0] && (a + b)[1..] == a[1..] + b;
      ConcatAppend(a[1..], b);
    }
  }

  // ---------------------------------------------------------------- the conversions

  datatype RenameRule =
    | PascalCase | CamelCase | SnakeCase | ScreamingSnakeCase
    | KebabCase | ScreamingKebabCase | Lowercase | Uppercase

  function Each(words: seq<string>, upper: bool): (r: seq<string>)
    ensures |r| == |words|
  {
    seq(|words|, i requires 0 <= i < |words| => if upper then Upper(words[i]) else Lower(words[i]))
  }

  /** First letter up, the others down. */
  function Capital(word: string): string {
    if word == "" then "" else [UpperChar(word[0])] + Lower(word[1..])
  }

  function Capitals(words: seq<string>): (r: seq<string>)
    ensures |r| == |words|
  {
    seq(|words|, i requires 0 <= i < |words| => Capital(words[i]))
  }

  function ToPascalCase(s: string): string { Concat(Capitals(Words(s))) }

  function ToCamelCase(s: string): string {
    var pascal := ToPascalCase(s);
    if pascal == "" then "" else [LowerChar(pascal[0])] + pascal[1..]
  }

  function ToSnakeCase(s: string): string { Join(Each(Words(s), false), "_") }

  function ToKebabCase(s: string): string { Join(Each(Words(s), false), "-") }

  function Apply(rule: RenameRule, s: string): string {
    match rule
    case PascalCase => ToPascalCase(s)
    case CamelCase => ToCamelCase(s)
    case SnakeCase => ToSnakeCase(s)
    case ScreamingSnakeCase => Join(Each(Words(s), true), "_")
    case KebabCase => ToKebabCase(s)
    case ScreamingKebabCase => Join(Each(Words(s), true), "-")
    case Lowercase => Join(Each(Words(s), false), "")
    case Uppercase => Join(Each(Words(s), true), "")
  }

  // ---------------------------------------------------------------- lower-case words split back

  predicate NoUpper(s: string) {
    forall i :: 0 <= i < |s| ==> !IsUpper(s[i])
  }

  predicate AllNoUpper(words: seq<string>) {
    forall i :: 0 <= i < |words| ==> NoUpper(words[i])
  }

  lemma LowerFacts(s: string)
    ensures NoUpper(Lower(s)) && Lower(Lower(s)) == Lower(s)
    ensures Plain(s) ==> Plain(Lower(s))
    ensures NoUpper(s) ==> Lower(s) == s
  {
  }

  /** Characters without case boundaries are collected one after the other. */
  lemma {:induction false} Collect(word: string, plain: string, rest: string)
    requires NoUpper(plain) && NoSeparator(plain)
    ensures Split(word, plain + rest) == Split(word + plain, rest)
    decreases |plain|
  {
    if plain == "" {
      assert plain + rest == rest && word + plain == word;
    } else {
      assert (plain + rest)[0] == plain[0] && (plain + rest)[1..] == plain[1..] + rest;
      Collect(word + [plain[0]], plain[1..], rest);
      assert word + [plain[0]] + plain[1..] == word + plain;
    }
  }

  /** Lower-case words joined by a separator are split into the same words. */
  lemma {:induction false} SplitOfJoin(words: seq<string>, sep: char)
    requires AllPlain(words) && AllNoUpper(words) && IsSeparator(sep)
    ensures Words(Join(words, [sep])) == words
    decreases |words|
  {
    if words != [] {
      var w := words[0];
      assert "" + w == w;
      if |words| == 1 {
        Collect("", w, "");
        assert w + "" == w && words == [w];
      } else {
        var rest := Join(words[1..], [sep]);
        SplitOfJoin(words[1..], sep);
        Collect("", w, [sep] + rest);
        assert w + ([sep] + rest) == w + [sep] + rest;
        assert ([sep] + rest)[1..] == rest;
        assert words == [w] + words[1..];
      }
    }
  }

  lemma LowerWords(s: string)
    ensures var words := Each(Words(s), false);
            AllPlain(words) && AllNoUpper(words) && Each(words, false) == words
  {
    WordsKeepText(s);
    var words := Each(Words(s), false);
    forall i | 0 <= i < |words|
      ensures Plain(words[i]) && NoUpper(words[i]) && Lower(words[i]) == words[i]
    {
      LowerFacts(Words(s)[i]);
    }
  }

  /** Snake and kebab case absorb each other: the last one applied wins. */
  lemma SnakeAndKebab(s: string)
    ensures ToSnakeCase(ToSnakeCase(s)) == ToSnakeCase(s)
    ensures ToSnakeCase(ToKebabCase(s)) == ToSnakeCase(s)
    ensures ToKebabCase(ToSnakeCase(s)) == ToKebabCase(s)
    ensures ToKebabCase(ToKebabCase(s)) == ToKebabCase(s)
  {
    var words := Each(Words(s), false);
    LowerWords(s);
    SplitOfJoin(words, '_');
    SplitOfJoin(words, '-');
  }

  // ---------------------------------------------------------------- words run together

  /** Is there a case boundary between a word that ends in `last` and the word `b` run onto it? */
  predicate CutBefore(last: char, b: string)
    requires b != ""
  {
    CaseBoundary(last, b[0], Head(b[1..]))
  }

  /** Words whose tails have no capitals, and whose heads are not small letters. */
  predicate Cased(words: seq<string>) {
    forall i :: 0 <= i < |words| ==> Plain(words[i]) && NoUpper(words[i][1..]) && !IsLower(words[i][0])
  }

  /** The words found when `words` are run onto `word`: those with no boundary before them are absorbed. */
  function Merge(word: string, words: seq<string>): seq<string>
    requires word != "" && forall i :: 0 <= i < |words| ==> words[i] != ""
    decreases |words|
  {
    if words == [] then [word]
    else if CutBefore(word[|word| - 1], words[0]) then [word] + Merge(words[0], words[1..])
    else Merge(word + words[0], words[1..])
  }

  /** There is a boundary before each of `words`. */
  predicate AllCut(last: char, words: seq<string>)
    requires forall i :: 0 <= i < |words| ==> words[i] != ""
    decreases |words|
  {
    words == [] || (CutBefore(last, words[0]) && AllCut(words[0][|words[0]| - 1], words[1..]))
  }

  /** Only a small letter next makes a difference. */
  lemma BoundaryNext(prev: char, c: char, next: Option<char>)
    requires next.None? || !IsLower(next.value)
    ensures CaseBoundary(prev, c, next) == CaseBoundary(prev, c, None)
  {
  }

  lemma SplitStep(word: string, c: char, rest: string)
    ensures Split(word, [c] + rest) ==
            if IsSeparator(c) then Flush(word) + Split("", rest)
            else if word != "" && CaseBoundary(word[|word| - 1], c, Head(rest)) then [word] + Split([c], rest)
            else Split(word + [c], rest)
  {
    hide CaseBoundary, IsSeparator;
    assert ([c] + rest)[0] == c && ([c] + rest)[1..] == rest;
  }

  /** Running one more word, `c` and then `tail`, onto `word`. */
  lemma SplitOnto(word: string, c: char, tail: string, after: string)
    requires word != "" && !IsSeparator(c) && NoSeparator(tail) && NoUpper(tail)
    requires tail == "" ==> Head(after).None? || !IsLower(Head(after).value)
    ensures Split(word, [c] + (tail + after)) ==
            if CaseBoundary(word[|word| - 1], c, Head(tail)) then [word] + Split([c] + tail, after)
            else Split(word + [c] + tail, after)
  {
    hide Split, CaseBoundary, NoSeparator, NoUpper, IsSeparator, IsLower;
    SplitStep(word, c, tail + after);
    Collect([c], tail, after);
    Collect(word + [c], tail, after);
    if tail == "" {
      assert tail + after == after;
      BoundaryNext(word[|word| - 1], c, Head(after));
    } else {
      assert Head(tail + after) == Head(tail);
    }
  }

  lemma {:induction false} SplitMerges(word: string, words: seq<string>)
    requires word != "" && Cased(words)
    ensures Split(word, Concat(words)) == Merge(word, words)
    decreases |words|
  {
    hide CaseBoundary, Plain, NoUpper, NoSeparator, IsLower, IsSeparator;
    if words != [] {
      var w, after := words[0], Concat(words[1..]);
      HeadOfConcat(words[1..]);
      hide Split;
      CasedHead(words);
      SplitOnto(word, w[0], w[1..], after);
      assert w == [w[0]] + w[1..] && w + after == [w[0]] + (w[1..] + after);
      assert word + w == word + [w[0]] + w[1..];
      SplitMerges(w, words[1..]);
      SplitMerges(word + w, words[1..]);
    }
  }

  lemma PlainNonEmpty(w: string)
    requires Plain(w)
    ensures w != ""
  {
  }

  lemma CasedHead(words: seq<string>)
    requires Cased(words) && words != []
    ensures words[0] != "" && !IsSeparator(words[0][0]) && NoSeparator(words[0][1..]) && NoUpper(words[0][1..])
  {
  }

  lemma HeadOfConcat(words: seq<string>)
    requires Cased(words)
    ensures Concat(words) != "" ==> !IsLower(Concat(words)[0])
  {
    hide IsLower, IsSeparator, IsUpper;
    if words != [] { assert Concat(words)[0] == words[0][0]; }
  }

  lemma {:induction false} MergeCounts(word: string, words: seq<string>)
    requires word != "" && forall i :: 0 <= i < |words| ==> words[i] != ""
    ensures AllCut(word[|word| - 1], words) ==> Merge(word, words) == [word] + words
    ensures !AllCut(word[|word| - 1], words) ==> |Merge(word, words)| < 1 + |words|
    ensures |Merge(word, words)| <= 1 + |words|
    decreases |words|
  {
    if words != [] {
      MergeCounts(words[0], words[1..]);
      MergeCounts(word + words[0], words[1..]);
      assert words == [words[0]] + words[1..];
    }
  }

  lemma {:induction false} MergePlain(word: string, words: seq<string>)
    requires Plain(word) && AllPlain(words)
    ensures AllPlain(Merge(word, words))
    decreases |words|
  {
    if words != [] {
      MergePlain(words[0], words[1..]);
      MergePlain(word + words[0], words[1..]);
    }
  }

  /** A first word in any case, then words with capital heads. */
  lemma WordsMerge(first: string, words: seq<string>)
    requires Plain(first) && NoUpper(first[1..]) && Cased(words)
    ensures Words(Concat([first] + words)) == Merge(first, words)
  {
    assert ([first] + words)[1..] == words;
    var c, tail := first[0], first[1..];
    var rest := tail + Concat(words);
    assert (first + Concat(words))[0] == c && (first + Concat(words))[1..] == rest;
    assert "" + [c] == [c] && [c] + tail == first;
    Collect([c], tail, Concat(words));
    SplitMerges(first, words);
  }

  function Count(s: string, c: char): nat {
    if s == "" then 0 else (if s[0] == c then 1 else 0) + Count(s[1..], c)
  }

  lemma {:induction false} CountAppend(a: string, b: string, c: char)
    ensures Count(a + b, c) == Count(a, c) + Count(b, c)
    decreases |a|
  {
    if a == "" {
      assert a + b == b;
    } else {
      assert (a + b)[0] == a[0] && (a + b)[1..] == a[1..] + b;
      CountAppend(a[1..], b, c);
    }
  }

  lemma {:induction false} CountNone(s: string, c: char)
    requires forall i :: 0 <= i < |s| ==> s[i] != c
    ensures Count(s, c) == 0
  {
    if s != "" { CountNone(s[1..], c); }
  }

  /** A joined name has one separator fewer than words. */
  lemma {:induction false} CountSeparators(words: seq<string>)
    requires AllPlain(words) && words != []
    ensures Count(Join(words, "_"), '_') == |words| - 1
    decreases |words|
  {
    CountNone(words[0], '_');
    if |words| > 1 {
      CountSeparators(words[1..]);
      CountAppend(words[0] + "_", Join(words[1..], "_"), '_');
      CountAppend(words[0], "_", '_');
    }
  }

  /** Lower-casing and joining gives back the original snake case just when no word was absorbed. */
  lemma SnakeOfRun(s: string, first: string, rest: seq<string>)
    requires Plain(first) && NoUpper(first[1..]) && Cased(rest)
    requires Each([first] + rest, false) == Each(Words(s), false)
    ensures ToSnakeCase(Concat([first] + rest)) == ToSnakeCase(s) <==> AllCut(first[|first| - 1], rest)
  {
    var found := Merge(first, rest);
    WordsMerge(first, rest);
    MergeCounts(first, rest);
    MergePlain(first, rest);
    WordsKeepText(s);
    assert |Each([first] + rest, false)| == 1 + |rest|;
    EachPlain(found);
    EachPlain(Words(s));
    if !AllCut(first[|first| - 1], rest) {
      if found != [] { CountSeparators(Each(found, false)); }
      CountSeparators(Each(Words(s), false));
      MergeSome(first, rest);
    }
  }

  lemma EachPlain(words: seq<string>)
    requires AllPlain(words)
    ensures AllPlain(Each(words, false))
  {
    forall i | 0 <= i < |words| ensures Plain(Each(words, false)[i]) { LowerFacts(words[i]); }
  }

  lemma {:induction false} MergeSome(word: string, words: seq<string>)
    requires word != "" && forall i :: 0 <= i < |words| ==> words[i] != ""
    ensures Merge(word, words) != []
    decreases |words|
  {
    if words != [] { MergeSome(word + words[0], words[1..]); }
  }

  // ---------------------------------------------------------------- undoing Pascal and camel case

  /** The capitalised words `a` and `b`, run together, are cut apart again. */
  predicate Separable(a: string, b: string)
    requires a != "" && b != ""
  {
    IsLetter(b[0]) &&
    if |a| == 1 then IsDigit(a[0]) || (IsLetter(a[0]) && |b| >= 2 && IsLetter(b[1]))
    else IsLetter(a[|a| - 1]) || IsDigit(a[|a| - 1])
  }

  /** The small first word `a` and the capitalised word `b`, run together, are cut apart again. */
  predicate SeparableFirst(a: string, b: string)
    requires a != "" && b != ""
  {
    IsLetter(b[0]) && (IsLetter(a[|a| - 1]) || IsDigit(a[|a| - 1]))
  }

  lemma CapitalFacts(word: string)
    requires Plain(word)
    ensures var c := Capital(word);
            && Plain(c) && NoUpper(c[1..]) && !IsLower(c[0]) && |c| == |word|
            && Lower(c) == Lower(word)
  {
    var c := Capital(word);
    assert c[1..] == Lower(word[1..]);
    LowerFacts(word[1..]);
    forall i | 0 <= i < |c| ensures LowerChar(c[i]) == LowerChar(word[i]) && !IsSeparator(c[i]) {
      if i > 0 { assert c[i] == LowerChar(word[i]); }
    }
  }

  lemma CapitalEnds(a: string)
    requires a != ""
    ensures var c, x := Capital(a), a[|a| - 1];
            && |c| == |a| && c[0] == UpperChar(a[0])
            && c[|c| - 1] == (if |a| == 1 then UpperChar(x) else LowerChar(x))
            && Head(c[1..]) == (if |a| == 1 then None else Some(LowerChar(a[1])))
  {
  }

  lemma CutIsSeparable(a: string, b: string)
    requires a != "" && b != ""
    ensures Capital(a) != "" && Capital(b) != ""
    ensures CutBefore(Capital(a)[|Capital(a)| - 1], Capital(b)) <==> Separable(a, b)
    ensures CutBefore(LowerChar(Capital(a)[|Capital(a)| - 1]), Capital(b)) <==> SeparableFirst(a, b)
  {
    hide Capital, UpperChar, LowerChar, IsUpper, IsLower, IsDigit;
    CapitalEnds(a);
    CapitalEnds(b);
    CharCase(a[|a| - 1]);
    CharCase(b[0]);
    if |b| > 1 { CharCase(b[1]); }
  }

  lemma CharCase(c: char)
    ensures IsUpper(UpperChar(c)) <==> IsLetter(c)
    ensures IsLower(LowerChar(c)) <==> IsLetter(c)
    ensures !IsUpper(LowerChar(c)) && !IsLower(UpperChar(c))
    ensures IsDigit(UpperChar(c)) == IsDigit(LowerChar(c)) == IsDigit(c)
    ensures LowerChar(UpperChar(c)) == LowerChar(LowerChar(c)) == LowerChar(c)
    ensures IsDigit(c) ==> !IsLetter(c)
  {
  }

  /** Neighbouring words, all capitalised and run together, are cut apart again. */
  predicate SeparableWords(words: seq<string>)
    requires AllPlain(words)
  {
    |words| <= 1 || (Separable(words[0], words[1]) && SeparableWords(words[1..]))
  }

  lemma {:induction false} AllCutIsSeparable(a: string, words: seq<string>)
    requires Plain(a) && AllPlain(words)
    ensures Capital(a) != "" && Cased(Capitals(words)) && AllPlain([a] + words)
    ensures AllCut(Capital(a)[|Capital(a)| - 1], Capitals(words)) <==> SeparableWords([a] + words)
    decreases |words|
  {
    hide CutBefore, Separable, Capital, Plain;
    assert a != "" by { PlainNonEmpty(a); }
    CapitalsCased(words);
    AllPlainCons(a, words);
    if words == [] {
      CapitalNonEmpty(a);
    } else {
      var w, rest := words[0], words[1..];
      assert w != "" by { PlainNonEmpty(w); }
      CutIsSeparable(a, w);
      AllCutIsSeparable(w, rest);
      assert Capitals(words)[1..] == Capitals(rest);
      assert [w] + rest == words && ([a] + words)[1..] == words;
    }
  }

  lemma CapitalNonEmpty(a: string)
    requires a != ""
    ensures Capital(a) != ""
  {
  }

  lemma AllPlainCons(a: string, words: seq<string>)
    requires Plain(a) && AllPlain(words)
    ensures AllPlain([a] + words)
  {
  }

  lemma CapitalsCased(words: seq<string>)
    requires AllPlain(words)
    ensures Cased(Capitals(words)) && Each(Capitals(words), false) == Each(words, false)
  {
    forall i | 0 <= i < |words| { CapitalFacts(words[i]); }
  }

  /** Snake case undoes Pascal case exactly when neighbouring words can be told apart. */
  lemma SnakeUndoesPascal(s: string)
    ensures AllPlain(Words(s))
    ensures ToSnakeCase(ToPascalCase(s)) == ToSnakeCase(s) <==> SeparableWords(Words(s))
  {
    hide Words, Capital, SeparableWords, AllCut, Plain, NoUpper, Cased, ToSnakeCase;
    var words := Words(s);
    WordsKeepText(s);
    if words == [] {
      NothingToUndo(s);
    } else {
      var a, rest := words[0], words[1..];
      assert words == [a] + rest;
      CapitalsCased(rest);
      CapitalsCased(words);
      CapitalFacts(a);
      assert Capitals(words) == [Capital(a)] + Capitals(rest);
      SnakeOfRun(s, Capital(a), Capitals(rest));
      AllCutIsSeparable(a, rest);
    }
  }

  lemma NothingToUndo(s: string)
    requires Words(s) == []
    ensures ToPascalCase(s) == "" && ToCamelCase(s) == "" && ToSnakeCase(s) == "" && ToSnakeCase("") == ""
    ensures SeparableWords(Words(s))
  {
  }

  /** As for Pascal case, except that the first word is not capitalised. */
  predicate SeparableAfterFirst(words: seq<string>)
    requires AllPlain(words)
  {
    |words| <= 1 || (SeparableFirst(words[0], words[1]) && SeparableWords(words[1..]))
  }

  /** Snake case undoes camel case exactly when neighbouring words can be told apart. */
  lemma SnakeUndoesCamel(s: string)
    ensures AllPlain(Words(s))
    ensures ToSnakeCase(ToCamelCase(s)) == ToSnakeCase(s) <==> SeparableAfterFirst(Words(s))
  {
    hide Words, Capital, SeparableWords, SeparableFirst, AllCut, Plain, NoUpper, Cased, ToSnakeCase;
    var words := Words(s);
    WordsKeepText(s);
    if words == [] {
      NothingToUndo(s);
    } else {
      var a, rest := words[0], words[1..];
      assert words == [a] + rest;
      var small := Small(a);
      CapitalsCased(rest);
      CamelRun(s, a, rest);
      SmallFacts(a);
      EachCons(small, Capitals(rest));
      EachCons(a, rest);
      SnakeOfRun(s, small, Capitals(rest));
      SmallCut(a, rest);
    }
  }

  /** The first word of a camel-case name. */
  function Small(a: string): string {
    var c := Capital(a);
    if c == "" then "" else [LowerChar(c[0])] + c[1..]
  }

  lemma CamelRun(s: string, a: string, rest: seq<string>)
    requires Words(s) == [a] + rest && Plain(a)
    ensures ToCamelCase(s) == Concat([Small(a)] + Capitals(rest))
  {
    hide Words, Capital, Plain, NoUpper, IsLower, Lower, Concat;
    CapitalFacts(a);
    assert Capital(a) != "" by { PlainNonEmpty(Capital(a)); }
    assert Capitals(Words(s)) == [Capital(a)] + Capitals(rest);
    ConcatCons(Capital(a), Capitals(rest));
    ConcatCons(Small(a), Capitals(rest));
    SmallOnto(Capital(a), Concat(Capitals(rest)));
  }

  lemma SmallOnto(word: string, tail: string)
    requires word != ""
    ensures word + tail != ""
    ensures [LowerChar((word + tail)[0])] + (word + tail)[1..] == [LowerChar(word[0])] + word[1..] + tail
  {
    assert (word + tail)[1..] == word[1..] + tail;
  }

  lemma ConcatCons(word: string, words: seq<string>)
    ensures Concat([word] + words) == word + Concat(words)
  {
    assert ([word] + words)[1..] == words;
  }

  lemma SmallCut(a: string, rest: seq<string>)
    requires Plain(a) && AllPlain(rest)
    ensures Small(a) != "" && Cased(Capitals(rest)) && AllPlain([a] + rest)
    ensures AllCut(Small(a)[|Small(a)| - 1], Capitals(rest)) <==> SeparableAfterFirst([a] + rest)
  {
    hide Capital, Plain, NoUpper, SeparableWords, SeparableFirst, CutBefore;
    SmallFacts(a);
    CapitalsCased(rest);
    AllPlainCons(a, rest);
    assert a != "" by { PlainNonEmpty(a); }
    if rest != [] {
      var w := rest[0];
      assert w != "" by { PlainNonEmpty(w); }
      CutIsSeparable(a, w);
      AllCutIsSeparable(w, rest[1..]);
      assert Capitals(rest)[1..] == Capitals(rest[1..]);
      assert [w] + rest[1..] == rest && ([a] + rest)[1..] == rest;
    }
  }

  lemma EachCons(word: string, words: seq<string>)
    ensures Each([word] + words, false) == [Lower(word)] + Each(words, false)
  {
  }

  lemma SmallFacts(a: string)
    requires Plain(a)
    ensures Capital(a) != "" && Small(a) != ""
    ensures Plain(Small(a)) && NoUpper(Small(a)[1..]) && Lower(Small(a)) == Lower(a)
    ensures Small(a)[|Small(a)| - 1] == LowerChar(Capital(a)[|Capital(a)| - 1])
  {
    CapitalFacts(a);
    LowerFacts(Capital(a));
    var c, small := Capital(a), Small(a);
    assert small[1..] == c[1..];
    LowerFixed(c[1..]);
    assert forall i :: 0 < i < |c| ==> c[i] == c[1..][i - 1] && small[i] == c[i];
    assert Lower(c) == small;
  }

  lemma LowerFixed(s: string)
    requires NoUpper(s)
    ensures forall i :: 0 <= i < |s| ==> LowerChar(s[i]) == s[i]
  {
  }

  /** A letter, then at least one more letter or digit, and nothing else. */
  predicate Ordinary(word: string) {
    |word| >= 2 && IsLetter(word[0]) && forall i :: 0 <= i < |word| ==> IsLetter(word[i]) || IsDigit(word[i])
  }

  lemma {:induction false} OrdinaryWords(words: seq<string>)
    requires AllPlain(words) && forall i :: 0 <= i < |words| ==> Ordinary(words[i])
    ensures SeparableWords(words) && SeparableAfterFirst(words)
  {
    if |words| > 1 {
      assert Ordinary(words[0]) && Ordinary(words[1]);
      OrdinaryWords(words[1..]);
    }
  }

  /** For names of ordinary words, snake case undoes both Pascal and camel case. */
  lemma OrdinaryNames(s: string)
    requires forall i :: 0 <= i < |Words(s)| ==> Ordinary(Words(s)[i])
    ensures ToSnakeCase(ToPascalCase(s)) == ToSnakeCase(s)
    ensures ToSnakeCase(ToCamelCase(s)) == ToSnakeCase(s)
  {
    hide Words, Ordinary, ToSnakeCase, ToPascalCase, ToCamelCase;
    SnakeUndoesPascal(s);
    SnakeUndoesCamel(s);
    OrdinaryWords(Words(s));
  }

  // ---------------------------------------------------------------- all rules

  lemma {:induction false} UpperJoin(words: seq<string>, separator: string)
    requires Upper(separator) == separator
    ensures Upper(Join(Each(words, false), separator)) == Join(Each(words, true), separator)
  {
    if words != [] {
      UpperLower(words[0]);
      EachRest(words, false);
      EachRest(words, true);
      if |words| > 1 {
        UpperJoin(words[1..], separator);
        var more := Join(Each(words[1..], false), separator);
        UpperConcat(Lower(words[0]) + separator, more);
        UpperConcat(Lower(words[0]), separator);
      }
    }
  }

  lemma EachRest(words: seq<string>, upper: bool)
    requires words != []
    ensures Each(words, upper)[1..] == Each(words[1..], upper)
  {
  }

  lemma UpperConcat(a: string, b: string)
    ensures Upper(a + b) == Upper(a) + Upper(b)
  {
  }

  lemma LowerConcat(a: string, b: string)
    ensures Lower(a + b) == Lower(a) + Lower(b)
  {
  }

  lemma UpperLower(a: string)
    ensures Upper(Lower(a)) == Upper(a)
  {
  }

  lemma {:induction false} LowerOfConcat(words: seq<string>)
    ensures Join(Each(words, false), "") == Lower(Concat(words))
  {
    if words != [] {
      EachRest(words, false);
      LowerOfConcat(words[1..]);
      LowerConcat(words[0], Concat(words[1..]));
      assert |words| == 1 ==> Concat(words[1..]) == "";
      assert Lower("") == "" && words[0] + "" == words[0];
      assert Lower(words[0]) + "" == Lower(words[0]);
    }
  }

  lemma {:induction false} LowerOfCapitals(words: seq<string>)
    ensures Lower(Concat(Capitals(words))) == Lower(Concat(words))
  {
    if words != [] {
      var w, rest := words[0], words[1..];
      LowerOfCapitals(rest);
      assert Capitals(words)[1..] == Capitals(rest);
      LowerConcat(Capital(w), Concat(Capitals(rest)));
      LowerConcat(w, Concat(rest));
      LowerOfCapital(w);
    }
  }

  lemma LowerOfCapital(w: string)
    ensures Lower(Capital(w)) == Lower(w)
  {
    var c := Capital(w);
    forall i | 0 <= i < |w| ensures |c| == |w| && LowerChar(c[i]) == LowerChar(w[i]) {
      CharCase(w[i]);
      if i > 0 { assert c[i] == LowerChar(w[i]); }
    }
  }

  /**
    Every rule spells the same letters: the screaming rules are the upper case of the
    quiet ones, and lower case, Pascal and camel case keep exactly the characters that
    are not separators, wherever the words are cut.
   */
  lemma RulesKeepLetters(s: string)
    ensures Apply(ScreamingSnakeCase, s) == Upper(Apply(SnakeCase, s))
    ensures Apply(ScreamingKebabCase, s) == Upper(Apply(KebabCase, s))
    ensures Apply(Uppercase, s) == Upper(Apply(Lowercase, s))
    ensures Apply(Lowercase, s) == Lower(WithoutSeparators(s))
    ensures Lower(Apply(PascalCase, s)) == Lower(WithoutSeparators(s))
    ensures Lower(Apply(CamelCase, s)) == Lower(WithoutSeparators(s))
  {
    hide Words, Each, Join, Concat, Capitals, Lower, Upper, WithoutSeparators;
    var words := Words(s);
    FixedSeparators();
    UpperJoin(words, "_");
    UpperJoin(words, "-");
    UpperJoin(words, "");
    WordsKeepText(s);
    LowerOfConcat(words);
    LowerOfCapitals(words);
    LowerOfCamel(s);
  }

  lemma FixedSeparators()
    ensures Upper("_") == "_" && Upper("-") == "-" && Upper("") == ""
  {
  }

  lemma LowerOfCamel(s: string)
    ensures Lower(ToCamelCase(s)) == Lower(ToPascalCase(s))
  {
    hide ToPascalCase;
    var pascal, camel := ToPascalCase(s), ToCamelCase(s);
    forall i | 0 <= i < |pascal| ensures |camel| == |pascal| && LowerChar(camel[i]) == LowerChar(pascal[i]) {
      CharCase(pascal[i]);
    }
  }

  // ---------------------------------------------------------------- names that are not recovered

  lemma OneWord(word: string)
    requires word != "" && NoSeparator(word) && NoUpper(word)
    ensures Words(word) == [word]
  {
    Collect("", word, "");
    assert word + "" == word && "" + word == word;
  }

  lemma TwoWords(a: string, b: string)
    requires Plain(a) && Plain(b) && NoUpper(a) && NoUpper(b)
    ensures Words(a + "_" + b) == [a, b] && ToSnakeCase(a + "_" + b) == a + "_" + b
    ensures ToPascalCase(a + "_" + b) == Capital(a) + Capital(b)
  {
    var words := [a, b];
    assert words[1..] == [b] && [b][1..] == [];
    SplitOfJoin(words, '_');
    LowerFacts(a);
    LowerFacts(b);
    assert Each(words, false) == words;
    var capitals := [Capital(a), Capital(b)];
    assert Capitals(words) == capitals && capitals[1..] == [Capital(b)] && [Capital(b)][1..] == [];
    assert Concat([Capital(b)][1..]) == "";
    assert Concat([Capital(b)]) == Capital(b) + "" == Capital(b);
    assert Concat(capitals) == Capital(a) + Capital(b);
  }

  lemma OneCharacter(c: char)
    ensures Capital([c]) == [UpperChar(c)] && Lower([c]) == [LowerChar(c)]
  {
    assert [c][1..] == "" && Lower("") == "";
  }

  /** `a_b` becomes `AB` in Pascal case, which is one word: snake case gives `ab`. */
  lemma PascalLosesWords()
    ensures ToPascalCase("a_b") == "AB" && ToSnakeCase("AB") == "ab" && ToSnakeCase("a_b") == "a_b"
  {
    hide Words, Capital, Lower, Upper, Each, Join, Capitals, Concat, ToPascalCase, ToSnakeCase;
    TwoWords("a", "b");
    OneCharacter('a');
    OneCharacter('b');
    assert "a" + "_" + "b" == "a_b";
    TwoCapitals();
  }

  lemma TwoCapitals()
    ensures ToSnakeCase("AB") == "ab"
  {
    assert "AB"[1..] == "B" && "B"[1..] == "";
    assert "" + ['A'] + ['B'] == "AB";
    assert Words("AB") == ["AB"];
    assert Lower("AB") == "ab";
    assert Each(["AB"], false) == ["ab"];
  }

  /** `a_1` becomes `a1` in camel case, which is one word. */
  lemma CamelLosesWords()
    ensures ToCamelCase("a_1") == "a1" && ToSnakeCase("a1") == "a1" && ToSnakeCase("a_1") == "a_1"
  {
    hide Words, Capital, Lower, Upper, Each, Join, Capitals, Concat, ToPascalCase, ToSnakeCase;
    TwoWords("a", "1");
    OneCharacter('a');
    OneCharacter('1');
    assert "a" + "_" + "1" == "a_1";
    assert ToPascalCase("a_1") == "A1" && "A1"[1..] == "1";
    OneSnake("a1");
  }

  lemma OneSnake(word: string)
    requires Plain(word) && NoUpper(word)
    ensures ToSnakeCase(word) == word
  {
    OneWord(word);
    LowerFacts(word);
    assert Each([word], false) == [word];
  }
}
