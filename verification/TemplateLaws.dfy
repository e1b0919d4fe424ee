/**
  What evaluating a template means, stated about whole templates: a conditional stands
  for one of its bodies, a loop for its body once for each element, an expression for
  the value it leads to.
 */
module TemplateLaws {
  import opened Wrappers
  import opened Tokens
  import opened Utf8
  import opened Template
  import opened TemplateEval

  // ---------------------------------------------------------------- one after the other

  function ConcatValues(results: seq<Outcome<TokenStream>>): TokenStream
    requires forall i :: 0 <= i < |results| ==> results[i].Done?
  {
    if results == [] then [] else results[0].value + ConcatValues(results[1..])
  }

  /** Results in order: the first that is no tokens decides, and otherwise the tokens are put together. */
  ghost predicate InOrder(results: seq<Outcome<TokenStream>>, r: Outcome<TokenStream>) {
    if forall i :: 0 <= i < |results| ==> results[i].Done? then r == Done(ConcatValues(results))
    else exists k: nat :: IsFirstFailure(results, k) && r == results[k]
  }

  predicate IsFirstFailure(results: seq<Outcome<TokenStream>>, k: nat) {
    k < |results| && !results[k].Done? && forall i :: 0 <= i < k ==> results[i].Done?
  }

  lemma InOrderCons(first: Outcome<TokenStream>, rest: seq<Outcome<TokenStream>>, r: Outcome<TokenStream>)
    requires InOrder(rest, r)
    ensures InOrder([first] + rest, Then(first, r))
  {
    var all := [first] + rest;
    assert all[1..] == rest && forall i :: 0 <= i < |rest| ==> all[i + 1] == rest[i];
    if !first.Done? {
      assert IsFirstFailure(all, 0) && !all[0].Done?;
    } else if forall i :: 0 <= i < |rest| ==> rest[i].Done? {
      assert ConcatValues(all) == first.value + ConcatValues(rest);
    } else {
      var k: nat :| IsFirstFailure(rest, k) && r == rest[k];
      assert IsFirstFailure(all, k + 1) && !all[k + 1].Done?;
    }
  }

  lemma {:induction false} EvalAppend(show: Show, a: seq<Item>, b: seq<Item>, ctx: Bindings)
    ensures EvalItems(show, a + b, ctx) == Then(EvalItems(show, a, ctx), EvalItems(show, b, ctx))
    decreases |a|
  {
    hide EvalItem;
    if a == [] {
      assert a + b == b;
      ThenOutput([], [], EvalItems(show, b, ctx));
    } else {
      assert (a + b)[0] == a[0] && (a + b)[1..] == a[1..] + b;
      EvalAppend(show, a[1..], b, ctx);
      ThenAssociates(EvalItem(show, a[0], ctx), EvalItems(show, a[1..], ctx), EvalItems(show, b, ctx));
    }
  }

  lemma ThenAssociates(a: Outcome<TokenStream>, b: Outcome<TokenStream>, c: Outcome<TokenStream>)
    ensures Then(a, Then(b, c)) == Then(Then(a, b), c)
    ensures Then(a, Done([])) == a
  {
    if a.Done? {
      assert a.value + [] == a.value;
      if b.Done? && c.Done? { assert a.value + (b.value + c.value) == a.value + b.value + c.value; }
    }
  }

  lemma EvalOne(show: Show, item: Item, ctx: Bindings)
    ensures EvalItems(show, [item], ctx) == EvalItem(show, item, ctx)
  {
    hide EvalItem;
    assert [item][1..] == [];
    ThenAssociates(EvalItem(show, item, ctx), Done([]), Done([]));
  }

  /** An item can be replaced by any items with the same outcome, whatever is around it. */
  lemma Replace(show: Show, before: seq<Item>, item: Item, items: seq<Item>, after: seq<Item>, ctx: Bindings)
    requires EvalItem(show, item, ctx) == EvalItems(show, items, ctx)
    ensures EvalItems(show, before + [item] + after, ctx) == EvalItems(show, before + items + after, ctx)
  {
    hide EvalItem, EvalItems;
    EvalOne(show, item, ctx);
    EvalAppend(show, before + [item], after, ctx);
    EvalAppend(show, before, [item], ctx);
    EvalAppend(show, before + items, after, ctx);
    EvalAppend(show, before, items, ctx);
  }

  // ---------------------------------------------------------------- conditionals

  function ElseItems(elseBody: Option<Template>): seq<Item> {
    if elseBody.Some? then elseBody.value.items else []
  }

  /** A condition that interpolates to tokens that read as neither `false` nor nothing selects the body. */
  lemma IfTrue(show: Show, before: seq<Item>, condition: TokenStream, thenBody: Template, elseBody: Option<Template>, after: seq<Item>, ctx: Bindings)
    requires var c := EvalItems(show, [VarExpr(condition)], ctx);
             c.Done? && show(c.value) != "false" && show(c.value) != ""
    ensures EvalItems(show, before + [If(condition, thenBody, elseBody)] + after, ctx)
         == EvalItems(show, before + thenBody.items + after, ctx)
  {
    EvalOne(show, VarExpr(condition), ctx);
    Replace(show, before, If(condition, thenBody, elseBody), thenBody.items, after, ctx);
  }

  /** One that reads as `false` or nothing, or fails, selects the else body, or nothing. */
  lemma IfFalse(show: Show, before: seq<Item>, condition: TokenStream, thenBody: Template, elseBody: Option<Template>, after: seq<Item>, ctx: Bindings)
    requires var c := EvalItems(show, [VarExpr(condition)], ctx);
             c.Failed? || (c.Done? && (show(c.value) == "false" || show(c.value) == ""))
    ensures EvalItems(show, before + [If(condition, thenBody, elseBody)] + after, ctx)
         == EvalItems(show, before + ElseItems(elseBody) + after, ctx)
  {
    EvalOne(show, VarExpr(condition), ctx);
    Replace(show, before, If(condition, thenBody, elseBody), ElseItems(elseBody), after, ctx);
  }

  /** A panic in the condition is not caught. */
  lemma IfPanics(show: Show, before: seq<Item>, condition: TokenStream, thenBody: Template, elseBody: Option<Template>, after: seq<Item>, ctx: Bindings)
    requires EvalItems(show, [VarExpr(condition)], ctx).Panicked?
    ensures EvalItems(show, before + [If(condition, thenBody, elseBody)] + after, ctx)
         == EvalItems(show, before + [VarExpr(condition)] + after, ctx)
  {
    EvalOne(show, VarExpr(condition), ctx);
    Replace(show, before, If(condition, thenBody, elseBody), [VarExpr(condition)], after, ctx);
  }

  // ---------------------------------------------------------------- loops

  /** A loop over a list has the outcome of its body for each element, in order, between what is around it. */
  lemma ForInOrder(show: Show, before: seq<Item>, binding: string, collection: string, body: Template, after: seq<Item>, ctx: Bindings, results: seq<Outcome<TokenStream>>)
    requires collection in ctx && ctx[collection].ListVal? && |results| == |ctx[collection].elements|
    requires forall i :: 0 <= i < |results| ==>
               results[i] == EvalItems(show, body.items, ctx[binding := ctx[collection].elements[i]])
    ensures InOrder([EvalItems(show, before, ctx)] + (results + [EvalItems(show, after, ctx)]),
                    EvalItems(show, before + [For(binding, collection, body)] + after, ctx))
  {
    hide EvalItems, EvalLoop, InOrder;
    var item := For(binding, collection, body);
    var loop := EvalItem(show, item, ctx);
    var last := EvalItems(show, after, ctx);
    EvalOne(show, item, ctx);
    EvalAppend(show, before + [item], after, ctx);
    EvalAppend(show, before, [item], ctx);
    ThenAssociates(EvalItems(show, before, ctx), loop, last);
    LoopInOrder(show, binding, body.items, ctx[collection].elements, ctx, results, last);
    InOrderCons(EvalItems(show, before, ctx), results + [last], Then(loop, last));
  }

  lemma {:induction false} LoopInOrder(show: Show, binding: string, body: seq<Item>, values: seq<Value>, ctx: Bindings, results: seq<Outcome<TokenStream>>, last: Outcome<TokenStream>)
    requires |results| == |values|
    requires forall i :: 0 <= i < |results| ==> results[i] == EvalItems(show, body, ctx[binding := values[i]])
    ensures InOrder(results + [last], Then(EvalLoop(show, binding, body, values, ctx), last))
    decreases |values|
  {
    hide EvalItems, InOrder;
    if values == [] {
      ThenOutput([], [], last);
      assert results + [last] == [last];
      OneInOrder(last);
    } else {
      LoopInOrder(show, binding, body, values[1..], ctx, results[1..], last);
      var rest := EvalLoop(show, binding, body, values[1..], ctx);
      InOrderCons(results[0], results[1..] + [last], Then(rest, last));
      ThenAssociates(results[0], rest, last);
      assert [results[0]] + (results[1..] + [last]) == results + [last];
    }
  }

  lemma OneInOrder(r: Outcome<TokenStream>)
    ensures InOrder([r], r)
  {
    assert [r][1..] == [];
    if r.Done? { assert r.value + [] == r.value; } else { assert IsFirstFailure([r], 0) && [r][0] == r; }
  }

  /** A loop over what is not bound, or is no list, fails at the loop. */
  lemma ForFails(show: Show, binding: string, collection: string, body: Template, ctx: Bindings)
    ensures collection !in ctx ==>
              EvalItems(show, [For(binding, collection, body)], ctx) == Failed(UndefinedCollection(collection))
    ensures collection in ctx && !ctx[collection].ListVal? ==>
              EvalItems(show, [For(binding, collection, body)], ctx) == Failed(NotAList(collection))
  {
    EvalOne(show, For(binding, collection, body), ctx);
  }

  // ---------------------------------------------------------------- literals and variables

  /** Tokens of a literal are emitted unchanged. */
  lemma TextIsEmitted(show: Show, tokens: TokenStream, ctx: Bindings)
    ensures EvalItems(show, [Text(tokens)], ctx) == Done(tokens)
  {
    EvalOne(show, Text(tokens), ctx);
  }

  /** What a value is interpolated as. */
  predicate Interpolates(v: Value, r: Outcome<TokenStream>) {
    && (v.TokensVal? ==> r == Done(v.tokens))
    && (v.StringVal? ==> r == Done([StringLiteral(v.text)]))
    && (v.BoolVal? ==> r == Done([Ident(if v.truth then "true" else "false")]))
    && (v.IntVal? ==> r == Done([Literal(Decimal(v.number))]))
    && (v.ListVal? || v.ObjectVal? ==> r == Panicked)
    && (v.ParsedVal? ==> r == Done(v.name))
  }

  /** `#x` and `#(x)` are the value bound to `x`, or an error that names it. */
  lemma VariableIsValue(show: Show, x: string, ctx: Bindings)
    ensures EvalItems(show, [VarSimple(x)], ctx) == EvalItems(show, [VarExpr([Ident(x)])], ctx)
    ensures x in ctx ==> Interpolates(ctx[x], EvalItems(show, [VarSimple(x)], ctx))
    ensures x !in ctx ==> EvalItems(show, [VarSimple(x)], ctx) == Failed(UndefinedVariable(x))
  {
    EvalOne(show, VarSimple(x), ctx);
    EvalOne(show, VarExpr([Ident(x)]), ctx);
    assert [Ident(x)][1..] == [];
  }

  /** The expression `x` followed by `steps`. */
  function Path(x: string, steps: TokenStream): TokenStream {
    [Ident(x)] + steps
  }

  /** An expression goes on from the value of its variable. */
  lemma PathGoesOn(show: Show, x: string, steps: TokenStream, ctx: Bindings)
    requires x in ctx
    ensures EvalItems(show, [VarExpr(Path(x, steps))], ctx) == Interpolate(EvalSteps(show, ctx[x], steps))
  {
    EvalOne(show, VarExpr(Path(x, steps)), ctx);
    assert Path(x, steps)[1..] == steps;
  }

  /** `x.f` followed by more steps is what those steps are of the member `f`. */
  lemma MemberIsValue(show: Show, x: string, f: string, steps: TokenStream, ctx: Bindings)
    requires x in ctx && (ctx[x].ObjectVal? || ctx[x].ParsedVal?)
    requires steps != [] ==> !(steps[0].Group? && steps[0].delimiter == Parenthesis)
    ensures f in ctx[x].members ==>
              EvalItems(show, [VarExpr(Path(x, [Punct('.'), Ident(f)] + steps))], ctx) ==
              EvalItems(show, [VarExpr(Path(x, steps))], ctx[x := ctx[x].members[f]])
    ensures f !in ctx[x].members ==>
              EvalItems(show, [VarExpr(Path(x, [Punct('.'), Ident(f)] + steps))], ctx) == Failed(NoField(f))
  {
    hide EvalItems;
    var ts := [Punct('.'), Ident(f)] + steps;
    PathGoesOn(show, x, ts, ctx);
    assert ts[2..] == steps && (|ts| > 2 ==> ts[2] == steps[0]);
    if f in ctx[x].members { PathGoesOn(show, x, steps, ctx[x := ctx[x].members[f]]); }
  }

  lemma {:induction false} DecimalParses(i: nat)
    ensures Decimal(i) != "" && (forall k :: 0 <= k < |Decimal(i)| ==> TemplateEval.IsDigit(Decimal(i)[k]))
    ensures NumberOf(Decimal(i)) == i
  {
    var text := Decimal(i);
    var last := [('0' as int + i % 10) as char];
    if i < 10 {
      assert text == last && text[..0] == "";
    } else {
      DecimalParses(i / 10);
      assert text == Decimal(i / 10) + last && text[..|text| - 1] == Decimal(i / 10);
    }
  }

  /** `x[i]` followed by more steps is what those steps are of element `i`. */
  lemma ElementIsValue(show: Show, x: string, inside: TokenStream, i: nat, steps: TokenStream, ctx: Bindings)
    requires x in ctx && ctx[x].ListVal? && Trim(show(inside)) == Decimal(i) && i <= USIZE_MAX
    ensures i < |ctx[x].elements| ==>
              EvalItems(show, [VarExpr(Path(x, [Group(Bracket, inside)] + steps))], ctx) ==
              EvalItems(show, [VarExpr(Path(x, steps))], ctx[x := ctx[x].elements[i]])
    ensures i >= |ctx[x].elements| ==>
              EvalItems(show, [VarExpr(Path(x, [Group(Bracket, inside)] + steps))], ctx) == Failed(OutOfBounds(i))
  {
    hide EvalItems, NumberOf, Decimal, Trim;
    var ts := [Group(Bracket, inside)] + steps;
    PathGoesOn(show, x, ts, ctx);
    assert ts[1..] == steps;
    DecimalParses(i);
    if i < |ctx[x].elements| { PathGoesOn(show, x, steps, ctx[x := ctx[x].elements[i]]); }
  }

  // ---------------------------------------------------------------- methods

  /** A call of the method `name` on `x`. */
  function Call(x: string, name: string, args: TokenStream): TokenStream {
    Path(x, [Punct('.'), Ident(name), Group(Parenthesis, args)])
  }

  lemma CallIsValue(show: Show, x: string, name: string, args: TokenStream, ctx: Bindings)
    requires x in ctx
    ensures EvalItems(show, [VarExpr(Call(x, name, args))], ctx) == Interpolate(EvalMethod(show, ctx[x], name, args))
  {
    var ts := [Punct('.'), Ident(name), Group(Parenthesis, args)];
    PathGoesOn(show, x, ts, ctx);
    assert ts[3..] == [];
  }

  /** What `is_empty` and `len` say of a value. */
  lemma SizeMethods(show: Show, x: string, args: TokenStream, ctx: Bindings)
    requires x in ctx
    ensures var empty := (ctx[x].ListVal? && |ctx[x].elements| == 0) || (ctx[x].StringVal? && |ctx[x].text| == 0);
            EvalItems(show, [VarExpr(Call(x, "is_empty", args))], ctx) == Done([Ident(if empty then "true" else "false")])
    ensures ctx[x].ListVal? ==>
              EvalItems(show, [VarExpr(Call(x, "len", args))], ctx) == Done([Literal(Decimal(|ctx[x].elements|))])
    ensures ctx[x].StringVal? ==>
              EvalItems(show, [VarExpr(Call(x, "len", args))], ctx) == Done([Literal(Decimal(ByteLen(ctx[x].text)))])
    ensures !ctx[x].ListVal? && !ctx[x].StringVal? ==>
              EvalItems(show, [VarExpr(Call(x, "len", args))], ctx) == Failed(NoLen(ctx[x]))
  {
    hide EvalItems, Decimal, ByteLen;
    CallIsValue(show, x, "is_empty", args, ctx);
    CallIsValue(show, x, "len", args, ctx);
  }

  /** The value has the attribute: as a string in the list `attrs` of an object, or among the attributes of what was parsed. */
  predicate Carries(v: Value, attr: string) {
    || (v.ObjectVal? && "attrs" in v.members && v.members["attrs"].ListVal? && StringVal(attr) in v.members["attrs"].elements)
    || (v.ParsedVal? && v.attrs.Some? && attr in v.attrs.value)
  }

  /** `has_attr("name")`, for a name without quotes. */
  lemma HasAttrMethod(show: Show, x: string, lit: string, args: TokenStream, attr: string, ctx: Bindings)
    requires x in ctx && show([Literal(lit)]) == "\"" + attr + "\"" && '"' !in attr
    ensures EvalItems(show, [VarExpr(Call(x, "has_attr", [Literal(lit)] + args))], ctx)
         == Done([Ident(if Carries(ctx[x], attr) then "true" else "false")])
  {
    hide EvalItems;
    CallIsValue(show, x, "has_attr", [Literal(lit)] + args, ctx);
    TrimsQuotes(attr);
  }

  lemma TrimsQuotes(attr: string)
    requires '"' !in attr
    ensures TrimQuotesEnd(TrimQuotesStart("\"" + attr + "\"")) == attr
  {
    var s, rest := "\"" + attr + "\"", attr + "\"";
    assert s[1..] == rest && rest[..|attr|] == attr;
    if attr == "" {
      assert rest == "\"" && rest[1..] == "";
      assert TrimQuotesStart("") == "" && TrimQuotesStart(rest) == TrimQuotesStart(rest[1..]);
      assert TrimQuotesStart(s) == TrimQuotesStart(rest) == "";
    } else {
      assert attr[0] in attr && attr[|attr| - 1] in attr;
      assert rest[0] == attr[0];
    }
  }

  /** `@if x`, for a boolean: the body if it is true, and otherwise the else body or nothing. */
  lemma IfBoolean(show: Show, x: string, before: seq<Item>, thenBody: Template, elseBody: Option<Template>, after: seq<Item>, ctx: Bindings)
    requires x in ctx && ctx[x].BoolVal? && show([Ident("true")]) == "true" && show([Ident("false")]) == "false"
    ensures EvalItems(show, before + [If([Ident(x)], thenBody, elseBody)] + after, ctx)
         == EvalItems(show, before + (if ctx[x].truth then thenBody.items else ElseItems(elseBody)) + after, ctx)
  {
    hide EvalItems;
    VariableIsValue(show, x, ctx);
    if ctx[x].truth {
      IfTrue(show, before, [Ident(x)], thenBody, elseBody, after, ctx);
    } else {
      IfFalse(show, before, [Ident(x)], thenBody, elseBody, after, ctx);
    }
  }

  /** `@if x.has_attr("name")`: the body if the value has the attribute, and otherwise the else body or nothing. */
  lemma IfHasAttr(
    show: Show, x: string, lit: string, attr: string, before: seq<Item>, thenBody: Template, elseBody: Option<Template>, after: seq<Item>, ctx: Bindings)
    requires x in ctx && show([Literal(lit)]) == "\"" + attr + "\"" && '"' !in attr
    requires show([Ident("true")]) == "true" && show([Ident("false")]) == "false"
    ensures EvalItems(show, before + [If(Call(x, "has_attr", [Literal(lit)]), thenBody, elseBody)] + after, ctx)
         == EvalItems(show, before + (if Carries(ctx[x], attr) then thenBody.items else ElseItems(elseBody)) + after, ctx)
  {
    hide EvalItems, Call, Carries;
    HasAttrMethod(show, x, lit, [], attr, ctx);
    assert [Literal(lit)] + [] == [Literal(lit)];
    var condition := Call(x, "has_attr", [Literal(lit)]);
    if Carries(ctx[x], attr) {
      IfTrue(show, before, condition, thenBody, elseBody, after, ctx);
    } else {
      IfFalse(show, before, condition, thenBody, elseBody, after, ctx);
    }
  }
}
