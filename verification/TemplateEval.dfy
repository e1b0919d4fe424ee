/**
  Evaluating a template in a context of named values.  The result depends on the
  template's free variables only, and a loop variable can be renamed.
 */
module TemplateEval {
  import opened Wrappers
  import opened Tokens
  import opened Utf8
  import opened Template

  datatype Value =
    | TokensVal(tokens: TokenStream)
    | StringVal(text: string)
    | BoolVal(truth: bool)
    | IntVal(number: nat)
    | ListVal(elements: seq<Value>)
    | ObjectVal(members: map<string, Value>)
    // a parsed struct, enum, variant or field: the last two have attributes
    | ParsedVal(name: TokenStream, members: map<string, Value>, attrs: Option<set<string>>)

  type Bindings = map<string, Value>

  datatype EvalError =
    | UndefinedVariable(name: string)
    | UndefinedCollection(name: string)
    | NotAList(name: string)
    | ExpectedIdentifier(got: Option<TokenTree>)
    | ExpectedFieldName(got: Option<TokenTree>)
    | NoField(name: string)
    | InvalidIndex(text: string)
    | CannotIndex
    | OutOfBounds(index: nat)
    | UnexpectedToken(token: TokenTree)
    | NoLen(value: Value)
    | UnknownMethod(name: string)
    | ExpectedString(got: Option<TokenTree>)

  /** An error value, or the panic of interpolating a list or an object. */
  datatype Outcome<T> = Done(value: T) | Failed(error: EvalError) | Panicked

  /** How a token stream reads as text. */
  type Show = TokenStream -> string

  const USIZE_MAX: nat := 0xFFFF_FFFF_FFFF_FFFF

  // ---------------------------------------------------------------- values

  function ToTokens(v: Value): Outcome<TokenStream> {
    match v
    case TokensVal(tokens) => Done(tokens)
    case StringVal(text) => Done([StringLiteral(text)])
    case BoolVal(truth) => Done([Ident(if truth then "true" else "false")])
    case IntVal(number) => Done([Literal(Decimal(number))])
    case ListVal(_) => Panicked
    case ObjectVal(_) => Panicked
    case ParsedVal(name, _, _) => Done(name)
  }

  function Member(v: Value, key: string): Option<Value> {
    if (v.ObjectVal? || v.ParsedVal?) && key in v.members then Some(v.members[key]) else None
  }

  function TrimQuotesStart(s: string): string {
    if s != "" && s[0] == '"' then TrimQuotesStart(s[1..]) else s
  }

  function TrimQuotesEnd(s: string): string {
    if s != "" && s[|s| - 1] == '"' then TrimQuotesEnd(s[..|s| - 1]) else s
  }

  function ParseStringArg(show: Show, args: TokenStream): Outcome<string> {
    if args != [] && (args[0].Literal? || args[0].StringLiteral?)
    then Done(TrimQuotesEnd(TrimQuotesStart(show([args[0]]))))
    else Failed(ExpectedString(First(args)))
  }

  predicate HasAttr(v: Value, attr: string) {
    match v
    case ObjectVal(members) =>
      "attrs" in members && members["attrs"].ListVal? && StringVal(attr) in members["attrs"].elements
    case ParsedVal(_, _, Some(attrs)) => attr in attrs
    case _ => false
  }

  function EvalMethod(show: Show, v: Value, name: string, args: TokenStream): Outcome<Value> {
    if name == "has_attr" then
      match ParseStringArg(show, args)
      case Done(attr) => Done(BoolVal(HasAttr(v, attr)))
      case Failed(e) => Failed(e)
      case Panicked => Panicked
    else if name == "is_empty" then
      Done(BoolVal((v.ListVal? && v.elements == []) || (v.StringVal? && v.text == "")))
    else if name == "len" then
      match v
      case ListVal(elements) => Done(IntVal(|elements|))
      case StringVal(text) => Done(IntVal(ByteLen(text)))
      case _ => Failed(NoLen(v))
    else Failed(UnknownMethod(name))
  }

  predicate IsDigit(c: char) {
    '0' <= c <= '9'
  }

  function NumberOf(digits: string): nat
    requires forall i :: 0 <= i < |digits| ==> IsDigit(digits[i])
  {
    if digits == "" then 0
    else
      assert IsDigit(digits[|digits| - 1]);
      10 * NumberOf(digits[..|digits| - 1]) + (digits[|digits| - 1] - '0') as int
  }

  /** `str::parse::<usize>`: an optional plus sign, then digits, within the word. */
  function ParseUsize(s: string): Option<nat> {
    var digits := if s != "" && s[0] == '+' then s[1..] else s;
    if digits != "" && (forall i :: 0 <= i < |digits| ==> IsDigit(digits[i])) && NumberOf(digits) <= USIZE_MAX
    then Some(NumberOf(digits)) else None
  }

  function IndexAt(show: Show, v: Value, inside: TokenStream): Outcome<Value> {
    var text := Trim(show(inside));
    match ParseUsize(text)
    case None => Failed(InvalidIndex(text))
    case Some(i) =>
      if !v.ListVal? then Failed(CannotIndex)
      else if i < |v.elements| then Done(v.elements[i])
      else Failed(OutOfBounds(i))
  }

  // ---------------------------------------------------------------- what evaluation computes

  function EvalSteps(show: Show, current: Value, ts: TokenStream): Outcome<Value>
    decreases |ts|
  {
    if ts == [] then Done(current)
    else if ts[0] == Punct('.') then
      if |ts| == 1 || !ts[1].Ident? then Failed(ExpectedFieldName(First(ts[1..])))
      else if |ts| > 2 && ts[2].Group? && ts[2].delimiter == Parenthesis then
        match EvalMethod(show, current, ts[1].name, ts[2].stream)
        case Done(v) => EvalSteps(show, v, ts[3..])
        case Failed(e) => Failed(e)
        case Panicked => Panicked
      else
        match Member(current, ts[1].name)
        case Some(v) => EvalSteps(show, v, ts[2..])
        case None => Failed(NoField(ts[1].name))
    else if ts[0].Group? && ts[0].delimiter == Bracket then
      match IndexAt(show, current, ts[0].stream)
      case Done(v) => EvalSteps(show, v, ts[1..])
      case Failed(e) => Failed(e)
      case Panicked => Panicked
    else Failed(UnexpectedToken(ts[0]))
  }

  function Interpolate(r: Outcome<Value>): Outcome<TokenStream> {
    match r
    case Done(v) => ToTokens(v)
    case Failed(e) => Failed(e)
    case Panicked => Panicked
  }

  function EvalExpr(show: Show, expr: TokenStream, ctx: Bindings): Outcome<TokenStream> {
    if expr == [] || !expr[0].Ident? then Failed(ExpectedIdentifier(First(expr)))
    else if expr[0].name !in ctx then Failed(UndefinedVariable(expr[0].name))
    else Interpolate(EvalSteps(show, ctx[expr[0].name], expr[1..]))
  }

  /** A condition holds unless it reads as `false` or nothing; an error is false, a panic is not caught. */
  function EvalCondition(show: Show, condition: TokenStream, ctx: Bindings): Outcome<bool> {
    match EvalExpr(show, condition, ctx)
    case Done(tokens) => Done(show(tokens) != "false" && show(tokens) != "")
    case Failed(_) => Done(false)
    case Panicked => Panicked
  }

  /** One result after another: the first that is not tokens decides. */
  function Then(first: Outcome<TokenStream>, second: Outcome<TokenStream>): Outcome<TokenStream> {
    if first.Done? && second.Done? then Done(first.value + second.value)
    else if first.Done? then second
    else first
  }

  lemma ThenOutput(output: TokenStream, more: TokenStream, r: Outcome<TokenStream>)
    ensures Then(Done([]), r) == r
    ensures Then(Done(output), Then(Done(more), r)) == Then(Done(output + more), r)
  {
    if r.Done? {
      assert [] + r.value == r.value;
      assert output + (more + r.value) == output + more + r.value;
    }
  }

  function EvalItem(show: Show, item: Item, ctx: Bindings): Outcome<TokenStream>
    decreases item, 0, 0
  {
    match item
    case Text(tokens) => Done(tokens)
    case VarSimple(name) => if name in ctx then ToTokens(ctx[name]) else Failed(UndefinedVariable(name))
    case VarExpr(expr) => EvalExpr(show, expr, ctx)
    case For(binding, collection, body) =>
      if collection !in ctx then Failed(UndefinedCollection(collection))
      else if !ctx[collection].ListVal? then Failed(NotAList(collection))
      else EvalLoop(show, binding, body.items, ctx[collection].elements, ctx)
    case If(condition, thenBody, elseBody) =>
      match EvalCondition(show, condition, ctx)
      case Done(true) => EvalItems(show, thenBody.items, ctx)
      case Done(false) =>
        (match elseBody
         case Some(e) => EvalItems(show, e.items, ctx)
         case None => Done([]))
      case Failed(e) => Failed(e)
      case Panicked => Panicked
  }

  function EvalItems(show: Show, items: seq<Item>, ctx: Bindings): Outcome<TokenStream>
    decreases items, 1, 0
  {
    if items == [] then Done([])
    else Then(EvalItem(show, items[0], ctx), EvalItems(show, items[1..], ctx))
  }

  function EvalLoop(show: Show, binding: string, body: seq<Item>, values: seq<Value>, ctx: Bindings): Outcome<TokenStream>
    decreases body, 2, |values|
  {
    if values == [] then Done([])
    else
      Then(EvalItems(show, body, ctx[binding := values[0]]), EvalLoop(show, binding, body, values[1..], ctx))
  }

  // ---------------------------------------------------------------- free variables

  function ExprVars(expr: TokenStream): set<string> {
    if expr != [] && expr[0].Ident? then {expr[0].name} else {}
  }

  function ItemVars(item: Item): set<string>
    decreases item, 0
  {
    match item
    case Text(_) => {}
    case VarSimple(name) => {name}
    case VarExpr(expr) => ExprVars(expr)
    case For(binding, collection, body) => {collection} + (FreeVars(body.items) - {binding})
    case If(condition, thenBody, elseBody) =>
      ExprVars(condition) + FreeVars(thenBody.items) +
        (match elseBody
         case Some(e) => FreeVars(e.items)
         case None => {})
  }

  function FreeVars(items: seq<Item>): set<string>
    decreases items, 1
  {
    if items == [] then {} else ItemVars(items[0]) + FreeVars(items[1..])
  }

  /** The two contexts bind the same of these names, to the same values. */
  predicate Agree(a: Bindings, b: Bindings, names: set<string>) {
    forall x :: x in names ==> (x in a <==> x in b) && (x in a && x in b ==> a[x] == b[x])
  }

  /**
    A template evaluates to the same tokens, the same error or the same panic in two
    contexts that agree on its free variables.
   */
  lemma {:induction false} Coincidence(show: Show, items: seq<Item>, a: Bindings, b: Bindings)
    requires Agree(a, b, FreeVars(items))
    ensures EvalItems(show, items, a) == EvalItems(show, items, b)
    decreases items, 1, 0
  {
    if items != [] {
      CoincidenceItem(show, items[0], a, b);
      Coincidence(show, items[1..], a, b);
    }
  }

  lemma {:induction false} CoincidenceItem(show: Show, item: Item, a: Bindings, b: Bindings)
    requires Agree(a, b, ItemVars(item))
    ensures EvalItem(show, item, a) == EvalItem(show, item, b)
    decreases item, 0, 0
  {
    match item {
      case Text(_) =>
      case VarSimple(_) =>
      case VarExpr(_) =>
      case For(binding, collection, body) =>
        assert collection in ItemVars(item);
        if collection in a && a[collection].ListVal? {
          CoincidenceLoop(show, binding, body.items, a[collection].elements, a, b);
        }
      case If(condition, thenBody, elseBody) =>
        assert EvalCondition(show, condition, a) == EvalCondition(show, condition, b);
        Coincidence(show, thenBody.items, a, b);
        if elseBody.Some? {
          Coincidence(show, elseBody.value.items, a, b);
        }
    }
  }

  lemma {:induction false} CoincidenceLoop(show: Show, binding: string, body: seq<Item>, values: seq<Value>, a: Bindings, b: Bindings)
    requires Agree(a, b, FreeVars(body) - {binding})
    ensures EvalLoop(show, binding, body, values, a) == EvalLoop(show, binding, body, values, b)
    decreases body, 2, |values|
  {
    if values != [] {
      var v := values[0];
      assert Agree(a[binding := v], b[binding := v], FreeVars(body));
      Coincidence(show, body, a[binding := v], b[binding := v]);
      CoincidenceLoop(show, binding, body, values[1..], a, b);
    }
  }

  // ---------------------------------------------------------------- renaming a loop variable

  function Swap(name: string, x: string, y: string): string {
    if name == x then y else name
  }

  /** Only the first token of an expression is a variable: the rest are members. */
  function RenameExpr(expr: TokenStream, x: string, y: string): TokenStream {
    if expr != [] && expr[0] == Ident(x) then [Ident(y)] + expr[1..] else expr
  }

  function RenameItem(item: Item, x: string, y: string): Item
    decreases item, 0
  {
    match item
    case Text(_) => item
    case VarSimple(name) => VarSimple(Swap(name, x, y))
    case VarExpr(expr) => VarExpr(RenameExpr(expr, x, y))
    case For(binding, collection, body) =>
      For(binding, Swap(collection, x, y), if binding == x then body else Template(RenameItems(body.items, x, y)))
    case If(condition, thenBody, elseBody) =>
      If(RenameExpr(condition, x, y), Template(RenameItems(thenBody.items, x, y)),
         match elseBody
         case Some(e) => Some(Template(RenameItems(e.items, x, y)))
         case None => None)
  }

  function RenameItems(items: seq<Item>, x: string, y: string): seq<Item>
    decreases items, 1
  {
    if items == [] then [] else [RenameItem(items[0], x, y)] + RenameItems(items[1..], x, y)
  }

  /** Every name a template uses, free or bound. */
  function ItemNames(item: Item): set<string>
    decreases item, 0
  {
    match item
    case Text(_) => {}
    case VarSimple(name) => {name}
    case VarExpr(expr) => ExprVars(expr)
    case For(binding, collection, body) => {collection, binding} + Names(body.items)
    case If(condition, thenBody, elseBody) =>
      ExprVars(condition) + Names(thenBody.items) +
        (match elseBody
         case Some(e) => Names(e.items)
         case None => {})
  }

  function Names(items: seq<Item>): set<string>
    decreases items, 1
  {
    if items == [] then {} else ItemNames(items[0]) + Names(items[1..])
  }

  lemma {:induction false} FreeAreNames(items: seq<Item>)
    ensures FreeVars(items) <= Names(items)
    decreases items, 1
  {
    if items != [] {
      FreeAreNamesItem(items[0]);
      FreeAreNames(items[1..]);
    }
  }

  lemma {:induction false} FreeAreNamesItem(item: Item)
    ensures ItemVars(item) <= ItemNames(item)
    decreases item, 0
  {
    match item {
      case For(_, _, body) => FreeAreNames(body.items);
      case If(_, thenBody, elseBody) =>
        FreeAreNames(thenBody.items);
        if elseBody.Some? {
          FreeAreNames(elseBody.value.items);
        }
      case _ =>
    }
  }

  /** `b` calls `y` what `a` calls `x`. */
  ghost predicate Renamed(a: Bindings, b: Bindings, x: string, y: string) {
    && x in a && y in b && a[x] == b[y]
    && forall z :: z != x && z != y ==> (z in a <==> z in b) && (z in a && z in b ==> a[z] == b[z])
  }

  /** The same outcome, but for a loop over the renamed variable: its error names it. */
  predicate SameOutcome(a: Outcome<TokenStream>, b: Outcome<TokenStream>, x: string, y: string) {
    a == b || (a == Failed(NotAList(x)) && b == Failed(NotAList(y)))
  }

  lemma RenamedExpr(show: Show, expr: TokenStream, a: Bindings, b: Bindings, x: string, y: string)
    requires Renamed(a, b, x, y) && y !in ExprVars(expr)
    ensures EvalExpr(show, RenameExpr(expr, x, y), b) == EvalExpr(show, expr, a)
  {
    if expr != [] && expr[0] == Ident(x) {
      assert RenameExpr(expr, x, y)[1..] == expr[1..];
    }
  }

  lemma {:induction false} RenamedItems(show: Show, items: seq<Item>, a: Bindings, b: Bindings, x: string, y: string)
    requires Renamed(a, b, x, y) && y !in Names(items)
    ensures SameOutcome(EvalItems(show, items, a), EvalItems(show, RenameItems(items, x, y), b), x, y)
    decreases items, 1, 0
  {
    if items != [] {
      RenamedItem(show, items[0], a, b, x, y);
      RenamedItems(show, items[1..], a, b, x, y);
      assert RenameItems(items, x, y)[1..] == RenameItems(items[1..], x, y);
    }
  }

  lemma {:induction false} RenamedItem(show: Show, item: Item, a: Bindings, b: Bindings, x: string, y: string)
    requires Renamed(a, b, x, y) && y !in ItemNames(item)
    ensures SameOutcome(EvalItem(show, item, a), EvalItem(show, RenameItem(item, x, y), b), x, y)
    decreases item, 0, 0
  {
    match item {
      case Text(_) =>
      case VarSimple(_) =>
      case VarExpr(expr) => RenamedExpr(show, expr, a, b, x, y);
      case For(binding, collection, body) =>
        if collection in a && a[collection].ListVal? {
          RenamedLoop(show, binding, body.items, a[collection].elements, a, b, x, y);
        }
      case If(condition, thenBody, elseBody) =>
        RenamedExpr(show, condition, a, b, x, y);
        RenamedItems(show, thenBody.items, a, b, x, y);
        if elseBody.Some? {
          RenamedItems(show, elseBody.value.items, a, b, x, y);
        }
    }
  }

  lemma {:induction false} RenamedLoop(show: Show, binding: string, body: seq<Item>, values: seq<Value>, a: Bindings, b: Bindings, x: string, y: string)
    requires Renamed(a, b, x, y) && y !in Names(body) && y != binding
    ensures SameOutcome(EvalLoop(show, binding, body, values, a),
                        EvalLoop(show, binding, if binding == x then body else RenameItems(body, x, y), values, b), x, y)
    decreases body, 2, |values|
  {
    if values != [] {
      var v := values[0];
      if binding == x {
        FreeAreNames(body);
        Coincidence(show, body, a[x := v], b[x := v]);
      } else {
        RenamedItems(show, body, a[binding := v], b[binding := v], x, y);
      }
      RenamedLoop(show, binding, body, values[1..], a, b, x, y);
    }
  }

  /** A loop variable can be given any name that its body does not use. */
  lemma RenameBinding(show: Show, binding: string, collection: string, body: Template, y: string, ctx: Bindings)
    requires y !in Names(body.items)
    ensures SameOutcome(EvalItem(show, For(binding, collection, body), ctx),
                        EvalItem(show, For(y, collection, Template(RenameItems(body.items, binding, y))), ctx), binding, y)
  {
    if collection in ctx && ctx[collection].ListVal? {
      RebindLoop(show, binding, body.items, ctx[collection].elements, y, ctx);
    }
  }

  lemma {:induction false} RebindLoop(show: Show, binding: string, body: seq<Item>, values: seq<Value>, y: string, ctx: Bindings)
    requires y !in Names(body)
    ensures SameOutcome(EvalLoop(show, binding, body, values, ctx),
                        EvalLoop(show, y, RenameItems(body, binding, y), values, ctx), binding, y)
    decreases |values|
  {
    if values != [] {
      RenamedItems(show, body, ctx[binding := values[0]], ctx[y := values[0]], binding, y);
      RebindLoop(show, binding, body, values[1..], y, ctx);
    }
  }

  // ---------------------------------------------------------------- the evaluator

  class EvalContext {
    var bindings: Bindings

    constructor ()
      ensures bindings == map[]
    {
      bindings := map[];
    }

    method Set(name: string, value: Value)
      modifies this
      ensures bindings == old(bindings)[name := value]
    {
      bindings := bindings[name := value];
    }

    method Get(name: string) returns (value: Option<Value>)
      ensures value == if name in bindings then Some(bindings[name]) else None
    {
      value := if name in bindings then Some(bindings[name]) else None;
    }

    /** A context of its own, starting with the same bindings. */
    method Child() returns (child: EvalContext)
      ensures fresh(child) && child.bindings == bindings
    {
      child := new EvalContext();
      child.bindings := bindings;
    }
  }

  method EvaluateTemplate(show: Show, template: Template, ctx: EvalContext) returns (r: Outcome<TokenStream>)
    ensures r == EvalItems(show, template.items, ctx.bindings)
    decreases template, 1
  {
    var output := [];
    ThenOutput([], [], EvalItems(show, template.items, ctx.bindings));
    assert template.items[0..] == template.items;
    for i := 0 to |template.items|
      invariant EvalItems(show, template.items, ctx.bindings) == Then(Done(output), EvalItems(show, template.items[i..], ctx.bindings))
    {
      ghost var rest := EvalItems(show, template.items[i + 1..], ctx.bindings);
      var one := EvaluateItem(show, template.items[i], ctx);
      assert template.items[i..][1..] == template.items[i + 1..];
      if !one.Done? {
        return one;
      }
      ThenOutput(output, one.value, rest);
      output := output + one.value;
    }
    assert output + [] == output;
    r := Done(output);
  }

  method EvaluateItem(show: Show, item: Item, ctx: EvalContext) returns (r: Outcome<TokenStream>)
    ensures r == EvalItem(show, item, ctx.bindings)
    decreases item, 0
  {
    match item {
      case Text(tokens) => r := Done(tokens);
      case VarSimple(name) =>
        var value := ctx.Get(name);
        match value {
          case Some(v) => r := ToTokens(v);
          case None => r := Failed(UndefinedVariable(name));
        }
      case VarExpr(expr) => r := EvaluateExpr(show, expr, ctx);
      case For(binding, collection, body) =>
        var value := ctx.Get(collection);
        if value == None {
          return Failed(UndefinedCollection(collection));
        }
        if !value.value.ListVal? {
          return Failed(NotAList(collection));
        }
        var elements := value.value.elements;
        var output := [];
        ThenOutput([], [], EvalLoop(show, binding, body.items, elements, ctx.bindings));
        assert elements[0..] == elements;
        for i := 0 to |elements|
          invariant EvalLoop(show, binding, body.items, elements, ctx.bindings)
                 == Then(Done(output), EvalLoop(show, binding, body.items, elements[i..], ctx.bindings))
        {
          var child := ctx.Child();
          child.Set(binding, elements[i]);
          var one := EvaluateTemplate(show, body, child);
          assert elements[i..][1..] == elements[i + 1..];
          if !one.Done? {
            return one;
          }
          ThenOutput(output, one.value, EvalLoop(show, binding, body.items, elements[i + 1..], ctx.bindings));
          output := output + one.value;
        }
        assert output + [] == output;
        r := Done(output);
      case If(condition, thenBody, elseBody) =>
        var truth := EvaluateCondition(show, condition, ctx);
        if !truth.Done? {
          return if truth.Failed? then Failed(truth.error) else Panicked;
        }
        if truth.value {
          r := EvaluateTemplate(show, thenBody, ctx);
        } else if elseBody.Some? {
          r := EvaluateTemplate(show, elseBody.value, ctx);
        } else {
          r := Done([]);
        }
    }
  }

  method EvaluateCondition(show: Show, condition: TokenStream, ctx: EvalContext) returns (r: Outcome<bool>)
    ensures r == EvalCondition(show, condition, ctx.bindings)
  {
    var value := EvaluateExpr(show, condition, ctx);
    match value {
      case Done(tokens) =>
        var s := show(tokens);
        r := Done(s != "false" && s != "");
      case Failed(_) => r := Done(false);
      case Panicked => r := Panicked;
    }
  }

  method EvaluateExpr(show: Show, expr: TokenStream, ctx: EvalContext) returns (r: Outcome<TokenStream>)
    ensures r == EvalExpr(show, expr, ctx.bindings)
  {
    var iter := new TokenIter(expr);
    var first := iter.Next();
    if first == None || !first.value.Ident? {
      return Failed(ExpectedIdentifier(first));
    }
    var base := ctx.Get(first.value.name);
    if base == None {
      return Failed(UndefinedVariable(first.value.name));
    }
    var current := base.value;
    while iter.rest != []
      invariant EvalSteps(show, current, iter.rest) == EvalSteps(show, base.value, expr[1..])
      decreases |iter.rest|
    {
      ghost var ts := iter.rest;
      var t := iter.Next();
      match t {
        case Some(Punct('.')) =>
          var member := iter.Next();
          if member == None || !member.value.Ident? {
            return Failed(ExpectedFieldName(member));
          }
          var name := member.value.name;
          assert iter.rest == ts[2..];
          var next := iter.Peek();
          if next.Some? && next.value.Group? && next.value.delimiter == Parenthesis {
            var group := iter.Next();
            assert iter.rest == ts[3..];
            var result := EvalMethod(show, current, name, group.value.stream);
            if !result.Done? {
              return Interpolate(result);
            }
            current := result.value;
            continue;
          }
          var value := Member(current, name);
          if value == None {
            return Failed(NoField(name));
          }
          current := value.value;
        case Some(Group(Bracket, inside)) =>
          var result := IndexAt(show, current, inside);
          if !result.Done? {
            return Interpolate(result);
          }
          current := result.value;
        case Some(other) =>
          return Failed(UnexpectedToken(other));
        case None =>
          assert false;
      }
    }
    r := ToTokens(current);
  }
}
