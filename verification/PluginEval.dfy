/**
  The plugin template evaluator.  The source keeps a stack of context frames and
  looks up the innermost frame of each sort; the specification carries three
  independent slots and reads every directive as "expand the body once in each of
  these environments".
 */
module PluginEval {
  import opened Wrappers
  import opened Tokens

  // ---------------------------------------------------------------- the parsed type

  datatype RawName = NameIdent(name: string) | NameLiteral(index: nat)

  datatype PFacetAttr = PFacetAttr(ns: Option<string>, key: string, args: TokenStream)

  datatype PAttrs = PAttrs(doc: seq<string>, facet: seq<PFacetAttr>)

  datatype PStructField = PStructField(raw: RawName, ty: TokenStream, attrs: PAttrs)

  datatype PVariantKind =
    | UnitVariant
    | TupleVariant(fields: seq<PStructField>)
    | StructVariant(fields: seq<PStructField>)

  datatype PVariant = PVariant(raw: RawName, original: string, kind: PVariantKind, attrs: PAttrs)

  datatype PStructKind =
    | NamedStruct(fields: seq<PStructField>)
    | TupleStruct(fields: seq<PStructField>)
    | UnitStruct

  datatype Container = Container(
    name: string,
    genericsWithoutBounds: TokenStream,
    genericsWithBounds: TokenStream,
    whereClauses: Option<seq<TokenStream>>,
    attrs: PAttrs)

  datatype PType =
    | PStruct(container: Container, kind: PStructKind)
    | PEnum(container: Container, variants: seq<PVariant>)

  // ---------------------------------------------------------------- attribute queries

  datatype AttrQuery = AttrQuery(ns: string, key: string)

  function ParseQuery(tokens: TokenStream): Option<AttrQuery> {
    if |tokens| >= 4 && tokens[0].Ident? && tokens[1] == Punct(':') && tokens[2] == Punct(':') && tokens[3].Ident?
    then Some(AttrQuery(tokens[0].name, tokens[3].name))
    else None
  }

  predicate Matches(query: AttrQuery, attr: PFacetAttr) {
    attr.ns == Some(query.ns) && attr.key == query.key
  }

  function FindIn(query: AttrQuery, attrs: seq<PFacetAttr>): (r: Option<PFacetAttr>)
    ensures r.Some? ==> r.value in attrs && Matches(query, r.value)
    ensures r.None? ==> forall a :: a in attrs ==> !Matches(query, a)
  {
    if attrs == [] then None
    else if Matches(query, attrs[0]) then Some(attrs[0])
    else FindIn(query, attrs[1..])
  }

  // ---------------------------------------------------------------- environments

  /** The three slots a directive can see. */
  datatype Env = Env(
    ty: PType,
    variant: Option<PVariant>,
    field: Option<(PStructField, nat)>,
    attr: Option<PFacetAttr>)

  function VariantFields(kind: PVariantKind): Option<seq<PStructField>> {
    match kind
    case TupleVariant(fields) => Some(fields)
    case StructVariant(fields) => Some(fields)
    case UnitVariant => None
  }

  /** The variant's fields if there is a variant, the struct's otherwise. */
  function EnvFields(env: Env): Option<seq<PStructField>> {
    match env.variant
    case Some(v) => VariantFields(v.kind)
    case None =>
      match env.ty
      case PStruct(_, NamedStruct(fields)) => Some(fields)
      case PStruct(_, TupleStruct(fields)) => Some(fields)
      case _ => None
  }

  /** Field first, then variant, then container. */
  function EnvAttrs(env: Env): PAttrs {
    if env.field.Some? then env.field.value.0.attrs
    else if env.variant.Some? then env.variant.value.attrs
    else env.ty.container.attrs
  }

  /** The first field that has a matching attribute, with its index. */
  function FirstField(query: AttrQuery, fields: seq<PStructField>, from: nat): (r: Option<(PStructField, nat)>)
    requires from <= |fields|
    ensures r.Some? ==>
              && from <= r.value.1 < |fields| && r.value.0 == fields[r.value.1]
              && FindIn(query, r.value.0.attrs.facet).Some?
              && forall j :: from <= j < r.value.1 ==> FindIn(query, fields[j].attrs.facet).None?
    ensures r.None? ==> forall j :: from <= j < |fields| ==> FindIn(query, fields[j].attrs.facet).None?
    decreases |fields| - from
  {
    if from == |fields| then None
    else if FindIn(query, fields[from].attrs.facet).Some? then Some((fields[from], from))
    else FirstField(query, fields, from + 1)
  }

  // ---------------------------------------------------------------- what directives emit

  function Quoted(names: seq<TokenStream>): TokenStream {
    if names == [] then []
    else if |names| == 1 then names[0]
    else names[0] + [Punct(',')] + Quoted(names[1..])
  }

  function Numbered(i: nat): TokenTree {
    Ident("v" + Decimal(i))
  }

  function FieldName(f: PStructField, index: nat): TokenTree {
    match f.raw
    case NameIdent(name) => Ident(name)
    case NameLiteral(_) => Numbered(index)
  }

  function NamedFields(fields: seq<PStructField>): seq<PStructField> {
    if fields == [] then []
    else (if fields[0].raw.NameIdent? then [fields[0]] else []) + NamedFields(fields[1..])
  }

  const DEFAULT_CALL: TokenStream := [
    Punct(':'), Punct(':'), Ident("core"), Punct(':'), Punct(':'), Ident("default"),
    Punct(':'), Punct(':'), Ident("Default"), Punct(':'), Punct(':'), Ident("default"), Group(Parenthesis, [])]

  function BuiltinDefault(attrs: seq<PFacetAttr>): Option<PFacetAttr> {
    if attrs == [] then None
    else if attrs[0].ns.None? && attrs[0].key == "default" then Some(attrs[0])
    else BuiltinDefault(attrs[1..])
  }

  function DefaultTokens(f: PStructField): TokenStream {
    match BuiltinDefault(f.attrs.facet)
    case Some(attr) =>
      if attr.args == [] then DEFAULT_CALL
      else [Group(Parenthesis, attr.args), Punct('.'), Ident("try_into"), Group(Parenthesis, []),
            Punct('.'), Ident("expect"),
            Group(Parenthesis, [StringLiteral("facet-default: failed to convert default value to field type")])]
    case None => DEFAULT_CALL
  }

  function VariantPattern(kind: PVariantKind): TokenStream {
    match kind
    case UnitVariant => []
    case TupleVariant(fields) =>
      [Group(Parenthesis, Quoted(seq(|fields|, i requires 0 <= i < |fields| => [Numbered(i)])))]
    case StructVariant(fields) =>
      var named := NamedFields(fields);
      [Group(Brace, Quoted(seq(|named|, i requires 0 <= i < |named| => [FieldName(named[i], i)])))]
  }

  function VariantPatternOnly(kind: PVariantKind, query: AttrQuery): TokenStream {
    match kind
    case UnitVariant => []
    case TupleVariant(fields) =>
      [Group(Parenthesis, Quoted(seq(|fields|, i requires 0 <= i < |fields| =>
        if FindIn(query, fields[i].attrs.facet).Some? then [Numbered(i)] else [Ident("_")])))]
    case StructVariant(fields) =>
      var named := NamedFields(fields);
      [Group(Brace, Quoted(seq(|named|, i requires 0 <= i < |named| =>
        if FindIn(query, named[i].attrs.facet).Some? then [FieldName(named[i], i)]
        else [FieldName(named[i], i), Punct(':'), Ident("_")])))]
  }

  function VariantDefaults(kind: PVariantKind): TokenStream {
    match kind
    case UnitVariant => []
    case TupleVariant(fields) =>
      [Group(Parenthesis, Quoted(seq(|fields|, i requires 0 <= i < |fields| => DefaultTokens(fields[i]))))]
    case StructVariant(fields) =>
      var named := NamedFields(fields);
      [Group(Brace, Quoted(seq(|named|, i requires 0 <= i < |named| =>
        [FieldName(named[i], i), Punct(':')] + DefaultTokens(named[i]))))]
  }

  function FormatDocComment(v: PVariant): TokenStream {
    var doc := Trim(Join(v.attrs.doc, " "));
    var text := if doc == "" then v.original else doc;
    match v.kind
    case TupleVariant(fields) =>
      if Contains(text, "{0}")
      then [StringLiteral(text), Punct(',')] + Quoted(seq(|fields|, i requires 0 <= i < |fields| => [Numbered(i)]))
      else [StringLiteral(text)]
    case _ => [StringLiteral(text)]
  }

  function WhereClause(clauses: Option<seq<TokenStream>>): TokenStream {
    match clauses
    case Some(cs) => if cs == [] then [] else [Ident("where")] + Quoted(cs)
    case None => []
  }

  /** Directives without a body. */
  const EMITTERS: set<string> := {
    "Self", "GenericParams", "WhereClause", "variant_name", "variant_pattern", "field_name", "field_type",
    "field_expr", "attr_args", "doc", "field_default_expr", "variant_default_construction", "format_doc_comment"}

  function Emit(name: string, env: Env): TokenStream {
    match name
    case "Self" => [Ident(env.ty.container.name)] + env.ty.container.genericsWithoutBounds
    case "GenericParams" => env.ty.container.genericsWithBounds
    case "WhereClause" => WhereClause(env.ty.container.whereClauses)
    case "attr_args" => if env.attr.Some? then env.attr.value.args else []
    case "doc" =>
      var doc := Trim(Join(EnvAttrs(env).doc, " "));
      if doc == "" then [] else [StringLiteral(doc)]
    case _ =>
      if env.field.Some? && name == "field_type" then env.field.value.0.ty
      else if env.field.Some? && (name == "field_name" || name == "field_expr")
      then [FieldName(env.field.value.0, env.field.value.1)]
      else if env.field.Some? && name == "field_default_expr" then DefaultTokens(env.field.value.0)
      else if env.variant.Some? then VariantEmit(name, env.variant.value)
      else []
  }

  function VariantEmit(name: string, v: PVariant): TokenStream {
    match name
    case "variant_name" => if v.raw.NameIdent? then [Ident(v.raw.name)] else []
    case "variant_pattern" => VariantPattern(v.kind)
    case "variant_default_construction" => VariantDefaults(v.kind)
    case "format_doc_comment" => FormatDocComment(v)
    case _ => []
  }

  // ---------------------------------------------------------------- the environment semantics

  /** Directives with one group, the body. */
  const BLOCKS: set<string> := {
    "for_variant", "for_field", "if_struct", "if_enum", "if_unit_variant", "if_tuple_variant", "if_struct_variant"}

  /** Directives with two groups, an attribute query and the body. */
  const QUERY_BLOCKS: set<string> := {"if_attr", "if_field_attr", "if_any_field_attr"}

  /** The environments in which a block expands its body. */
  function Bindings(name: string, env: Env): seq<Env> {
    match name
    case "for_variant" =>
      (match env.ty
       case PEnum(_, vs) => seq(|vs|, i requires 0 <= i < |vs| => env.(variant := Some(vs[i])))
       case _ => [])
    case "for_field" =>
      (match EnvFields(env)
       case Some(fs) => seq(|fs|, i requires 0 <= i < |fs| => env.(field := Some((fs[i], i))))
       case None => [])
    case "if_struct" => if env.ty.PStruct? then [env] else []
    case "if_enum" => if env.ty.PEnum? then [env] else []
    case "if_unit_variant" => if env.variant.Some? && env.variant.value.kind.UnitVariant? then [env] else []
    case "if_tuple_variant" => if env.variant.Some? && env.variant.value.kind.TupleVariant? then [env] else []
    case "if_struct_variant" => if env.variant.Some? && env.variant.value.kind.StructVariant? then [env] else []
    case _ => []
  }

  function QueryBindings(name: string, query: AttrQuery, env: Env): seq<Env> {
    match name
    case "if_attr" =>
      (match FindIn(query, EnvAttrs(env).facet)
       case Some(a) => [env.(attr := Some(a))]
       case None => [])
    case "if_field_attr" =>
      if EnvFields(env).None? then [] else
      (match FirstField(query, EnvFields(env).value, 0)
       case Some(f) => [env.(field := Some(f), attr := FindIn(query, f.0.attrs.facet))]
       case None => [])
    case "if_any_field_attr" =>
      if EnvFields(env).Some? && FirstField(query, EnvFields(env).value, 0).Some? then [env] else []
    case _ => []
  }

  function Expand(ts: TokenStream, env: Env): TokenStream
    decreases Size(ts), 0
  {
    if ts == [] then [] else
    assert Size(ts) == TreeSize(ts[0]) + Size(ts[1..]);
    if ts[0] == Punct('@') then
      var (out, rest) := Directive(ts[1..], env);
      out + Expand(rest, env)
    else if ts[0].Group? then
      [Group(ts[0].delimiter, Expand(ts[0].stream, env))] + Expand(ts[1..], env)
    else
      [ts[0]] + Expand(ts[1..], env)
  }

  /** What the tokens after an `@` stand for, and the tokens that remain. */
  function Directive(ts: TokenStream, env: Env): (r: (TokenStream, TokenStream))
    ensures Size(r.1) <= Size(ts)
    decreases Size(ts), 2
  {
    if ts == [] then ([Punct('@')], [])
    else if !ts[0].Ident? then ([Punct('@'), ts[0]], ts[1..])
    else
      var name, args := ts[0].name, ts[1..];
      if name in EMITTERS then (Emit(name, env), args)
      else if name == "variant_pattern_only" then
        var (query, rest) := TakeGroup(args);
        (PatternOnly(query, env), rest)
      else if name in BLOCKS then
        var (body, rest) := TakeGroup(args);
        (if body.Some? then ExpandAll(body.value, Bindings(name, env)) else [], rest)
      else if name in QUERY_BLOCKS then
        var (q, rest1) := TakeGroup(args);
        if q.None? then ([], rest1) else
        var (body, rest) := TakeGroup(rest1);
        var query := ParseQuery(q.value);
        (if body.Some? && query.Some? then ExpandAll(body.value, QueryBindings(name, query.value, env)) else [], rest)
      else ([Punct('@'), ts[0]], args)
  }

  function PatternOnly(query: Option<TokenStream>, env: Env): TokenStream {
    if query.None? || ParseQuery(query.value).None? || env.variant.None? then []
    else VariantPatternOnly(env.variant.value.kind, ParseQuery(query.value).value)
  }

  /** The body once in each environment, in order. */
  function ExpandAll(body: TokenStream, envs: seq<Env>): TokenStream
    decreases Size(body), 1, |envs|
  {
    if envs == [] then [] else ExpandAll(body, envs[..|envs| - 1]) + Expand(body, envs[|envs| - 1])
  }

  // ---------------------------------------------------------------- the context stack

  datatype Frame =
    | VariantFrame(variant: PVariant)
    | FieldFrame(field: PStructField, index: nat)
    | AttrFrame(attr: PFacetAttr)

  /** `stack.iter().rev().find_map(..)`: the innermost frame of each sort. */
  function CurrentVariant(stack: seq<Frame>): Option<PVariant> {
    if stack == [] then None else
    match stack[|stack| - 1]
    case VariantFrame(v) => Some(v)
    case _ => CurrentVariant(stack[..|stack| - 1])
  }

  function CurrentField(stack: seq<Frame>): Option<(PStructField, nat)> {
    if stack == [] then None else
    match stack[|stack| - 1]
    case FieldFrame(f, i) => Some((f, i))
    case _ => CurrentField(stack[..|stack| - 1])
  }

  function CurrentAttr(stack: seq<Frame>): Option<PFacetAttr> {
    if stack == [] then None else
    match stack[|stack| - 1]
    case AttrFrame(a) => Some(a)
    case _ => CurrentAttr(stack[..|stack| - 1])
  }

  /** The slots a stack stands for. */
  function SlotsOf(ty: PType, stack: seq<Frame>): Env {
    Env(ty, CurrentVariant(stack), CurrentField(stack), CurrentAttr(stack))
  }

  /** Pushing a frame overwrites one slot and leaves the other two alone. */
  lemma PushSetsOneSlot(ty: PType, stack: seq<Frame>, frame: Frame)
    ensures var env := SlotsOf(ty, stack);
            SlotsOf(ty, stack + [frame]) ==
              match frame
              case VariantFrame(v) => env.(variant := Some(v))
              case FieldFrame(f, i) => env.(field := Some((f, i)))
              case AttrFrame(a) => env.(attr := Some(a))
  {
    assert (stack + [frame])[..|stack|] == stack;
  }

  class EvalContext {
    const parsedType: PType
    var stack: seq<Frame>

    constructor (parsedType: PType)
      ensures this.parsedType == parsedType && stack == []
    {
      this.parsedType := parsedType;
      stack := [];
    }

    method Push(frame: Frame)
      modifies this
      ensures stack == old(stack) + [frame]
    {
      stack := stack + [frame];
    }

    method Pop()
      modifies this
      ensures stack == if old(stack) == [] then [] else old(stack)[..|old(stack)| - 1]
    {
      if stack != [] {
        stack := stack[..|stack| - 1];
      }
    }

    function Slots(): Env
      reads this
    {
      SlotsOf(parsedType, stack)
    }

    method EvaluateWithContext(template: TokenStream) returns (output: TokenStream)
      modifies this
      ensures stack == old(stack)
      ensures output == Expand(template, Slots())
      decreases Size(template), 3
    {
      hide Directive, Expand, SlotsOf, Size;
      output := [];
      ExpandNothing(Slots());
      var iter := new TokenIter(template);
      ghost var env, was := Slots(), stack;
      while iter.rest != []
        invariant fresh(iter) && stack == was
        invariant Size(iter.rest) <= Size(template)
        invariant output + Expand(iter.rest, env) == Expand(template, env)
        decreases Size(iter.rest)
      {
        SizeSplit(iter.rest);
        ExpandCons(iter.rest, env);
        var tt := iter.Next();
        match tt.value {
          case Punct('@') =>
            var emitted := HandleDirective(iter);
            output := output + emitted;
          case Group(delimiter, stream) =>
            var inner := EvaluateWithContext(stream);
            output := output + [Group(delimiter, inner)];
          case other =>
            output := output + [other];
        }
      }
    }

    /** After an `@`: emit what the directive stands for, and consume its tokens. */
    method HandleDirective(iter: TokenIter) returns (emitted: TokenStream)
      modifies this, iter
      ensures stack == old(stack)
      ensures (emitted, iter.rest) == Directive(old(iter.rest), Slots())
      decreases Size(iter.rest), 4
    {
      hide Size, Expand, ExpandAll;
      ghost var tokens := iter.rest;
      if tokens != [] { SizeSplit(tokens); }
      var next := iter.Next();
      if next.None? {
        return [Punct('@')];
      }
      if !next.value.Ident? {
        return [Punct('@'), next.value];
      }
      var directive := next.value.name;
      if directive in EMITTERS {
        emitted := Emit(directive, Slots());
      } else if directive == "variant_pattern_only" {
        var query := iter.NextGroup();
        emitted := PatternOnly(query, Slots());
      } else if directive == "for_variant" {
        emitted := HandleForVariant(iter);
      } else if directive == "for_field" {
        emitted := HandleForField(iter);
      } else if directive == "if_attr" {
        emitted := HandleIfAttr(iter);
      } else if directive == "if_field_attr" {
        emitted := HandleIfFieldAttr(iter);
      } else if directive == "if_any_field_attr" {
        emitted := HandleIfAnyFieldAttr(iter);
      } else if directive in BLOCKS {
        emitted := HandleCondition(directive, iter);
      } else {
        emitted := [Punct('@'), next.value];
      }
    }

    method HandleForVariant(iter: TokenIter) returns (emitted: TokenStream)
      modifies this, iter
      ensures stack == old(stack)
      ensures var (body, rest) := TakeGroup(old(iter.rest));
              && iter.rest == rest
              && emitted == if body.Some? then ExpandAll(body.value, Bindings("for_variant", Slots())) else []
      decreases Size(iter.rest), 3
    {
      hide Size, Expand, Bindings;
      emitted := [];
      var body := iter.NextGroup();
      if body.None? {
        return;
      }
      if !parsedType.PEnum? {
        NoVariants(Slots());
        return;
      }
      ghost var was, after, envs := stack, iter.rest, Bindings("for_variant", Slots());
      VariantFrames(parsedType, stack);
      var variants := parsedType.variants;
      for i := 0 to |variants|
        invariant stack == was && iter.rest == after
        invariant emitted == ExpandAll(body.value, envs[..i])
      {
        hide ExpandAll, SlotsOf;
        ExpandAllSnoc(body.value, envs, i);
        Push(VariantFrame(variants[i]));
        var expanded := EvaluateWithContext(body.value);
        emitted := emitted + expanded;
        Pop();
      }
      assert envs[..|variants|] == envs;
    }

    method HandleForField(iter: TokenIter) returns (emitted: TokenStream)
      modifies this, iter
      ensures stack == old(stack)
      ensures var (body, rest) := TakeGroup(old(iter.rest));
              && iter.rest == rest
              && emitted == if body.Some? then ExpandAll(body.value, Bindings("for_field", Slots())) else []
      decreases Size(iter.rest), 3
    {
      hide Size, Expand, SlotsOf;
      emitted := [];
      var body := iter.NextGroup();
      if body.None? {
        return;
      }
      var current := EnvFields(Slots());
      if current.None? {
        return;
      }
      ghost var was, after, envs := stack, iter.rest, Bindings("for_field", Slots());
      FieldFrames(parsedType, stack);
      var fields := current.value;
      for i := 0 to |fields|
        invariant stack == was && iter.rest == after
        invariant emitted == ExpandAll(body.value, envs[..i])
      {
        hide Bindings, ExpandAll;
        ExpandAllSnoc(body.value, envs, i);
        Push(FieldFrame(fields[i], i));
        var expanded := EvaluateWithContext(body.value);
        emitted := emitted + expanded;
        Pop();
      }
      assert envs[..|fields|] == envs;
    }

    /** The two groups of a query block: the query if both are there and it parses, and the body. */
    method NextQueryAndBody(iter: TokenIter) returns (query: Option<AttrQuery>, body: TokenStream)
      modifies iter
      ensures var (q, rest1) := TakeGroup(old(iter.rest));
              if q.None? then query == None && iter.rest == rest1
              else
                var (b, rest) := TakeGroup(rest1);
                && iter.rest == rest
                && query == (if b.Some? then ParseQuery(q.value) else None)
                && (b.Some? ==> body == b.value && Size(body) < Size(old(iter.rest)))
    {
      query, body := None, [];
      var queryGroup := iter.NextGroup();
      if queryGroup.None? {
        return;
      }
      var bodyGroup := iter.NextGroup();
      if bodyGroup.None? {
        return;
      }
      query, body := ParseQuery(queryGroup.value), bodyGroup.value;
    }

    /** What a query block emits, given its name. */
    ghost predicate EmitsQueryBlock(name: string, tokens: TokenStream, env: Env, emitted: TokenStream, rest: TokenStream)
    {
      var (q, rest1) := TakeGroup(tokens);
      if q.None? then emitted == [] && rest == rest1 else
      var (body, rest2) := TakeGroup(rest1);
      var query := ParseQuery(q.value);
      && rest == rest2
      && emitted == if body.Some? && query.Some?
                    then ExpandAll(body.value, QueryBindings(name, query.value, env)) else []
    }

    method HandleIfAttr(iter: TokenIter) returns (emitted: TokenStream)
      modifies this, iter
      ensures stack == old(stack)
      ensures EmitsQueryBlock("if_attr", old(iter.rest), Slots(), emitted, iter.rest)
      decreases Size(iter.rest), 3
    {
      hide Size, Expand, SlotsOf;
      emitted := [];
      var query, body := NextQueryAndBody(iter);
      if query.None? {
        return;
      }
      ExpandNoneOrOne(body);
      var matched := FindIn(query.value, EnvAttrs(Slots()).facet);
      if matched.Some? {
        PushSetsOneSlot(parsedType, stack, AttrFrame(matched.value));
        Push(AttrFrame(matched.value));
        emitted := EvaluateWithContext(body);
        Pop();
      }
    }

    method HandleIfFieldAttr(iter: TokenIter) returns (emitted: TokenStream)
      modifies this, iter
      ensures stack == old(stack)
      ensures EmitsQueryBlock("if_field_attr", old(iter.rest), Slots(), emitted, iter.rest)
      decreases Size(iter.rest), 3
    {
      hide Size, Expand, SlotsOf;
      emitted := [];
      var query, body := NextQueryAndBody(iter);
      if query.None? {
        return;
      }
      ExpandNoneOrOne(body);
      var current := EnvFields(Slots());
      if current.None? {
        return;
      }
      var fields := current.value;
      ghost var was := stack;
      for index := 0 to |fields|
        invariant stack == was && emitted == []
        invariant FirstField(query.value, fields, 0) == FirstField(query.value, fields, index)
      {
        var matched := FindIn(query.value, fields[index].attrs.facet);
        if matched.Some? {
          PushSetsOneSlot(parsedType, stack, FieldFrame(fields[index], index));
          Push(FieldFrame(fields[index], index));
          PushSetsOneSlot(parsedType, stack, AttrFrame(matched.value));
          Push(AttrFrame(matched.value));
          emitted := EvaluateWithContext(body);
          Pop();
          Pop();
          assert stack == was;
          return;
        }
      }
    }

    method HandleIfAnyFieldAttr(iter: TokenIter) returns (emitted: TokenStream)
      modifies this, iter
      ensures stack == old(stack)
      ensures EmitsQueryBlock("if_any_field_attr", old(iter.rest), Slots(), emitted, iter.rest)
      decreases Size(iter.rest), 3
    {
      hide Size, Expand, SlotsOf;
      emitted := [];
      var query, body := NextQueryAndBody(iter);
      if query.None? {
        return;
      }
      ExpandNoneOrOne(body);
      var current := EnvFields(Slots());
      if current.None? {
        return;
      }
      var hasAny := exists i :: 0 <= i < |current.value| && FindIn(query.value, current.value[i].attrs.facet).Some?;
      if hasAny {
        emitted := EvaluateWithContext(body);
      }
    }

    /** The five conditionals without a query. */
    method HandleCondition(name: string, iter: TokenIter) returns (emitted: TokenStream)
      requires name in BLOCKS && name != "for_variant" && name != "for_field"
      modifies this, iter
      ensures stack == old(stack)
      ensures var (body, rest) := TakeGroup(old(iter.rest));
              && iter.rest == rest
              && emitted == if body.Some? then ExpandAll(body.value, Bindings(name, Slots())) else []
      decreases Size(iter.rest), 3
    {
      hide Size, Expand;
      emitted := [];
      var body := iter.NextGroup();
      if body.None? {
        return;
      }
      ExpandNoneOrOne(body.value);
      var variant := CurrentVariant(stack);
      var holds :=
        if name == "if_struct" then parsedType.PStruct?
        else if name == "if_enum" then parsedType.PEnum?
        else if variant.None? then false
        else if name == "if_unit_variant" then variant.value.kind.UnitVariant?
        else if name == "if_tuple_variant" then variant.value.kind.TupleVariant?
        else variant.value.kind.StructVariant?;
      if holds {
        emitted := EvaluateWithContext(body.value);
      }
    }
  }

  lemma ExpandNothing(env: Env)
    ensures Expand([], env) == []
  {
  }

  lemma ExpandCons(ts: TokenStream, env: Env)
    requires ts != []
    ensures Expand(ts, env) ==
            if ts[0] == Punct('@') then Directive(ts[1..], env).0 + Expand(Directive(ts[1..], env).1, env)
            else if ts[0].Group? then [Group(ts[0].delimiter, Expand(ts[0].stream, env))] + Expand(ts[1..], env)
            else [ts[0]] + Expand(ts[1..], env)
  {
  }

  /** Pushing the frame of iteration `i` gives the `i`th environment of the loop. */
  lemma VariantFrames(ty: PType, stack: seq<Frame>)
    requires ty.PEnum?
    ensures var envs := Bindings("for_variant", SlotsOf(ty, stack));
            && |envs| == |ty.variants|
            && forall i :: 0 <= i < |envs| ==> envs[i] == SlotsOf(ty, stack + [VariantFrame(ty.variants[i])])
  {
    forall i | 0 <= i < |ty.variants| {
      PushSetsOneSlot(ty, stack, VariantFrame(ty.variants[i]));
    }
  }

  lemma FieldFrames(ty: PType, stack: seq<Frame>)
    requires EnvFields(SlotsOf(ty, stack)).Some?
    ensures var fields := EnvFields(SlotsOf(ty, stack)).value;
            var envs := Bindings("for_field", SlotsOf(ty, stack));
            && |envs| == |fields|
            && forall i :: 0 <= i < |envs| ==> envs[i] == SlotsOf(ty, stack + [FieldFrame(fields[i], i)])
  {
    var fields := EnvFields(SlotsOf(ty, stack)).value;
    forall i | 0 <= i < |fields| {
      PushSetsOneSlot(ty, stack, FieldFrame(fields[i], i));
    }
  }

  lemma NoVariants(env: Env)
    requires !env.ty.PEnum?
    ensures Bindings("for_variant", env) == []
  {
  }

  lemma ExpandAllSnoc(body: TokenStream, envs: seq<Env>, i: nat)
    requires i < |envs|
    ensures ExpandAll(body, envs[..0]) == []
    ensures ExpandAll(body, envs[..i + 1]) == ExpandAll(body, envs[..i]) + Expand(body, envs[i])
  {
    assert envs[..i + 1][..i] == envs[..i];
  }

  lemma ExpandNoneOrOne(body: TokenStream)
    ensures ExpandAll(body, []) == []
    ensures forall env :: ExpandAll(body, [env]) == Expand(body, env)
  {
    forall env ensures ExpandAll(body, [env]) == Expand(body, env) {
      assert [env][..0] == [];
      assert ExpandAll(body, [env]) == [] + Expand(body, env);
    }
  }

  /** Expanding a plugin template against a type: nothing is bound at the start. */
  method EvaluateTemplate(template: TokenStream, parsedType: PType) returns (output: TokenStream)
    ensures output == Expand(template, Env(parsedType, None, None, None))
  {
    var ctx := new EvalContext(parsedType);
    output := ctx.EvaluateWithContext(template);
  }

  // ---------------------------------------------------------------- consequences

  predicate SameSort(a: Frame, b: Frame) {
    (a.VariantFrame? && b.VariantFrame?) || (a.FieldFrame? && b.FieldFrame?) || (a.AttrFrame? && b.AttrFrame?)
  }

  /** A frame is invisible below another one of its sort. */
  lemma {:induction false} Shadowed(ty: PType, below: seq<Frame>, frame: Frame, above: seq<Frame>, k: nat)
    requires k < |above| && SameSort(frame, above[k])
    ensures SlotsOf(ty, below + [frame] + above) == SlotsOf(ty, below + above)
    decreases |above|
  {
    var n := |above| - 1;
    var with, without := below + [frame] + above[..n], below + above[..n];
    assert below + [frame] + above == with + [above[n]] && below + above == without + [above[n]];
    PushSetsOneSlot(ty, with, above[n]);
    PushSetsOneSlot(ty, without, above[n]);
    if k < n {
      Shadowed(ty, below, frame, above[..n], k);
    } else {
      ShadowedByNext(ty, below, frame, above[..n]);
    }
  }

  /** A frame touches no slot but its own. */
  lemma {:induction false} ShadowedByNext(ty: PType, below: seq<Frame>, frame: Frame, above: seq<Frame>)
    ensures var a, b := SlotsOf(ty, below + [frame] + above), SlotsOf(ty, below + above);
            && (!frame.VariantFrame? ==> a.variant == b.variant)
            && (!frame.FieldFrame? ==> a.field == b.field)
            && (!frame.AttrFrame? ==> a.attr == b.attr)
    decreases |above|
  {
    if above == [] {
      assert below + [frame] + above == below + [frame] && below + above == below;
      PushSetsOneSlot(ty, below, frame);
    } else {
      var n := |above| - 1;
      var with, without := below + [frame] + above[..n], below + above[..n];
      assert below + [frame] + above == with + [above[n]] && below + above == without + [above[n]];
      PushSetsOneSlot(ty, with, above[n]);
      PushSetsOneSlot(ty, without, above[n]);
      ShadowedByNext(ty, below, frame, above[..n]);
    }
  }

  /** No token at any depth is `t`. */
  predicate Lacks(ts: TokenStream, t: TokenTree)
    decreases Size(ts)
  {
    ts == [] || (
      && ts[0] != t
      && (SizeSplit(ts); ts[0].Group? ==> Lacks(ts[0].stream, t))
      && Lacks(ts[1..], t))
  }

  /** A template without `@` at any depth is emitted as it stands. */
  lemma {:induction false} ExpandIdentity(ts: TokenStream, env: Env)
    requires Lacks(ts, Punct('@'))
    ensures Expand(ts, env) == ts
    decreases Size(ts)
  {
    if ts != [] {
      SizeSplit(ts);
      if ts[0].Group? { ExpandIdentity(ts[0].stream, env); }
      ExpandIdentity(ts[1..], env);
      assert [ts[0]] + ts[1..] == ts;
    }
  }

  /** Two lists of environments that differ at most in the attribute slot. */
  predicate SameButAttr(a: Env, b: Env) {
    a.ty == b.ty && a.variant == b.variant && a.field == b.field
  }

  predicate AllSameButAttr(a: seq<Env>, b: seq<Env>) {
    |a| == |b| && forall i :: 0 <= i < |a| ==> SameButAttr(a[i], b[i])
  }

  lemma BindingsSameButAttr(name: string, query: AttrQuery, a: Env, b: Env)
    requires SameButAttr(a, b)
    ensures AllSameButAttr(Bindings(name, a), Bindings(name, b))
    ensures AllSameButAttr(QueryBindings(name, query, a), QueryBindings(name, query, b))
  {
  }

  lemma LacksAfterGroup(ts: TokenStream, t: TokenTree)
    requires Lacks(ts, t)
    ensures var (stream, rest) := TakeGroup(ts);
            Lacks(rest, t) && (stream.Some? ==> Lacks(stream.value, t))
  {
  }

  lemma EmitIgnoresAttr(name: string, a: Env, b: Env)
    requires SameButAttr(a, b) && name != "attr_args"
    ensures Emit(name, a) == Emit(name, b)
  {
  }

  /** A template that never asks for `@attr_args` cannot tell which attribute matched. */
  lemma {:induction false} ExpandIgnoresAttr(ts: TokenStream, a: Env, b: Env)
    requires SameButAttr(a, b) && Lacks(ts, Ident("attr_args"))
    ensures Expand(ts, a) == Expand(ts, b)
    decreases Size(ts), 0
  {
    hide Directive;
    if ts != [] {
      SizeSplit(ts);
      if ts[0] == Punct('@') {
        DirectiveIgnoresAttr(ts[1..], a, b);
        ExpandIgnoresAttr(Directive(ts[1..], a).1, a, b);
      } else {
        if ts[0].Group? { ExpandIgnoresAttr(ts[0].stream, a, b); }
        ExpandIgnoresAttr(ts[1..], a, b);
      }
    }
  }

  lemma {:induction false} DirectiveIgnoresAttr(ts: TokenStream, a: Env, b: Env)
    requires SameButAttr(a, b) && Lacks(ts, Ident("attr_args"))
    ensures Directive(ts, a) == Directive(ts, b)
    ensures Lacks(Directive(ts, a).1, Ident("attr_args"))
    decreases Size(ts), 2
  {
    hide Size, Expand, ExpandAll, Emit, Bindings, QueryBindings, TakeGroup;
    var t := Ident("attr_args");
    if ts != [] && ts[0].Ident? {
      SizeSplit(ts);
      var name, args := ts[0].name, ts[1..];
      EmitIgnoresAttr(name, a, b);
      LacksAfterGroup(args, t);
      var (first, rest1) := TakeGroup(args);
      if name in BLOCKS && first.Some? {
        BindingsSameButAttr(name, AttrQuery("", ""), a, b);
        ExpandAllIgnoresAttr(first.value, Bindings(name, a), Bindings(name, b));
      } else if name in QUERY_BLOCKS && first.Some? {
        LacksAfterGroup(rest1, t);
        var (body, rest) := TakeGroup(rest1);
        var query := ParseQuery(first.value);
        if body.Some? && query.Some? {
          BindingsSameButAttr(name, query.value, a, b);
          ExpandAllIgnoresAttr(body.value, QueryBindings(name, query.value, a), QueryBindings(name, query.value, b));
        }
      }
    }
  }

  lemma {:induction false} ExpandAllIgnoresAttr(body: TokenStream, a: seq<Env>, b: seq<Env>)
    requires AllSameButAttr(a, b) && Lacks(body, Ident("attr_args"))
    ensures ExpandAll(body, a) == ExpandAll(body, b)
    decreases Size(body), 1, |a|
  {
    hide Expand, Lacks;
    if a != [] {
      var n := |a| - 1;
      ExpandAllIgnoresAttr(body, a[..n], b[..n]);
      ExpandIgnoresAttr(body, a[n], b[n]);
    }
  }
}
