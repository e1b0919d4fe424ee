/**
  What each plugin directive emits, in terms of the parsed type and of the variant,
  field and attribute in scope: whose attributes are asked, which fields and variants
  are visited and in which order, and when a conditional emits its body.
 */
module PluginLaws {
  import opened Wrappers
  import opened Tokens
  import opened PluginEval

  const AT: TokenTree := Punct('@')

  // ---------------------------------------------------------------- what is in scope

  /** The attributes and documentation of the innermost thing in scope: field, variant, type. */
  predicate Innermost(env: Env, attrs: PAttrs) {
    || (env.field.Some? && attrs == env.field.value.0.attrs)
    || (env.field.None? && env.variant.Some? && attrs == env.variant.value.attrs)
    || (env.field.None? && env.variant.None? && attrs == env.ty.container.attrs)
  }

  /** The fields in scope: those of the variant if there is one, of the struct otherwise. */
  predicate InScope(env: Env, fields: seq<PStructField>) {
    if env.variant.Some? then
      env.variant.value.kind == TupleVariant(fields) || env.variant.value.kind == StructVariant(fields)
    else
      env.ty.PStruct? && (env.ty.kind == NamedStruct(fields) || env.ty.kind == TupleStruct(fields))
  }

  /** A unit variant or struct, or an enum outside of its variants, has no fields in scope. */
  predicate NoFields(env: Env) {
    if env.variant.Some? then env.variant.value.kind.UnitVariant?
    else env.ty.PEnum? || env.ty.kind.UnitStruct?
  }

  /** `ns::key`, whatever follows. */
  predicate IsQuery(tokens: TokenStream, ns: string, key: string) {
    [Ident(ns), Punct(':'), Punct(':'), Ident(key)] <= tokens
  }

  predicate IsMatch(a: PFacetAttr, ns: string, key: string) {
    a.ns == Some(ns) && a.key == key
  }

  /** `facet[k]` is the first attribute with this namespace and key. */
  predicate IsFirstMatch(facet: seq<PFacetAttr>, ns: string, key: string, k: nat) {
    k < |facet| && IsMatch(facet[k], ns, key) && forall j :: 0 <= j < k ==> !IsMatch(facet[j], ns, key)
  }

  predicate NoMatch(facet: seq<PFacetAttr>, ns: string, key: string) {
    forall j :: 0 <= j < |facet| ==> !IsMatch(facet[j], ns, key)
  }

  function Concat(outs: seq<TokenStream>): TokenStream {
    if outs == [] then [] else Concat(outs[..|outs| - 1]) + outs[|outs| - 1]
  }

  // ---------------------------------------------------------------- finding attributes

  lemma {:induction false} FindsFirst(query: AttrQuery, facet: seq<PFacetAttr>, k: nat)
    requires IsFirstMatch(facet, query.ns, query.key, k)
    ensures FindIn(query, facet) == Some(facet[k])
    decreases k
  {
    if k > 0 {
      assert !IsMatch(facet[0], query.ns, query.key);
      forall j | 0 <= j < k - 1 ensures !IsMatch(facet[1..][j], query.ns, query.key) {
        assert facet[1..][j] == facet[j + 1];
      }
      FindsFirst(query, facet[1..], k - 1);
    }
  }

  lemma FindsNone(query: AttrQuery, facet: seq<PFacetAttr>)
    requires NoMatch(facet, query.ns, query.key)
    ensures FindIn(query, facet) == None
  {
  }

  lemma QueryParses(tokens: TokenStream, ns: string, key: string)
    ensures IsQuery(tokens, ns, key) ==> ParseQuery(tokens) == Some(AttrQuery(ns, key))
    ensures ParseQuery(tokens) == Some(AttrQuery(ns, key)) ==> IsQuery(tokens, ns, key)
  {
    var shape := [Ident(ns), Punct(':'), Punct(':'), Ident(key)];
    if IsQuery(tokens, ns, key) {
      assert forall i :: 0 <= i < 4 ==> tokens[i] == shape[i];
    }
    if ParseQuery(tokens) == Some(AttrQuery(ns, key)) {
      assert tokens[..4] == shape;
    }
  }

  // ---------------------------------------------------------------- one directive, then the rest

  lemma Blocks(name: string)
    requires name in BLOCKS
    ensures name !in EMITTERS && name != "variant_pattern_only"
  {
  }

  lemma QueryBlocks(name: string)
    requires name in QUERY_BLOCKS
    ensures name !in EMITTERS && name != "variant_pattern_only" && name !in BLOCKS
  {
  }

  lemma DirectiveFirst(name: string, args: TokenStream, rest: TokenStream, env: Env)
    ensures var ts := [AT, Ident(name)] + args + rest;
            && ts[1..] == [Ident(name)] + (args + rest)
            && Expand(ts, env) == Directive(ts[1..], env).0 + Expand(Directive(ts[1..], env).1, env)
  {
    var ts := [AT, Ident(name)] + args + rest;
    assert ts[1..] == [Ident(name)] + (args + rest);
    ExpandCons(ts, env);
  }

  lemma BlockExpands(name: string, delimiter: Delimiter, body: TokenStream, rest: TokenStream, env: Env)
    requires name in BLOCKS
    ensures Expand([AT, Ident(name)] + [Group(delimiter, body)] + rest, env)
         == ExpandAll(body, Bindings(name, env)) + Expand(rest, env)
  {
    hide Expand, ExpandAll, Bindings, Emit;
    Blocks(name);
    var args := [Group(delimiter, body)];
    DirectiveFirst(name, args, rest, env);
    var ts := [Ident(name)] + (args + rest);
    assert ts[1..] == args + rest && (args + rest)[1..] == rest;
  }

  lemma QueryBlockExpands(name: string, d: Delimiter, q: TokenStream, delimiter: Delimiter, body: TokenStream, rest: TokenStream, env: Env)
    requires name in QUERY_BLOCKS
    ensures Expand([AT, Ident(name)] + [Group(d, q), Group(delimiter, body)] + rest, env)
         == (if ParseQuery(q).Some? then ExpandAll(body, QueryBindings(name, ParseQuery(q).value, env)) else [])
            + Expand(rest, env)
  {
    hide Expand, ExpandAll, QueryBindings, Emit, ParseQuery;
    QueryBlocks(name);
    var args := [Group(d, q), Group(delimiter, body)];
    DirectiveFirst(name, args, rest, env);
    var ts := [Ident(name)] + (args + rest);
    assert ts[1..] == args + rest && (args + rest)[1..] == [Group(delimiter, body)] + rest;
    assert ([Group(delimiter, body)] + rest)[1..] == rest;
  }

  lemma OneBinding(body: TokenStream, env: Env)
    ensures ExpandAll(body, [env]) == Expand(body, env) && ExpandAll(body, []) == []
  {
    hide Expand;
    assert [env][..0] == [];
    assert [] + Expand(body, env) == Expand(body, env);
  }

  /** The body in each environment, one after the other. */
  lemma {:induction false} ManyBindings(body: TokenStream, envs: seq<Env>, outs: seq<TokenStream>)
    requires |outs| == |envs| && forall i :: 0 <= i < |envs| ==> outs[i] == Expand(body, envs[i])
    ensures ExpandAll(body, envs) == Concat(outs)
    decreases |envs|
  {
    hide Expand;
    if envs != [] {
      var n := |envs| - 1;
      ManyBindings(body, envs[..n], outs[..n]);
    }
  }

  // ---------------------------------------------------------------- the laws

  /**
    `@if_attr(ns::key) { body }` asks the innermost field, variant or type, and no other:
    it emits the body, with the first matching attribute bound, or nothing.
   */
  lemma IfAttrAsksInnermost(
    d: Delimiter, q: TokenStream, delimiter: Delimiter, body: TokenStream, rest: TokenStream, env: Env,
    ns: string, key: string, attrs: PAttrs)
    requires IsQuery(q, ns, key) && Innermost(env, attrs)
    ensures var out := Expand([AT, Ident("if_attr")] + [Group(d, q), Group(delimiter, body)] + rest, env);
            && (forall k: nat :: IsFirstMatch(attrs.facet, ns, key, k) ==>
                  out == Expand(body, env.(attr := Some(attrs.facet[k]))) + Expand(rest, env))
            && (NoMatch(attrs.facet, ns, key) ==> out == Expand(rest, env))
  {
    hide Expand, ExpandAll, ParseQuery, FindIn;
    QueryBlockExpands("if_attr", d, q, delimiter, body, rest, env);
    QueryParses(q, ns, key);
    var query := AttrQuery(ns, key);
    assert EnvAttrs(env) == attrs;
    forall k: nat | IsFirstMatch(attrs.facet, ns, key, k)
      ensures QueryBindings("if_attr", query, env) == [env.(attr := Some(attrs.facet[k]))]
    {
      FindsFirst(query, attrs.facet, k);
    }
    forall k: nat | IsFirstMatch(attrs.facet, ns, key, k)
      ensures ExpandAll(body, [env.(attr := Some(attrs.facet[k]))]) == Expand(body, env.(attr := Some(attrs.facet[k])))
    {
      OneBinding(body, env.(attr := Some(attrs.facet[k])));
    }
    if NoMatch(attrs.facet, ns, key) {
      FindsNone(query, attrs.facet);
      OneBinding(body, env);
      assert [] + Expand(rest, env) == Expand(rest, env);
    }
  }

  /**
    What `@doc` emits inside a field does not depend on the variant or the type, nor does
    inside a variant what it emits depend on the type; the same holds for whether
    `@if_attr` emits, and for the arguments of the attribute that it binds.
   */
  lemma OuterIsHidden(d: Delimiter, q: TokenStream, delimiter: Delimiter, a: Env, b: Env, ns: string, key: string)
    requires IsQuery(q, ns, key)
    requires a.field == b.field && (a.field.Some? || (a.variant == b.variant && a.variant.Some?))
    ensures Expand([AT, Ident("doc")], a) == Expand([AT, Ident("doc")], b)
    ensures var template := [AT, Ident("if_attr"), Group(d, q), Group(delimiter, [AT, Ident("attr_args")])];
            Expand(template, a) == Expand(template, b)
  {
    hide Expand;
    var attrs := if a.field.Some? then a.field.value.0.attrs else a.variant.value.attrs;
    var body := [AT, Ident("attr_args")];
    assert [AT, Ident("doc")] + [] == [AT, Ident("doc")];
    assert [AT, Ident("if_attr")] + [Group(d, q), Group(delimiter, body)] + []
        == [AT, Ident("if_attr"), Group(d, q), Group(delimiter, body)];
    DocIsInnermost([], a, attrs);
    DocIsInnermost([], b, attrs);
    ExpandNothing(a);
    ExpandNothing(b);
    var k := FirstMatchOrNone(attrs.facet, ns, key);
    IfAttrAsksInnermost(d, q, delimiter, body, [], a, ns, key, attrs);
    IfAttrAsksInnermost(d, q, delimiter, body, [], b, ns, key, attrs);
    if !NoMatch(attrs.facet, ns, key) {
      ArgsOf(a, attrs.facet[k]);
      ArgsOf(b, attrs.facet[k]);
    }
  }

  lemma ArgsOf(env: Env, attr: PFacetAttr)
    ensures Expand([AT, Ident("attr_args")], env.(attr := Some(attr))) == attr.args
  {
    hide Expand;
    var inner := env.(attr := Some(attr));
    EmitterExpands("attr_args", [], inner);
    ExpandNothing(inner);
    assert [AT, Ident("attr_args")] + [] == [AT, Ident("attr_args")] && attr.args + [] == attr.args;
  }

  lemma {:induction false} FirstMatchOrNone(facet: seq<PFacetAttr>, ns: string, key: string) returns (k: nat)
    ensures NoMatch(facet, ns, key) || IsFirstMatch(facet, ns, key, k)
  {
    k := 0;
    while k < |facet| && !IsMatch(facet[k], ns, key)
      invariant k <= |facet| && forall j :: 0 <= j < k ==> !IsMatch(facet[j], ns, key)
    {
      k := k + 1;
    }
  }

  /** `@doc` is the documentation of the innermost field, variant or type, trimmed, or nothing. */
  lemma DocIsInnermost(rest: TokenStream, env: Env, attrs: PAttrs)
    requires Innermost(env, attrs)
    ensures var out := Expand([AT, Ident("doc")] + rest, env);
            var doc := Trim(Join(attrs.doc, " "));
            out == (if doc == "" then [] else [StringLiteral(doc)]) + Expand(rest, env)
  {
    hide Expand, Trim, Join;
    DirectiveFirst("doc", [], rest, env);
    assert [AT, Ident("doc")] + [] + rest == [AT, Ident("doc")] + rest && [] + rest == rest;
    var ts := [Ident("doc")] + rest;
    assert ts[1..] == rest && "doc" in EMITTERS;
    assert EnvAttrs(env) == attrs;
  }

  /** `@for_field` visits the fields in scope, in order, each with its index. */
  lemma ForFieldVisits(delimiter: Delimiter, body: TokenStream, rest: TokenStream, env: Env, fields: seq<PStructField>, outs: seq<TokenStream>)
    requires |outs| == |fields|
    requires forall i :: 0 <= i < |fields| ==> outs[i] == Expand(body, env.(field := Some((fields[i], i))))
    ensures var out := Expand([AT, Ident("for_field")] + [Group(delimiter, body)] + rest, env);
            && (InScope(env, fields) ==> out == Concat(outs) + Expand(rest, env))
            && (NoFields(env) ==> out == Expand(rest, env))
  {
    hide Expand, ExpandAll;
    BlockExpands("for_field", delimiter, body, rest, env);
    FieldsAre(env, fields);
    if InScope(env, fields) {
      var envs := Bindings("for_field", env);
      ManyBindings(body, envs, outs);
    }
    OneBinding(body, env);
    assert [] + Expand(rest, env) == Expand(rest, env);
  }

  lemma FieldsAre(env: Env, fields: seq<PStructField>)
    ensures InScope(env, fields) ==> EnvFields(env) == Some(fields)
    ensures NoFields(env) ==> EnvFields(env) == None
  {
  }

  /** `@for_variant` visits every variant of an enum, in order, and nothing of a struct. */
  lemma ForVariantVisits(delimiter: Delimiter, body: TokenStream, rest: TokenStream, env: Env, outs: seq<TokenStream>)
    requires env.ty.PEnum? ==>
               && |outs| == |env.ty.variants|
               && forall i :: 0 <= i < |outs| ==> outs[i] == Expand(body, env.(variant := Some(env.ty.variants[i])))
    ensures var out := Expand([AT, Ident("for_variant")] + [Group(delimiter, body)] + rest, env);
            && (env.ty.PEnum? ==> out == Concat(outs) + Expand(rest, env))
            && (env.ty.PStruct? ==> out == Expand(rest, env))
  {
    hide Expand, ExpandAll;
    BlockExpands("for_variant", delimiter, body, rest, env);
    if env.ty.PEnum? {
      ManyBindings(body, Bindings("for_variant", env), outs);
    }
    OneBinding(body, env);
    assert [] + Expand(rest, env) == Expand(rest, env);
  }

  /** When each of the conditionals without a query emits. */
  predicate Holds(name: string, env: Env) {
    || (name == "if_struct" && env.ty.PStruct?)
    || (name == "if_enum" && env.ty.PEnum?)
    || (name == "if_unit_variant" && env.variant.Some? && env.variant.value.kind.UnitVariant?)
    || (name == "if_tuple_variant" && env.variant.Some? && env.variant.value.kind.TupleVariant?)
    || (name == "if_struct_variant" && env.variant.Some? && env.variant.value.kind.StructVariant?)
  }

  /** Each of the five emits its body, in the same scope, exactly when it holds. */
  lemma ConditionEmits(name: string, delimiter: Delimiter, body: TokenStream, rest: TokenStream, env: Env)
    requires name in {"if_struct", "if_enum", "if_unit_variant", "if_tuple_variant", "if_struct_variant"}
    ensures Expand([AT, Ident(name)] + [Group(delimiter, body)] + rest, env)
         == (if Holds(name, env) then Expand(body, env) else []) + Expand(rest, env)
  {
    hide Expand, ExpandAll;
    BlockExpands(name, delimiter, body, rest, env);
    OneBinding(body, env);
  }

  /** Field `i` is the first of the fields with a matching attribute. */
  predicate IsFirstField(fields: seq<PStructField>, ns: string, key: string, i: nat) {
    && i < |fields| && !NoMatch(fields[i].attrs.facet, ns, key)
    && forall j :: 0 <= j < i ==> NoMatch(fields[j].attrs.facet, ns, key)
  }

  predicate NoField(fields: seq<PStructField>, ns: string, key: string) {
    forall j :: 0 <= j < |fields| ==> NoMatch(fields[j].attrs.facet, ns, key)
  }

  lemma FirstFieldIs(query: AttrQuery, fields: seq<PStructField>, i: nat)
    ensures IsFirstField(fields, query.ns, query.key, i) ==> FirstField(query, fields, 0) == Some((fields[i], i))
    ensures NoField(fields, query.ns, query.key) ==> FirstField(query, fields, 0) == None
  {
    hide FindIn;
    var r := FirstField(query, fields, 0);
    forall j | 0 <= j < |fields| ensures FindIn(query, fields[j].attrs.facet).None? <==> NoMatch(fields[j].attrs.facet, query.ns, query.key) {
      FoundOrNot(query, fields[j].attrs.facet);
    }
    if IsFirstField(fields, query.ns, query.key, i) {
      assert FindIn(query, fields[i].attrs.facet).Some?;
      assert r.Some?;
      assert r.value.1 == i;
    }
  }

  lemma FoundOrNot(query: AttrQuery, facet: seq<PFacetAttr>)
    ensures FindIn(query, facet).None? <==> NoMatch(facet, query.ns, query.key)
  {
    if FindIn(query, facet).None? {
      forall j | 0 <= j < |facet| ensures !IsMatch(facet[j], query.ns, query.key) {
        assert facet[j] in facet;
      }
    } else if NoMatch(facet, query.ns, query.key) {
      FindsNone(query, facet);
    }
  }

  /**
    `@if_field_attr(ns::key) { body }` emits the body once, with the first field that has
    a match and its first match bound; `@if_any_field_attr` emits it unbound.
   */
  lemma FieldAttrFindsFirst(
    d: Delimiter, q: TokenStream, delimiter: Delimiter, body: TokenStream, rest: TokenStream, env: Env,
    ns: string, key: string, fields: seq<PStructField>, i: nat, k: nat)
    requires IsQuery(q, ns, key) && InScope(env, fields)
    requires IsFirstField(fields, ns, key, i) && IsFirstMatch(fields[i].attrs.facet, ns, key, k)
    ensures Expand([AT, Ident("if_field_attr")] + [Group(d, q), Group(delimiter, body)] + rest, env)
         == Expand(body, env.(field := Some((fields[i], i)), attr := Some(fields[i].attrs.facet[k]))) + Expand(rest, env)
    ensures Expand([AT, Ident("if_any_field_attr")] + [Group(d, q), Group(delimiter, body)] + rest, env)
         == Expand(body, env) + Expand(rest, env)
  {
    hide Expand, ExpandAll, ParseQuery, FindIn, FirstField;
    QueryBlockExpands("if_field_attr", d, q, delimiter, body, rest, env);
    QueryBlockExpands("if_any_field_attr", d, q, delimiter, body, rest, env);
    QueryParses(q, ns, key);
    FieldsAre(env, fields);
    var query := AttrQuery(ns, key);
    FirstFieldIs(query, fields, i);
    FindsFirst(query, fields[i].attrs.facet, k);
    var inner := env.(field := Some((fields[i], i)), attr := Some(fields[i].attrs.facet[k]));
    assert QueryBindings("if_field_attr", query, env) == [inner];
    OneBinding(body, env);
    OneBinding(body, inner);
  }

  /** Both emit nothing when no field has a match. */
  lemma FieldAttrFindsNone(
    d: Delimiter, q: TokenStream, delimiter: Delimiter, body: TokenStream, rest: TokenStream, env: Env,
    ns: string, key: string, fields: seq<PStructField>)
    requires IsQuery(q, ns, key) && InScope(env, fields) && NoField(fields, ns, key)
    ensures Expand([AT, Ident("if_field_attr")] + [Group(d, q), Group(delimiter, body)] + rest, env) == Expand(rest, env)
    ensures Expand([AT, Ident("if_any_field_attr")] + [Group(d, q), Group(delimiter, body)] + rest, env) == Expand(rest, env)
  {
    hide Expand, ExpandAll, ParseQuery, FindIn, FirstField;
    QueryBlockExpands("if_field_attr", d, q, delimiter, body, rest, env);
    QueryBlockExpands("if_any_field_attr", d, q, delimiter, body, rest, env);
    QueryParses(q, ns, key);
    FieldsAre(env, fields);
    FirstFieldIs(AttrQuery(ns, key), fields, 0);
    OneBinding(body, env);
    assert [] + Expand(rest, env) == Expand(rest, env);
  }

  /** A query block that is malformed, or asks for fields where there are none, emits nothing. */
  lemma QueryBlockNothing(
    name: string, d: Delimiter, q: TokenStream, delimiter: Delimiter, body: TokenStream, rest: TokenStream, env: Env)
    requires name in QUERY_BLOCKS
    requires (forall ns: string, key: string :: !IsQuery(q, ns, key)) || (name != "if_attr" && NoFields(env))
    ensures Expand([AT, Ident(name)] + [Group(d, q), Group(delimiter, body)] + rest, env) == Expand(rest, env)
  {
    hide Expand, ExpandAll, ParseQuery, FindIn;
    QueryBlockExpands(name, d, q, delimiter, body, rest, env);
    OneBinding(body, env);
    FieldsAre(env, []);
    assert [] + Expand(rest, env) == Expand(rest, env);
    if ParseQuery(q).Some? {
      var query := ParseQuery(q).value;
      QueryParses(q, query.ns, query.key);
      assert IsQuery(q, query.ns, query.key);
    }
  }

  // ---------------------------------------------------------------- directives without a body

  /** `ts` is the items, one after the other, with a comma between neighbours. */
  ghost predicate Listed(ts: TokenStream, items: seq<TokenStream>)
    decreases |items|
  {
    if items == [] then ts == []
    else if |items| == 1 then ts == items[0]
    else
      exists before: TokenStream ::
        ts == before + [Punct(',')] + items[|items| - 1] && Listed(before, items[..|items| - 1])
  }

  lemma {:induction false} QuotedSnoc(items: seq<TokenStream>, last: TokenStream)
    requires items != []
    ensures Quoted(items + [last]) == Quoted(items) + [Punct(',')] + last
    decreases |items|
  {
    var all := items + [last];
    assert all[0] == items[0] && all[1..] == items[1..] + [last];
    if |items| == 1 {
      assert items[1..] + [last] == [last];
    } else {
      QuotedSnoc(items[1..], last);
    }
  }

  lemma {:induction false} QuotedIsListed(items: seq<TokenStream>)
    ensures Listed(Quoted(items), items)
  {
    if |items| > 1 {
      var n := |items| - 1;
      QuotedIsListed(items[..n]);
      QuotedSnoc(items[..n], items[n]);
      assert items[..n] + [items[n]] == items;
    }
  }

  lemma EmitterExpands(name: string, rest: TokenStream, env: Env)
    requires name in EMITTERS
    ensures Expand([AT, Ident(name)] + rest, env) == Emit(name, env) + Expand(rest, env)
  {
    hide Expand, Emit;
    DirectiveFirst(name, [], rest, env);
    assert [AT, Ident(name)] + [] + rest == [AT, Ident(name)] + rest && [] + rest == rest && ([Ident(name)] + rest)[1..] == rest;
  }

  /** `named` are the fields that have a name, in order. */
  predicate AreNamed(fields: seq<PStructField>, named: seq<PStructField>)
    decreases |fields|
  {
    if fields == [] then named == []
    else
      var n, m := |fields| - 1, |named| - 1;
      if fields[n].raw.NameIdent? then named != [] && named[m] == fields[n] && AreNamed(fields[..n], named[..m])
      else AreNamed(fields[..n], named)
  }

  /** `::a::b::c()`. */
  function PathCall(names: seq<string>): TokenStream {
    if names == [] then [Group(Parenthesis, [])]
    else [Punct(':'), Punct(':'), Ident(names[0])] + PathCall(names[1..])
  }

  predicate IsBuiltinDefault(a: PFacetAttr) {
    a.ns == None && a.key == "default"
  }

  /** Attribute `k` is the first `default` without a namespace. */
  predicate IsFirstDefault(facet: seq<PFacetAttr>, k: nat) {
    k < |facet| && IsBuiltinDefault(facet[k]) && forall j :: 0 <= j < k ==> !IsBuiltinDefault(facet[j])
  }

  predicate NoDefault(facet: seq<PFacetAttr>) {
    forall j :: 0 <= j < |facet| ==> !IsBuiltinDefault(facet[j])
  }

  /** The value of the first builtin default, converted, or the default of the type. */
  ghost predicate DefaultFits(f: PStructField, ts: TokenStream) {
    var facet, call := f.attrs.facet, PathCall(["core", "default", "Default", "default"]);
    && (forall k: nat :: IsFirstDefault(facet, k) ==>
          if facet[k].args == [] then ts == call
          else |ts| == 7 && ts[0] == Group(Parenthesis, facet[k].args) && ts[1] == Punct('.') && ts[2] == Ident("try_into"))
    && (NoDefault(facet) ==> ts == call)
  }

  /** The name of tuple field `i` in patterns and expressions. */
  function Position(i: nat): TokenTree {
    Ident("v" + Decimal(i))
  }

  /** The names that bind the fields of a variant. */
  ghost predicate PatternFits(kind: PVariantKind, ts: TokenStream) {
    match kind
    case UnitVariant => ts == []
    case TupleVariant(fields) =>
      |ts| == 1 && ts[0].Group? && ts[0].delimiter == Parenthesis
      && exists items: seq<TokenStream> ::
           |items| == |fields| && (forall i :: 0 <= i < |items| ==> items[i] == [Position(i)]) && Listed(ts[0].stream, items)
    case StructVariant(fields) =>
      |ts| == 1 && ts[0].Group? && ts[0].delimiter == Brace
      && exists named: seq<PStructField>, items: seq<TokenStream> ::
           && AreNamed(fields, named) && |items| == |named| && Listed(ts[0].stream, items)
           && forall j :: 0 <= j < |items| ==> named[j].raw.NameIdent? && items[j] == [Ident(named[j].raw.name)]
  }

  /** The construction of a variant from the defaults of its fields. */
  ghost predicate ConstructionFits(kind: PVariantKind, ts: TokenStream) {
    match kind
    case UnitVariant => ts == []
    case TupleVariant(fields) =>
      |ts| == 1 && ts[0].Group? && ts[0].delimiter == Parenthesis
      && exists items: seq<TokenStream> ::
           |items| == |fields| && (forall i :: 0 <= i < |items| ==> DefaultFits(fields[i], items[i])) && Listed(ts[0].stream, items)
    case StructVariant(fields) =>
      |ts| == 1 && ts[0].Group? && ts[0].delimiter == Brace
      && exists named: seq<PStructField>, items: seq<TokenStream> ::
           && AreNamed(fields, named) && |items| == |named| && Listed(ts[0].stream, items)
           && forall j :: 0 <= j < |items| ==> InitFits(named[j], items[j])
  }

  ghost predicate InitFits(f: PStructField, ts: TokenStream) {
    f.raw.NameIdent? && |ts| >= 2 && ts[0] == Ident(f.raw.name) && ts[1] == Punct(':') && DefaultFits(f, ts[2..])
  }

  /** `needle` occurs in `s`. */
  ghost predicate Occurs(needle: string, s: string) {
    exists i :: 0 <= i <= |s| && needle <= s[i..]
  }

  /** The documentation or the original name as a format string, with the positions of a tuple's fields if it asks for them. */
  ghost predicate DocCommentFits(v: PVariant, ts: TokenStream) {
    var doc := Trim(Join(v.attrs.doc, " "));
    var text := if doc == "" then v.original else doc;
    if v.kind.TupleVariant? && Occurs("{0}", text) then
      |ts| >= 2 && ts[0] == StringLiteral(text) && ts[1] == Punct(',') && Positions(ts[2..], |v.kind.fields|)
    else ts == [StringLiteral(text)]
  }

  ghost predicate Positions(ts: TokenStream, n: nat) {
    exists items: seq<TokenStream> ::
      |items| == n && (forall i :: 0 <= i < n ==> items[i] == [Position(i)]) && Listed(ts, items)
  }

  /** A pattern that binds the fields with a match, and ignores the others. */
  ghost predicate PatternOnlyFits(kind: PVariantKind, ns: string, key: string, ts: TokenStream) {
    match kind
    case UnitVariant => ts == []
    case TupleVariant(fields) =>
      |ts| == 1 && ts[0].Group? && ts[0].delimiter == Parenthesis
      && exists items: seq<TokenStream> ::
           && |items| == |fields| && Listed(ts[0].stream, items)
           && forall i :: 0 <= i < |items| ==>
                items[i] == if NoMatch(fields[i].attrs.facet, ns, key) then [Ident("_")] else [Position(i)]
    case StructVariant(fields) =>
      |ts| == 1 && ts[0].Group? && ts[0].delimiter == Brace
      && exists named: seq<PStructField>, items: seq<TokenStream> ::
           && AreNamed(fields, named) && |items| == |named| && Listed(ts[0].stream, items)
           && forall j :: 0 <= j < |items| ==> BindingFits(named[j], ns, key, items[j])
  }

  predicate BindingFits(f: PStructField, ns: string, key: string, ts: TokenStream) {
    f.raw.NameIdent?
    && ts == if NoMatch(f.attrs.facet, ns, key) then [Ident(f.raw.name), Punct(':'), Ident("_")] else [Ident(f.raw.name)]
  }

  /** The name of the field in scope: its own, or its position. */
  predicate FieldNameFits(env: Env, ts: TokenStream) {
    if env.field.None? then ts == []
    else if env.field.value.0.raw.NameIdent? then ts == [Ident(env.field.value.0.raw.name)]
    else ts == [Position(env.field.value.1)]
  }

  /** What a directive without a body emits, from what is in scope. */
  ghost predicate EmitFits(name: string, env: Env, ts: TokenStream) {
    var c := env.ty.container;
    && (name == "Self" ==> ts == [Ident(c.name)] + c.genericsWithoutBounds)
    && (name == "GenericParams" ==> ts == c.genericsWithBounds)
    && (name == "WhereClause" ==>
          if c.whereClauses.None? || c.whereClauses.value == [] then ts == []
          else ts != [] && ts[0] == Ident("where") && Listed(ts[1..], c.whereClauses.value))
    && (name == "attr_args" ==> ts == if env.attr.Some? then env.attr.value.args else [])
    && (name == "field_name" || name == "field_expr" ==> FieldNameFits(env, ts))
    && (name == "field_type" ==> ts == if env.field.Some? then env.field.value.0.ty else [])
    && (name == "field_default_expr" ==> if env.field.Some? then DefaultFits(env.field.value.0, ts) else ts == [])
    && (name == "variant_name" ==>
          ts == if env.variant.Some? && env.variant.value.raw.NameIdent? then [Ident(env.variant.value.raw.name)] else [])
    && (name == "variant_pattern" ==> if env.variant.Some? then PatternFits(env.variant.value.kind, ts) else ts == [])
    && (name == "variant_default_construction" ==>
          if env.variant.Some? then ConstructionFits(env.variant.value.kind, ts) else ts == [])
    && (name == "format_doc_comment" ==> if env.variant.Some? then DocCommentFits(env.variant.value, ts) else ts == [])
  }

  lemma NamedFirst(f: PStructField, rest: seq<PStructField>)
    ensures NamedFields([f] + rest) == (if f.raw.NameIdent? then [f] else []) + NamedFields(rest)
    ensures NamedFields([]) == []
  {
    assert ([f] + rest)[1..] == rest;
  }

  lemma {:induction false} NamedSnoc(fields: seq<PStructField>, last: PStructField)
    ensures NamedFields(fields + [last]) == NamedFields(fields) + if last.raw.NameIdent? then [last] else []
    decreases |fields|
  {
    hide NamedFields;
    var end := if last.raw.NameIdent? then [last] else [];
    if fields == [] {
      NamedFirst(last, []);
      assert [] + [last] == [last] + [] && end + [] == [] + end;
    } else {
      var f, rest := fields[0], fields[1..];
      NamedSnoc(rest, last);
      NamedFirst(f, rest);
      NamedFirst(f, rest + [last]);
      assert fields == [f] + rest && fields + [last] == [f] + (rest + [last]);
      var first := if f.raw.NameIdent? then [f] else [];
      assert first + (NamedFields(rest) + end) == first + NamedFields(rest) + end;
    }
  }

  lemma {:induction false} NamedAre(fields: seq<PStructField>)
    ensures AreNamed(fields, NamedFields(fields))
    ensures forall j :: 0 <= j < |NamedFields(fields)| ==> NamedFields(fields)[j].raw.NameIdent?
    decreases |fields|
  {
    hide NamedFields;
    if fields == [] {
      NoneNamed();
    } else {
      var n := |fields| - 1;
      NamedAre(fields[..n]);
      NamedSnoc(fields[..n], fields[n]);
      assert fields == fields[..n] + [fields[n]];
      var before := NamedFields(fields[..n]);
      assert (before + [fields[n]])[..|before|] == before && before + [] == before;
    }
  }

  lemma NoneNamed()
    ensures NamedFields([]) == []
  {
  }

  lemma {:induction false} BuiltinIsFirst(facet: seq<PFacetAttr>, k: nat)
    ensures IsFirstDefault(facet, k) ==> BuiltinDefault(facet) == Some(facet[k])
    ensures NoDefault(facet) ==> BuiltinDefault(facet) == None
    decreases |facet|
  {
    if facet != [] {
      assert forall j :: 0 <= j < |facet| - 1 ==> facet[1..][j] == facet[j + 1];
      BuiltinIsFirst(facet[1..], if k > 0 then k - 1 else 0);
      if IsFirstDefault(facet, k) && k > 0 {
        assert IsFirstDefault(facet[1..], k - 1);
      }
    }
  }

  lemma DefaultCall()
    ensures PathCall(["core", "default", "Default", "default"]) == DEFAULT_CALL
  {
    var names := ["core", "default", "Default", "default"];
    assert names[1..] == ["default", "Default", "default"] && names[1..][1..] == ["Default", "default"];
    assert names[1..][1..][1..] == ["default"] && names[1..][1..][1..][1..] == [];
    assert PathCall([]) == [Group(Parenthesis, [])];
  }

  lemma DefaultTokensFit(f: PStructField)
    ensures DefaultFits(f, DefaultTokens(f))
  {
    hide PathCall, BuiltinDefault;
    DefaultCall();
    forall k: nat ensures IsFirstDefault(f.attrs.facet, k) ==> BuiltinDefault(f.attrs.facet) == Some(f.attrs.facet[k]) {
      BuiltinIsFirst(f.attrs.facet, k);
    }
    BuiltinIsFirst(f.attrs.facet, 0);
  }

  lemma PatternIs(kind: PVariantKind)
    ensures PatternFits(kind, VariantPattern(kind))
  {
    hide PatternFits, VariantPattern;
    if kind.TupleVariant? {
      TuplePatternIs(kind);
    } else {
      StructPatternIs(kind);
    }
  }

  lemma TuplePatternIs(kind: PVariantKind)
    requires kind.TupleVariant?
    ensures PatternFits(kind, VariantPattern(kind))
  {
    hide Listed, PluginEval.Quoted, Decimal;
    var n := |kind.fields|;
    var items := seq(n, i requires 0 <= i < n => [Numbered(i)]);
    QuotedIsListed(items);
    assert VariantPattern(kind)[0].stream == PluginEval.Quoted(items);
  }

  lemma StructPatternIs(kind: PVariantKind)
    requires !kind.TupleVariant?
    ensures PatternFits(kind, VariantPattern(kind))
  {
    hide Listed, PluginEval.Quoted, NamedFields, AreNamed, Decimal;
    if kind.StructVariant? {
      var named := NamedFields(kind.fields);
      NamedAre(kind.fields);
      var items := seq(|named|, i requires 0 <= i < |named| => [FieldName(named[i], i)]);
      QuotedIsListed(items);
      assert VariantPattern(kind)[0].stream == PluginEval.Quoted(items);
    }
  }

  lemma ConstructionIs(kind: PVariantKind)
    ensures ConstructionFits(kind, VariantDefaults(kind))
  {
    hide Listed, PluginEval.Quoted, NamedFields, AreNamed, DefaultFits, DefaultTokens;
    match kind {
      case UnitVariant =>
      case TupleVariant(fields) =>
        var items := seq(|fields|, i requires 0 <= i < |fields| => DefaultTokens(fields[i]));
        QuotedIsListed(items);
        forall i | 0 <= i < |items| ensures DefaultFits(fields[i], items[i]) { DefaultTokensFit(fields[i]); }
        assert VariantDefaults(kind)[0].stream == PluginEval.Quoted(items);
      case StructVariant(fields) =>
        var named := NamedFields(fields);
        NamedAre(fields);
        var items := seq(|named|, i requires 0 <= i < |named| => [FieldName(named[i], i), Punct(':')] + DefaultTokens(named[i]));
        QuotedIsListed(items);
        forall j | 0 <= j < |items| ensures InitFits(named[j], items[j]) {
          DefaultTokensFit(named[j]);
          assert items[j][2..] == DefaultTokens(named[j]);
        }
        assert VariantDefaults(kind)[0].stream == PluginEval.Quoted(items);
    }
  }

  lemma {:induction false} ContainsIs(s: string, needle: string)
    ensures Contains(s, needle) <==> Occurs(needle, s)
    decreases |s|
  {
    assert s[0..] == s;
    if s != "" {
      ContainsIs(s[1..], needle);
      if i :| 0 <= i <= |s| && needle <= s[i..] {
        if i > 0 { assert s[1..][i - 1..] == s[i..]; }
      }
      if i :| 0 <= i <= |s[1..]| && needle <= s[1..][i..] {
        assert s[i + 1..] == s[1..][i..];
      }
    }
  }

  lemma DocCommentIs(v: PVariant)
    ensures DocCommentFits(v, FormatDocComment(v))
  {
    hide Listed, PluginEval.Quoted, Contains, Occurs, Trim, Join;
    var doc := Trim(Join(v.attrs.doc, " "));
    var text := if doc == "" then v.original else doc;
    ContainsIs(text, "{0}");
    if v.kind.TupleVariant? && Contains(text, "{0}") {
      var n := |v.kind.fields|;
      var items := seq(n, i requires 0 <= i < n => [Numbered(i)]);
      QuotedIsListed(items);
      assert FormatDocComment(v) == [StringLiteral(text), Punct(',')] + PluginEval.Quoted(items);
      assert FormatDocComment(v)[2..] == PluginEval.Quoted(items);
    }
  }

  lemma PatternOnlyIs(kind: PVariantKind, query: AttrQuery)
    ensures PatternOnlyFits(kind, query.ns, query.key, VariantPatternOnly(kind, query))
  {
    hide Listed, PluginEval.Quoted, NamedFields, AreNamed, FindIn, NoMatch, Decimal;
    match kind {
      case UnitVariant =>
      case TupleVariant(fields) =>
        forall i | 0 <= i < |fields| ensures FindIn(query, fields[i].attrs.facet).None? <==> NoMatch(fields[i].attrs.facet, query.ns, query.key) {
          FoundOrNot(query, fields[i].attrs.facet);
        }
        var items := seq(|fields|, i requires 0 <= i < |fields| =>
          if FindIn(query, fields[i].attrs.facet).Some? then [Numbered(i)] else [Ident("_")]);
        QuotedIsListed(items);
        assert VariantPatternOnly(kind, query)[0].stream == PluginEval.Quoted(items);
      case StructVariant(fields) =>
        var named := NamedFields(fields);
        NamedAre(fields);
        forall i | 0 <= i < |named| ensures FindIn(query, named[i].attrs.facet).None? <==> NoMatch(named[i].attrs.facet, query.ns, query.key) {
          FoundOrNot(query, named[i].attrs.facet);
        }
        var items := seq(|named|, i requires 0 <= i < |named| =>
          if FindIn(query, named[i].attrs.facet).Some? then [FieldName(named[i], i)]
          else [FieldName(named[i], i), Punct(':'), Ident("_")]);
        QuotedIsListed(items);
        assert VariantPatternOnly(kind, query)[0].stream == PluginEval.Quoted(items);
    }
  }

  /** `@variant_pattern_only(ns::key)` emits the pattern of the variant in scope, if there is one. */
  lemma PatternOnlyEmits(d: Delimiter, q: TokenStream, rest: TokenStream, env: Env, ns: string, key: string) returns (emitted: TokenStream)
    requires IsQuery(q, ns, key)
    ensures Expand([AT, Ident("variant_pattern_only")] + [Group(d, q)] + rest, env) == emitted + Expand(rest, env)
    ensures if env.variant.Some? then PatternOnlyFits(env.variant.value.kind, ns, key, emitted) else emitted == []
  {
    hide Expand, ParseQuery, PatternOnlyFits, VariantPatternOnly;
    var args := [Group(d, q)];
    DirectiveFirst("variant_pattern_only", args, rest, env);
    QueryParses(q, ns, key);
    var ts := [Ident("variant_pattern_only")] + (args + rest);
    assert ts[1..] == args + rest && (args + rest)[1..] == rest;
    emitted := PatternOnly(Some(q), env);
    if env.variant.Some? { PatternOnlyIs(env.variant.value.kind, AttrQuery(ns, key)); }
  }

  /** A directive without a body emits what fits, and the rest of the template follows. */
  lemma EmitterEmits(name: string, rest: TokenStream, env: Env) returns (emitted: TokenStream)
    requires name in EMITTERS
    ensures Expand([AT, Ident(name)] + rest, env) == emitted + Expand(rest, env) && EmitFits(name, env, emitted)
  {
    hide Expand, Listed, PluginEval.Quoted, DefaultFits, DefaultTokens, PatternFits, VariantPattern, ConstructionFits, VariantDefaults, FormatDocComment, DocCommentFits;
    EmitterExpands(name, rest, env);
    emitted := Emit(name, env);
    if env.ty.container.whereClauses.Some? {
      QuotedIsListed(env.ty.container.whereClauses.value);
    }
    if env.field.Some? { DefaultTokensFit(env.field.value.0); }
    if env.variant.Some? {
      PatternIs(env.variant.value.kind);
      ConstructionIs(env.variant.value.kind);
      DocCommentIs(env.variant.value);
    }
  }
}
