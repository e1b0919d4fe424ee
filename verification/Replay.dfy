/**
  Replaying a recorded path against a shape: the strict navigator of
  `resolve_leaf_field`, the lenient one of `format_with_shape`, and their
  agreement with the walk that emits the paths.
 */
module Replay {
  import opened Wrappers
  import opened Shapes
  import opened Walk
  import opened WalkTheory
  import opened Tokens

  // ---------------------------------------------------------------- accessors

  function GetFieldWithVariant(shape: Shape, idx: nat, variantIdx: Option<nat>): Option<Field> {
    match shape.ty
    case TyStruct(st) => if idx < |st.fields| then Some(st.fields[idx]) else None
    case TyEnum(vs) =>
      if variantIdx.None? || variantIdx.value >= |vs| then None else
      var fields := vs[variantIdx.value].data.fields;
      if idx < |fields| then Some(fields[idx]) else None
    case _ => None
  }

  function GetVariantName(shape: Shape, idx: nat): Option<string> {
    match shape.ty
    case TyEnum(vs) => if idx < |vs| then Some(vs[idx].name) else None
    case _ => None
  }

  function GetElementShape(shape: Shape): Option<Id> {
    match shape.def
    case DefList(t) => Some(t)
    case DefArray(t, _) => Some(t)
    case DefSlice(t) => Some(t)
    case _ => None
  }

  function GetMapKeyShape(shape: Shape): Option<Id> {
    match shape.def
    case DefMap(k, _) => Some(k)
    case _ => None
  }

  function GetMapValueShape(shape: Shape): Option<Id> {
    match shape.def
    case DefMap(_, v) => Some(v)
    case _ => None
  }

  function GetOptionInnerShape(shape: Shape): Option<Id> {
    match shape.def
    case DefOption(t) => Some(t)
    case _ => None
  }

  function GetPointerInnerShape(shape: Shape): Option<Id> {
    match shape.def
    case DefPointer(p) => p
    case _ => None
  }

  // ---------------------------------------------------------------- navigation

  /** The loop state of both navigators: current shape, and the variant chosen by the last step. */
  datatype Cursor = Cursor(shape: Id, variant: Option<nat>)

  /** Where a step other than `Variant` leads. */
  function StepTarget(shape: Shape, variant: Option<nat>, step: Step): Option<Id> {
    match step
    case StepField(i) =>
      (match GetFieldWithVariant(shape, i, variant) case Some(f) => Some(f.shape) case None => None)
    case StepIndex(_) => GetElementShape(shape)
    case StepVariant(_) => None
    case StepMapKey(_) => GetMapKeyShape(shape)
    case StepMapValue(_) => GetMapValueShape(shape)
    case StepOptionSome => GetOptionInnerShape(shape)
    case StepDeref => GetPointerInnerShape(shape)
    case StepInner => shape.inner
    case StepProxy => shape.proxy
  }

  lemma TargetClosed(g: Graph, c: Cursor, step: Step)
    requires Closed(g) && c.shape in g
    ensures var t := StepTarget(g[c.shape], c.variant, step);
            t.Some? ==> t.value in g
  {
    assert ShapeClosed(g, c.shape);
  }

  /** One step that must lead somewhere. */
  function StrictStep(g: Graph, c: Cursor, step: Step): Option<Cursor>
    requires c.shape in g
  {
    if step.StepVariant? then Some(Cursor(c.shape, Some(step.i))) else
    match StepTarget(g[c.shape], c.variant, step)
    case Some(t) => Some(Cursor(t, None))
    case None => None
  }

  /** One step that stays where it is when it leads nowhere. */
  function LenientStep(g: Graph, c: Cursor, step: Step): Cursor
    requires c.shape in g
  {
    match StrictStep(g, c, step)
    case Some(c1) => c1
    case None => Cursor(c.shape, None)
  }

  ghost function Navigate(g: Graph, c: Cursor, steps: Path): (r: Option<Cursor>)
    requires Closed(g) && c.shape in g
    ensures r.Some? ==> r.value.shape in g
    decreases |steps|
  {
    if steps == [] then Some(c) else
    TargetClosed(g, c, steps[0]);
    match StrictStep(g, c, steps[0])
    case Some(c1) => Navigate(g, c1, steps[1..])
    case None => None
  }

  ghost function NavigateLeniently(g: Graph, c: Cursor, steps: Path): Cursor
    requires Closed(g) && c.shape in g
    decreases |steps|
  {
    if steps == [] then c else
    TargetClosed(g, c, steps[0]);
    NavigateLeniently(g, LenientStep(g, c, steps[0]), steps[1..])
  }

  lemma {:induction false} NavigateAppend(g: Graph, c: Cursor, a: Path, b: Path)
    requires Closed(g) && c.shape in g
    ensures Navigate(g, c, a + b) ==
            match Navigate(g, c, a) case Some(c1) => Navigate(g, c1, b) case None => None
    decreases |a|
  {
    if a == [] {
      assert a + b == b;
    } else {
      assert (a + b)[0] == a[0] && (a + b)[1..] == a[1..] + b;
      TargetClosed(g, c, a[0]);
      var next := StrictStep(g, c, a[0]);
      if next.Some? { NavigateAppend(g, next.value, a[1..], b); }
    }
  }

  /** The lenient navigator tracks the strict one for as long as that one succeeds. */
  lemma {:induction false} LenientTracksStrict(g: Graph, c: Cursor, steps: Path)
    requires Closed(g) && c.shape in g && Navigate(g, c, steps).Some?
    ensures NavigateLeniently(g, c, steps) == Navigate(g, c, steps).value
    decreases |steps|
  {
    if steps != [] {
      TargetClosed(g, c, steps[0]);
      LenientTracksStrict(g, LenientStep(g, c, steps[0]), steps[1..]);
    }
  }

  /** The field named by the last step of a path, if it is a field step. */
  function LastField(shape: Shape, last: Step, variant: Option<nat>): Option<Field> {
    if last.StepField? then GetFieldWithVariant(shape, last.i, variant) else None
  }

  /** The field a path ends at: all other steps must lead somewhere. */
  ghost function LeafField(g: Graph, root: Id, steps: Path): Option<Field>
    requires Closed(g) && root in g
  {
    if steps == [] then None else
    var before := Navigate(g, Cursor(root, None), steps[..|steps| - 1]);
    match before
    case Some(c) => LastField(g[c.shape], steps[|steps| - 1], c.variant)
    case None => None
  }

  method ResolveLeafField(g: Graph, steps: Path, shape: Id) returns (field: Option<Field>)
    requires Closed(g) && shape in g
    ensures field == LeafField(g, shape, steps)
  {
    if steps == [] {
      return None;
    }
    var currentShape, currentVariant := shape, None;
    var last := |steps| - 1;
    for i := 0 to last
      invariant currentShape in g
      invariant Navigate(g, Cursor(shape, None), steps[..i]) == Some(Cursor(currentShape, currentVariant))
    {
      ghost var c := Cursor(currentShape, currentVariant);
      NavigateAppend(g, Cursor(shape, None), steps[..i], [steps[i]]);
      NavigateAppend(g, Cursor(shape, None), steps[..i + 1], steps[i + 1..last]);
      assert steps[..i] + [steps[i]] == steps[..i + 1] && steps[..i + 1] + steps[i + 1..last] == steps[..last];
      assert [steps[i]][1..] == [];
      TargetClosed(g, c, steps[i]);
      match steps[i] {
        case StepVariant(idx) => currentVariant := Some(idx);
        case _ =>
          var target := StepTarget(g[currentShape], currentVariant, steps[i]);
          if target.None? {
            return None;
          }
          currentShape, currentVariant := target.value, None;
      }
    }
    field := LastField(g[currentShape], steps[last], currentVariant);
  }

  // ---------------------------------------------------------------- agreement with the walk

  /** Children are walked as container elements, but no accessor finds them. */
  predicate Lossy(shape: Shape) {
    && !shape.ty.TyStruct? && !shape.ty.TyEnum?
    && (shape.def.DefSet? || shape.def.DefNdArray? || shape.def.DefResult?)
  }

  /** Children are walked as fields. */
  predicate HasFields(shape: Shape) {
    !shape.def.DefOption? && (shape.ty.TyStruct? || shape.ty.TyEnum?)
  }

  /** The variant and the field behind edge `k` of an enum. */
  function Locate(vs: seq<Variant>, k: nat): (r: (nat, nat))
    requires k < |VariantEdges(vs)|
    ensures r.0 < |vs| && r.1 < |vs[r.0].data.fields|
    ensures VariantEdges(vs)[k] ==
            Edge([StepVariant(AsU32(r.0)), StepField(AsU32(r.1))], vs[r.0].data.fields[r.1].shape)
  {
    var n := |vs| - 1;
    var before := |VariantEdges(vs[..n])|;
    if k < before then Locate(vs[..n], k) else (n, k - before)
  }

  /** The field behind edge `k`. */
  function FieldAt(shape: Shape, k: nat): Field
    requires HasFields(shape) && k < |Edges(shape)|
  {
    match shape.ty
    case TyStruct(st) => st.fields[k]
    case TyEnum(vs) => var (v, f) := Locate(vs, k); vs[v].data.fields[f]
  }

  lemma NavigateOne(g: Graph, c: Cursor, s: Step)
    requires Closed(g) && c.shape in g
    ensures Navigate(g, c, [s]) == StrictStep(g, c, s)
  {
    assert [s][1..] == [];
  }

  lemma NavigateNone(g: Graph, c: Cursor)
    requires Closed(g) && c.shape in g
    ensures Navigate(g, c, []) == Some(c)
  {
  }

  lemma NavigateTwo(g: Graph, c: Cursor, s: Step, t: Step)
    requires Closed(g) && c.shape in g && StrictStep(g, c, s).Some?
    ensures StrictStep(g, c, s).value.shape in g
    ensures Navigate(g, c, [s, t]) == StrictStep(g, StrictStep(g, c, s).value, t)
  {
    TargetClosed(g, c, s);
    assert [s, t][1..] == [t];
    NavigateOne(g, StrictStep(g, c, s).value, t);
  }

  lemma SmallU32(i: nat)
    requires i < 0x1_0000_0000
    ensures AsU32(i) == i
  {
  }

  lemma EnumEdge(shape: Shape, k: nat)
    requires HasFields(shape) && shape.ty.TyEnum? && CountsFit(shape) && k < |Edges(shape)|
    ensures k < |VariantEdges(shape.ty.variants)|
    ensures var (v, f) := Locate(shape.ty.variants, k);
            && Edges(shape)[k] == Edge([StepVariant(v), StepField(f)], FieldAt(shape, k).shape)
            && GetFieldWithVariant(shape, f, Some(v)) == Some(FieldAt(shape, k))
  {
    hide VariantEdges, DefEdges, InnerEdges, FieldEdges, Locate, AsU32;
    assert Edges(shape) == VariantEdges(shape.ty.variants);
    var (v, f) := Locate(shape.ty.variants, k);
    assert |shape.ty.variants[v].data.fields| <= 0x1_0000_0000;
    SmallU32(v);
    SmallU32(f);
  }

  lemma StructEdge(shape: Shape, k: nat)
    requires HasFields(shape) && shape.ty.TyStruct? && CountsFit(shape) && k < |Edges(shape)|
    ensures Edges(shape)[k] == Edge([StepField(k)], FieldAt(shape, k).shape)
    ensures GetFieldWithVariant(shape, k, None) == Some(FieldAt(shape, k))
  {
  }

  /** The edges of a shape that is neither a struct nor an enum, or is an option. */
  lemma PlainEdge(shape: Shape, k: nat)
    requires !HasFields(shape) && k < |Edges(shape)|
    ensures var e := Edges(shape)[k];
            if shape.def.DefResult? then
              && e.steps == [StepVariant(k), StepField(0)]
              && GetFieldWithVariant(shape, 0, Some(k)) == None
            else
              && |e.steps| == 1 && !e.steps[0].StepField? && !e.steps[0].StepVariant?
              && StepTarget(shape, None, e.steps[0]) == if Lossy(shape) then None else Some(e.child)
  {
  }

  /** One edge replays exactly when the container it leaves has an accessor. */
  lemma EdgeReplays(g: Graph, id: Id, k: nat)
    requires Closed(g) && id in g && CountsFit(g[id]) && k < |Edges(g[id])|
    ensures var e := Edges(g[id])[k];
            Navigate(g, Cursor(id, None), e.steps) ==
              if Lossy(g[id]) then None else Some(Cursor(e.child, None))
  {
    hide Navigate, Edges, CountsFit, Locate, FieldAt, Closed;
    var shape, c := g[id], Cursor(id, None);
    var e := Edges(shape)[k];
    if HasFields(shape) && shape.ty.TyEnum? {
      EnumEdge(shape, k);
      NavigateTwo(g, c, e.steps[0], e.steps[1]);
    } else if HasFields(shape) {
      StructEdge(shape, k);
      NavigateOne(g, c, e.steps[0]);
    } else {
      PlainEdge(shape, k);
      if shape.def.DefResult? {
        NavigateTwo(g, c, e.steps[0], e.steps[1]);
      } else {
        NavigateOne(g, c, e.steps[0]);
        assert e.steps == [e.steps[0]];
      }
    }
  }

  /** No shape that the route leaves through an edge is lossy. */
  ghost predicate CrossesNothingLossy(g: Graph, root: Id, route: Route)
    requires ValidRoute(g, root, route)
    decreases |route|
  {
    route == [] || (!Lossy(g[root]) && CrossesNothingLossy(g, route[0].child, route[1..]))
  }

  lemma {:induction false} RouteReplays(g: Graph, root: Id, route: Route)
    requires Closed(g) && AllCountsFit(g) && ValidRoute(g, root, route)
    ensures Navigate(g, Cursor(root, None), RoutePath(route)) ==
            if CrossesNothingLossy(g, root, route) then Some(Cursor(RouteEnd(root, route), None)) else None
    decreases |route|
  {
    hide Edges, Lossy, CountsFit;
    if route != [] {
      var k :| 0 <= k < |Edges(g[root])| && Edges(g[root])[k] == route[0];
      EdgeReplays(g, root, k);
      NavigateAppend(g, Cursor(root, None), route[0].steps, RoutePath(route[1..]));
      RouteReplays(g, route[0].child, route[1..]);
    }
  }

  /**
    Replay agreement: a path entered by the walk, under any visitor, replays to the
    shape it was entered with exactly when it crosses no lossy container, and the
    lenient navigator then ends on that shape too.
   */
  lemma ReplayAgreement<V>(g: Graph, vis: Visitor<V>, st: V, root: Id, e: Event) returns (route: Route)
    requires Closed(g) && AllCountsFit(g) && root in g
    requires e.Enter? && e in Run(g, vis, st, root, [], []).events
    ensures ValidRoute(g, root, route) && RoutePath(route) == e.path && RouteEnd(root, route) == e.shape
    ensures CrossesNothingLossy(g, root, route) ==>
              && Navigate(g, Cursor(root, None), e.path) == Some(Cursor(e.shape, None))
              && NavigateLeniently(g, Cursor(root, None), e.path) == Cursor(e.shape, None)
    ensures !CrossesNothingLossy(g, root, route) ==> Navigate(g, Cursor(root, None), e.path) == None
  {
    hide Run, Navigate, NavigateLeniently, CrossesNothingLossy;
    route := EnteredHasRoute(g, vis, st, root, [], [], e);
    assert [] + RoutePath(route) == RoutePath(route);
    RouteReplays(g, root, route);
    if CrossesNothingLossy(g, root, route) {
      LenientTracksStrict(g, Cursor(root, None), e.path);
    }
  }

  lemma RoutePathSnoc(route: Route, e: Edge)
    ensures RoutePath(route + [e]) == RoutePath(route) + e.steps
    decreases |route|
  {
    if route == [] {
      assert route + [e] == [e] && [e][1..] == [];
    } else {
      assert (route + [e])[0] == route[0] && (route + [e])[1..] == route[1..] + [e];
      RoutePathSnoc(route[1..], e);
    }
  }

  /** Before its last step, an edge has either not moved or only chosen a variant. */
  lemma EdgeLeaf(g: Graph, id: Id, k: nat)
    requires Closed(g) && id in g && CountsFit(g[id]) && k < |Edges(g[id])|
    ensures var s := Edges(g[id])[k].steps;
            && s != []
            && var c := Navigate(g, Cursor(id, None), s[..|s| - 1]);
            && c.Some? && c.value.shape == id
            && LastField(g[id], s[|s| - 1], c.value.variant) ==
                 if HasFields(g[id]) then Some(FieldAt(g[id], k)) else None
  {
    hide Navigate, Edges, CountsFit, Locate, FieldAt, Closed;
    var shape, c := g[id], Cursor(id, None);
    var s := Edges(shape)[k].steps;
    if HasFields(shape) && shape.ty.TyEnum? {
      EnumEdge(shape, k);
      assert s[..1] == [s[0]];
      NavigateOne(g, c, s[0]);
    } else {
      NavigateNone(g, c);
      if HasFields(shape) {
        StructEdge(shape, k);
        assert s[..0] == [];
      } else {
        PlainEdge(shape, k);
        if shape.def.DefResult? {
          assert s[..1] == [s[0]];
          NavigateOne(g, c, s[0]);
        } else {
          assert s[..0] == [];
        }
      }
    }
  }

  /**
    Resolving the leaf field of a walked path `route` + edge `k` of its end gives
    the very field behind that edge, and gives nothing exactly when the path is
    lossy or the edge is not a field.
   */
  lemma LeafFieldOfRoute(g: Graph, root: Id, route: Route, k: nat)
    requires Closed(g) && AllCountsFit(g) && ValidRoute(g, root, route)
    requires RouteEnd(root, route) in g && k < |Edges(g[RouteEnd(root, route)])|
    ensures var shape := g[RouteEnd(root, route)];
            LeafField(g, root, RoutePath(route + [Edges(shape)[k]])) ==
              if CrossesNothingLossy(g, root, route) && HasFields(shape) then Some(FieldAt(shape, k)) else None
  {
    hide Navigate, CrossesNothingLossy, Edges, CountsFit;
    var end := RouteEnd(root, route);
    var e := Edges(g[end])[k];
    var s, p := e.steps, RoutePath(route);
    RoutePathSnoc(route, e);
    EdgeLeaf(g, end, k);
    assert (p + s)[..|p + s| - 1] == p + s[..|s| - 1];
    RouteReplays(g, root, route);
    NavigateAppend(g, Cursor(root, None), p, s[..|s| - 1]);
  }

  // ---------------------------------------------------------------- formatting

  function Dotted(text: string, name: string): string {
    if text == "" then name else text + "." + name
  }

  /** The text after one more step, seen from the shape the navigator is on. */
  function AppendStep(shape: Shape, variant: Option<nat>, text: string, step: Step): string {
    match step
    case StepField(i) =>
      (match GetFieldWithVariant(shape, i, variant) case Some(f) => Dotted(text, f.name) case None => text)
    case StepIndex(i) => text + "[" + Decimal(i) + "]"
    case StepVariant(i) =>
      (match GetVariantName(shape, i) case Some(name) => text + "::" + name case None => text)
    case StepMapKey(i) => text + "[key#" + Decimal(i) + "]"
    case StepMapValue(i) => text + "[value#" + Decimal(i) + "]"
    case StepOptionSome => text + "::Some"
    case _ => text
  }

  ghost function FormatFrom(g: Graph, c: Cursor, text: string, steps: Path): string
    requires Closed(g) && c.shape in g
    decreases |steps|
  {
    if steps == [] then text else
    TargetClosed(g, c, steps[0]);
    FormatFrom(g, LenientStep(g, c, steps[0]), AppendStep(g[c.shape], c.variant, text, steps[0]), steps[1..])
  }

  method FormatWithShape(g: Graph, steps: Path, shape: Id) returns (result: string)
    requires Closed(g) && shape in g
    ensures var text := FormatFrom(g, Cursor(shape, None), "", steps);
            result == if text == "" then "<root>" else text
  {
    result := "";
    var currentShape, currentVariant := shape, None;
    for i := 0 to |steps|
      invariant currentShape in g
      invariant FormatFrom(g, Cursor(currentShape, currentVariant), result, steps[i..]) ==
                FormatFrom(g, Cursor(shape, None), "", steps)
    {
      TargetClosed(g, Cursor(currentShape, currentVariant), steps[i]);
      result := AppendStep(g[currentShape], currentVariant, result, steps[i]);
      var target := StepTarget(g[currentShape], currentVariant, steps[i]);
      if target.Some? {
        currentShape := target.value;
      }
      currentVariant := if steps[i].StepVariant? then Some(steps[i].i) else None;
    }
    if result == "" {
      result := "<root>";
    }
  }

  /** What leaving a shape through edge `k` should add, in the shape's own names. */
  function EdgeText(shape: Shape, k: nat, text: string): string
    requires k < |Edges(shape)|
  {
    if shape.def.DefOption? then text + "::Some" else
    match shape.ty
    case TyStruct(st) => Dotted(text, st.fields[k].name)
    case TyEnum(vs) =>
      var (v, f) := Locate(vs, k);
      text + "::" + vs[v].name + "." + vs[v].data.fields[f].name
    case _ =>
      if shape.def.DefList? || shape.def.DefArray? || shape.def.DefSlice? then text + "[0]"
      else if shape.def.DefMap? then text + (if k == 0 then "[key#0]" else "[value#0]")
      else text
  }

  /**
    Formatting a walked path names, edge by edge, the fields, variants and
    containers that the walk went through.
   */
  lemma FormatEdge(g: Graph, id: Id, k: nat, text: string, rest: Path)
    requires Closed(g) && id in g && CountsFit(g[id]) && k < |Edges(g[id])| && !Lossy(g[id])
    ensures var e := Edges(g[id])[k];
            && e.child in g
            && FormatFrom(g, Cursor(id, None), text, e.steps + rest) ==
               FormatFrom(g, Cursor(e.child, None), EdgeText(g[id], k, text), rest)
  {
    hide Edges, CountsFit, Locate, FieldAt, Closed;
    var shape, c := g[id], Cursor(id, None);
    var e := Edges(shape)[k];
    EdgesClosed(g, id);
    if HasFields(shape) && shape.ty.TyEnum? {
      EnumEdge(shape, k);
      EnumText(shape, k, text);
      FormatOne(g, c, text, e.steps[0], [e.steps[1]] + rest);
      assert e.steps + rest == [e.steps[0]] + ([e.steps[1]] + rest);
      FormatOne(g, Cursor(id, Some(e.steps[0].i)), AppendStep(shape, None, text, e.steps[0]), e.steps[1], rest);
    } else {
      if HasFields(shape) {
        StructEdge(shape, k);
        StructText(shape, k, text);
      } else {
        PlainEdge(shape, k);
        PlainText(shape, k, text);
      }
      assert e.steps == [e.steps[0]];
      FormatOne(g, c, text, e.steps[0], rest);
    }
  }

  /** Which edge of a shape a step of a route takes. */
  ghost function EdgeIndex(shape: Shape, e: Edge): (k: nat)
    requires e in Edges(shape)
    ensures k < |Edges(shape)| && Edges(shape)[k] == e
  {
    var k: nat :| k < |Edges(shape)| && Edges(shape)[k] == e;
    k
  }

  /** The texts of a route's edges, one after the other. */
  ghost function RouteText(g: Graph, from: Id, route: Route, text: string): string
    requires ValidRoute(g, from, route)
    decreases |route|
  {
    if route == [] then text
    else RouteText(g, route[0].child, route[1..], EdgeText(g[from], EdgeIndex(g[from], route[0]), text))
  }

  /** A route that crosses nothing lossy is formatted as the names of its edges, in order. */
  lemma {:induction false} FormatRoute(g: Graph, root: Id, route: Route, text: string)
    requires Closed(g) && AllCountsFit(g) && ValidRoute(g, root, route) && CrossesNothingLossy(g, root, route)
    ensures FormatFrom(g, Cursor(root, None), text, RoutePath(route)) == RouteText(g, root, route, text)
    decreases |route|
  {
    hide Edges, Lossy, CountsFit, EdgeText, Closed, EdgeIndex;
    if route != [] {
      var k := EdgeIndex(g[root], route[0]);
      FormatEdge(g, root, k, text, RoutePath(route[1..]));
      FormatRoute(g, route[0].child, route[1..], EdgeText(g[root], k, text));
    }
  }

  /** A path entered by the walk is formatted as the names the walk went through. */
  lemma FormatEntered<V>(g: Graph, vis: Visitor<V>, st: V, root: Id, e: Event) returns (route: Route)
    requires Closed(g) && AllCountsFit(g) && root in g
    requires e.Enter? && e in Run(g, vis, st, root, [], []).events
    ensures ValidRoute(g, root, route) && RoutePath(route) == e.path && RouteEnd(root, route) == e.shape
    ensures CrossesNothingLossy(g, root, route) ==>
              FormatFrom(g, Cursor(root, None), "", e.path) == RouteText(g, root, route, "")
  {
    hide Run, Navigate, NavigateLeniently, FormatFrom, RouteText, CrossesNothingLossy;
    route := ReplayAgreement(g, vis, st, root, e);
    if CrossesNothingLossy(g, root, route) {
      FormatRoute(g, root, route, "");
    }
  }

  /** One more step appends its own text. */
  lemma {:induction false} FormatSnoc(g: Graph, c: Cursor, text: string, before: Path, s: Step)
    requires Closed(g) && c.shape in g
    ensures NavigateLeniently(g, c, before).shape in g
    ensures var end := NavigateLeniently(g, c, before);
            FormatFrom(g, c, text, before + [s]) == AppendStep(g[end.shape], end.variant, FormatFrom(g, c, text, before), s)
    decreases |before|
  {
    hide AppendStep, LenientStep, Closed;
    if before == [] {
      assert [] + [s] == [s] + [];
      FormatOne(g, c, text, s, []);
    } else {
      var first, rest := before[0], before[1..];
      assert before == [first] + rest && before + [s] == [first] + (rest + [s]);
      FormatOne(g, c, text, first, rest);
      FormatOne(g, c, text, first, rest + [s]);
      FormatSnoc(g, LenientStep(g, c, first), AppendStep(g[c.shape], c.variant, text, first), rest, s);
    }
  }

  /** The digits of `i`, most significant first. */
  predicate IsDecimal(text: string, i: nat)
    decreases |text|
  {
    && text != "" && '0' <= text[|text| - 1] <= '9'
    && i % 10 == text[|text| - 1] as int - '0' as int
    && if |text| == 1 then i < 10 else i >= 10 && IsDecimal(text[..|text| - 1], i / 10)
  }

  lemma {:induction false} DecimalIsDecimal(i: nat)
    ensures IsDecimal(Decimal(i), i)
  {
    var last := [('0' as int + i % 10) as char];
    if i >= 10 {
      DecimalIsDecimal(i / 10);
      assert Decimal(i) == Decimal(i / 10) + last;
      assert (Decimal(i / 10) + last)[..|Decimal(i / 10)|] == Decimal(i / 10);
    }
  }

  /** Whatever the path before, an element, a map key or a map value is formatted with its own index. */
  lemma IndexText(g: Graph, root: Id, before: Path, i: nat)
    requires Closed(g) && root in g
    ensures var text := FormatFrom(g, Cursor(root, None), "", before);
            exists digits ::
              && IsDecimal(digits, i)
              && FormatFrom(g, Cursor(root, None), "", before + [StepIndex(i)]) == text + "[" + digits + "]"
              && FormatFrom(g, Cursor(root, None), "", before + [StepMapKey(i)]) == text + "[key#" + digits + "]"
              && FormatFrom(g, Cursor(root, None), "", before + [StepMapValue(i)]) == text + "[value#" + digits + "]"
  {
    hide FormatFrom, NavigateLeniently, Decimal, IsDecimal;
    DecimalIsDecimal(i);
    FormatSnoc(g, Cursor(root, None), "", before, StepIndex(i));
    FormatSnoc(g, Cursor(root, None), "", before, StepMapKey(i));
    FormatSnoc(g, Cursor(root, None), "", before, StepMapValue(i));
  }

  /** The steps that name nothing, and the one into an option. */
  lemma OtherText(g: Graph, root: Id, before: Path)
    requires Closed(g) && root in g
    ensures var text := FormatFrom(g, Cursor(root, None), "", before);
            && FormatFrom(g, Cursor(root, None), "", before + [StepOptionSome]) == text + "::Some"
            && FormatFrom(g, Cursor(root, None), "", before + [StepDeref]) == text
            && FormatFrom(g, Cursor(root, None), "", before + [StepInner]) == text
            && FormatFrom(g, Cursor(root, None), "", before + [StepProxy]) == text
  {
    hide FormatFrom, NavigateLeniently;
    FormatSnoc(g, Cursor(root, None), "", before, StepOptionSome);
    FormatSnoc(g, Cursor(root, None), "", before, StepDeref);
    FormatSnoc(g, Cursor(root, None), "", before, StepInner);
    FormatSnoc(g, Cursor(root, None), "", before, StepProxy);
  }

  /** A set of bytes. */
  const SET_OF_U8: Graph := map[
    0 := Shape(0, TyOpaque, DefSet(1), "HashSet", None, None, None, None),
    1 := Shape(1, TyPrimitive, DefScalar, "u8", None, None, None, Some(U8))]

  /** A set can be walked into, but the path that was entered does not replay. */
  lemma SetDoesNotReplay<V(!new)>(vis: Visitor<V>, st: V)
    requires AlwaysRecurses(vis)
    ensures Closed(SET_OF_U8) && AllCountsFit(SET_OF_U8)
    ensures Enter([StepIndex(0)], 1) in Run(SET_OF_U8, vis, st, 0, [], []).events
    ensures Navigate(SET_OF_U8, Cursor(0, None), [StepIndex(0)]) == None
  {
    var g := SET_OF_U8;
    assert ShapeClosed(g, 0) && ShapeClosed(g, 1);
    var route := [Edge([StepIndex(0)], 1)];
    assert Edges(g[0]) == route && route[1..] == [];
    assert ValidRoute(g, 1, []);
    assert ValidRoute(g, 0, route);
    assert RoutePath(route) == [StepIndex(0)] + RoutePath([]) == [StepIndex(0)];
    ExactWalk(g, vis, st, 0, [StepIndex(0)], 1);
    RouteReplays(g, 0, route);
  }

  lemma FormatOne(g: Graph, c: Cursor, text: string, s: Step, rest: Path)
    requires Closed(g) && c.shape in g
    ensures LenientStep(g, c, s).shape in g
    ensures FormatFrom(g, c, text, [s] + rest) ==
            FormatFrom(g, LenientStep(g, c, s), AppendStep(g[c.shape], c.variant, text, s), rest)
  {
    TargetClosed(g, c, s);
    assert ([s] + rest)[0] == s && ([s] + rest)[1..] == rest;
  }

  lemma EnumText(shape: Shape, k: nat, text: string)
    requires HasFields(shape) && shape.ty.TyEnum? && CountsFit(shape) && k < |Edges(shape)|
    ensures var s := Edges(shape)[k].steps;
            var v := Locate(shape.ty.variants, k).0;
            && AppendStep(shape, None, text, s[0]) == text + "::" + shape.ty.variants[v].name
            && AppendStep(shape, Some(v), AppendStep(shape, None, text, s[0]), s[1]) == EdgeText(shape, k, text)
  {
    hide Edges, Locate, VariantEdges;
    EnumEdge(shape, k);
  }

  lemma StructText(shape: Shape, k: nat, text: string)
    requires HasFields(shape) && shape.ty.TyStruct? && CountsFit(shape) && k < |Edges(shape)|
    ensures AppendStep(shape, None, text, Edges(shape)[k].steps[0]) == EdgeText(shape, k, text)
  {
  }

  lemma PlainText(shape: Shape, k: nat, text: string)
    requires !HasFields(shape) && k < |Edges(shape)| && !Lossy(shape)
    ensures |Edges(shape)[k].steps| == 1
    ensures AppendStep(shape, None, text, Edges(shape)[k].steps[0]) == EdgeText(shape, k, text)
  {
    assert Decimal(0) == "0";
  }
}
