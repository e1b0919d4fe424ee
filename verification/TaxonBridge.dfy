/**
  Interning a cyclic shape graph into a dense batch of taxon schemas.

  `Builder` hands out an id, pushes a placeholder, builds the kind (which may
  come back to the unfinished entry), and overwrites the placeholder.  The
  methods are proved against `Discover`, the depth-first discovery order, and
  `Translate`, the kind a shape has once that order numbers its children.
 */
module TaxonBridge {
  import opened Wrappers
  import opened Shapes

  datatype Primitive =
    | PUnit | PBool | PChar | PString | PF32 | PF64
    | PU8 | PU16 | PU32 | PU64 | PU128
    | PI8 | PI16 | PI32 | PI64 | PI128

  type SchemaId = nat

  datatype SField = SField(name: string, schema: SchemaId, required: bool)

  datatype Payload =
    | PayloadUnit
    | PayloadNewtype(schema: SchemaId)
    | PayloadTuple(elements: seq<SchemaId>)
    | PayloadStruct(fields: seq<SField>)

  datatype SVariant = SVariant(name: string, index: nat, payload: Payload)

  datatype Kind =
    | KPrimitive(primitive: Primitive)
    | KMap(key: SchemaId, value: SchemaId)
    | KSet(element: SchemaId)
    | KList(element: SchemaId)
    | KArray(element: SchemaId, dimensions: seq<nat>)
    | KTensor(element: SchemaId)
    | KOption(element: SchemaId)
    | KEnum(name: string, variants: seq<SVariant>)
    | KTuple(elements: seq<SchemaId>)
    | KStruct(name: string, fields: seq<SField>)
    | KDynamic
    | KExternal(kind: string)

  datatype Schema = Schema(id: SchemaId, kind: Kind)

  datatype ShapeKey = ShapeKey(id: Id, declId: nat)

  // ---------------------------------------------------------------- pure parts of the source

  function KeyOf(g: Graph, id: Id): ShapeKey
    requires id in g
  {
    ShapeKey(id, g[id].declId)
  }

  function TransparentPointee(shape: Shape): Option<Id> {
    match shape.def
    case DefPointer(pointee) => pointee
    case _ =>
      match shape.ty
      case TyReference(target) => Some(target)
      case TyRaw(target) => Some(target)
      case _ => None
  }

  function PrimitiveOf(shape: Shape): Option<Primitive> {
    if shape.scalarType.None? then None else
    match shape.scalarType.value
    case Unit => Some(PUnit)
    case Bool => Some(PBool)
    case Char => Some(PChar)
    case Str => Some(PString)
    case String => Some(PString)
    case CowStr => Some(PString)
    case F32 => Some(PF32)
    case F64 => Some(PF64)
    case U8 => Some(PU8)
    case U16 => Some(PU16)
    case U32 => Some(PU32)
    case U64 => Some(PU64)
    case U128 => Some(PU128)
    case USize => Some(PU64)
    case I8 => Some(PI8)
    case I16 => Some(PI16)
    case I32 => Some(PI32)
    case I64 => Some(PI64)
    case I128 => Some(PI128)
    case ISize => Some(PI64)
    case _ => None
  }

  function RustName(shape: Shape): string {
    match shape.modulePath
    case Some(path) => path + "::" + shape.typeIdentifier
    case None => shape.typeIdentifier
  }

  function External(shape: Shape, kind: string): Kind {
    KExternal(kind + ":" + RustName(shape))
  }

  /** `self.seen.iter().find(..)`: the id stored with the first entry that has the key. */
  function Lookup(seen: seq<(ShapeKey, SchemaId)>, key: ShapeKey): (r: Option<SchemaId>)
    ensures r.None? ==> forall i :: 0 <= i < |seen| ==> seen[i].0 != key
    ensures r.Some? ==> exists i :: 0 <= i < |seen| && seen[i] == (key, r.value)
  {
    if seen == [] then None
    else if seen[0].0 == key then Some(seen[0].1)
    else
      var r := Lookup(seen[1..], key);
      assert r.Some? ==> exists i :: 0 <= i < |seen[1..]| && seen[1..][i] == (key, r.value);
      r
  }

  // ---------------------------------------------------------------- what the batch should be

  predicate GroundedAt(g: Graph, h: map<Id, nat>, id: Id)
    requires id in g && id in h
  {
    && ShapeClosed(g, id)
    && (TransparentPointee(g[id]).Some? ==>
          var p := TransparentPointee(g[id]).value;
          p in g && p in h && h[p] < h[id])
  }

  /** The graph is closed and pointer chains are well founded: `h` decreases along them. */
  ghost predicate Grounded(g: Graph, h: map<Id, nat>) {
    && h.Keys == g.Keys
    && forall id {:trigger GroundedAt(g, h, id)} :: id in g ==> GroundedAt(g, h, id)
  }

  /** The shape at the end of a chain of transparent pointers. */
  ghost function Strip(g: Graph, h: map<Id, nat>, id: Id): (r: Id)
    requires Grounded(g, h) && id in g
    ensures r in g && TransparentPointee(g[r]).None?
    decreases h[id]
  {
    assert GroundedAt(g, h, id);
    match TransparentPointee(g[id])
    case Some(p) => Strip(g, h, p)
    case None => id
  }

  function PayloadChildren(v: Variant): seq<Id> {
    if v.data.fields == [] || v.data.kind.KindUnit? then [] else FieldShapes(v.data.fields)
  }

  function VariantChildren(vs: seq<Variant>): seq<Id> {
    if vs == [] then [] else VariantChildren(vs[..|vs| - 1]) + PayloadChildren(vs[|vs| - 1])
  }

  /** The shapes `kind_of` refers to, in the order in which it refers to them. */
  ghost function Children(g: Graph, h: map<Id, nat>, id: Id): (r: seq<Id>)
    requires Grounded(g, h) && id in g
    decreases h[id]
  {
    var shape := g[id];
    assert GroundedAt(g, h, id);
    if PrimitiveOf(shape).Some? then [] else
    match shape.def
    case DefMap(k, v) => [k, v]
    case DefSet(t) => [t]
    case DefList(t) => [t]
    case DefArray(t, _) => [t]
    case DefNdArray(t) => [t]
    case DefSlice(t) => [t]
    case DefOption(t) => [t]
    case DefResult(t, e) => [t, e]
    case DefPointer(Some(p)) => Children(g, h, p)
    case DefPointer(None) => []
    case DefDynamicValue => []
    case _ =>
      match shape.ty
      case TyArray(t, _) => [t]
      case TySlice(t) => [t]
      case TyStruct(st) => FieldShapes(st.fields)
      case TyEnum(vs) => VariantChildren(vs)
      case TyReference(t) => Children(g, h, t)
      case TyRaw(t) => Children(g, h, t)
      case _ => []
  }

  ghost predicate AllIn(g: Graph, ids: seq<Id>) {
    forall i :: 0 <= i < |ids| ==> ids[i] in g
  }

  ghost predicate Distinct<T>(s: seq<T>) {
    forall i, j :: 0 <= i < j < |s| ==> s[i] != s[j]
  }

  /** Depth-first discovery, starting from the shapes already discovered. */
  ghost function Discover(g: Graph, h: map<Id, nat>, ids: seq<Id>, acc: seq<Id>): (r: seq<Id>)
    requires Grounded(g, h) && AllIn(g, ids) && AllIn(g, acc)
    ensures acc <= r && AllIn(g, r)
    decreases Unseen(g, acc), |ids|
  {
    if ids == [] then acc else
    var s := Strip(g, h, ids[0]);
    ChildrenClosed(g, h, s);
    Shrinks(g, acc, acc + [s]);
    var acc1 := if s in acc then acc else Discover(g, h, Children(g, h, s), acc + [s]);
    Shrinks(g, acc, acc1);
    Discover(g, h, ids[1..], acc1)
  }

  /** How many shapes are not discovered yet. */
  ghost function Unseen(g: Graph, acc: seq<Id>): nat {
    |g.Keys - (set x | x in acc)|
  }

  lemma Shrinks(g: Graph, acc: seq<Id>, acc': seq<Id>)
    requires acc <= acc' && AllIn(g, acc')
    ensures Unseen(g, acc') <= Unseen(g, acc)
    ensures |acc| < |acc'| && acc'[|acc|] !in acc ==> Unseen(g, acc') < Unseen(g, acc)
  {
    var a, b := g.Keys - (set x | x in acc'), g.Keys - (set x | x in acc);
    assert a <= b;
    SubsetSize(a, b);
    if |acc| < |acc'| && acc'[|acc|] !in acc {
      assert acc'[|acc|] in b && acc'[|acc|] !in a;
      SubsetSize(a, b - {acc'[|acc|]});
    }
  }

  /** One step of the discovery, and what gets smaller. */
  lemma DiscoverFirst(g: Graph, h: map<Id, nat>, ids: seq<Id>, acc: seq<Id>)
    requires Grounded(g, h) && AllIn(g, ids) && AllIn(g, acc) && ids != []
    ensures var s := Strip(g, h, ids[0]);
            && AllIn(g, Children(g, h, s)) && AllIn(g, ids[1..]) && AllIn(g, acc + [s])
            && (s in acc ==> Discover(g, h, ids, acc) == Discover(g, h, ids[1..], acc))
            && (s !in acc ==>
                  var acc1 := Discover(g, h, Children(g, h, s), acc + [s]);
                  && Discover(g, h, ids, acc) == Discover(g, h, ids[1..], acc1)
                  && Unseen(g, acc + [s]) < Unseen(g, acc) && Unseen(g, acc1) < Unseen(g, acc))
  {
    hide Strip, Children, Unseen;
    var s := Strip(g, h, ids[0]);
    ChildrenClosed(g, h, s);
    if s !in acc {
      Shrinks(g, acc, acc + [s]);
      assert (acc + [s])[|acc|] == s;
      var acc1 := Discover(g, h, Children(g, h, s), acc + [s]);
      assert acc1[|acc|] == s;
      Shrinks(g, acc, acc1);
    }
  }

  lemma SubsetSize<T>(a: set<T>, b: set<T>)
    requires a <= b
    ensures |a| <= |b|
  {
    assert b == a + (b - a);
  }

  lemma {:induction false} VariantChildrenClosed(g: Graph, vs: seq<Variant>)
    requires forall v :: 0 <= v < |vs| ==> FieldsClosed(g, vs[v].data.fields)
    ensures AllIn(g, VariantChildren(vs))
  {
    if vs != [] {
      var n := |vs| - 1;
      forall v | 0 <= v < n ensures FieldsClosed(g, vs[..n][v].data.fields) {
        assert vs[..n][v] == vs[v];
      }
      VariantChildrenClosed(g, vs[..n]);
      assert FieldsClosed(g, vs[n].data.fields);
    }
  }

  lemma {:induction false} ChildrenClosed(g: Graph, h: map<Id, nat>, id: Id)
    requires Grounded(g, h) && id in g
    ensures AllIn(g, Children(g, h, id))
    decreases h[id], 1
  {
    var shape := g[id];
    assert GroundedAt(g, h, id);
    if PrimitiveOf(shape).None? {
      match shape.def {
        case DefPointer(Some(p)) => ChildrenClosed(g, h, p);
        case DefUndefined => TypeChildrenClosed(g, h, id);
        case DefScalar => TypeChildrenClosed(g, h, id);
        case _ =>
      }
    }
  }

  lemma {:induction false} TypeChildrenClosed(g: Graph, h: map<Id, nat>, id: Id)
    requires Grounded(g, h) && id in g && PrimitiveOf(g[id]).None?
    requires g[id].def.DefUndefined? || g[id].def.DefScalar?
    ensures AllIn(g, Children(g, h, id))
    decreases h[id], 0
  {
    assert GroundedAt(g, h, id);
    match g[id].ty {
      case TyEnum(vs) => VariantChildrenClosed(g, vs);
      case TyReference(t) => ChildrenClosed(g, h, t);
      case TyRaw(t) => ChildrenClosed(g, h, t);
      case _ =>
    }
  }

  function IndexOf(order: seq<Id>, id: Id): (i: nat)
    ensures i <= |order|
    ensures i < |order| <==> id in order
    ensures i < |order| ==> order[i] == id
    ensures forall j :: 0 <= j < i ==> order[j] != id
  {
    if order == [] then 0
    else if order[0] == id then 0
    else 1 + IndexOf(order[1..], id)
  }

  /** The id under which a batch in the given order knows a shape: pointers are transparent. */
  ghost function Ref(g: Graph, h: map<Id, nat>, order: seq<Id>, id: Id): SchemaId
    requires Grounded(g, h) && id in g
  {
    IndexOf(order, Strip(g, h, id))
  }

  ghost function Refs(g: Graph, h: map<Id, nat>, order: seq<Id>, ids: seq<Id>): (r: seq<SchemaId>)
    requires Grounded(g, h) && AllIn(g, ids)
    ensures |r| == |ids|
  {
    seq(|ids|, i requires 0 <= i < |ids| => Ref(g, h, order, ids[i]))
  }

  ghost function FieldsOf(g: Graph, h: map<Id, nat>, order: seq<Id>, fields: seq<Field>): (r: seq<SField>)
    requires Grounded(g, h) && FieldsClosed(g, fields)
    ensures |r| == |fields|
  {
    seq(|fields|, i requires 0 <= i < |fields| => FieldOf(g, h, order, fields[i]))
  }

  ghost function FieldOf(g: Graph, h: map<Id, nat>, order: seq<Id>, f: Field): SField
    requires Grounded(g, h) && f.shape in g
  {
    SField(EffectiveName(f.name, f.rename), Ref(g, h, order, f.shape), !f.hasDefault)
  }

  ghost function PayloadOf(g: Graph, h: map<Id, nat>, order: seq<Id>, v: Variant): Payload
    requires Grounded(g, h) && FieldsClosed(g, v.data.fields)
  {
    if v.data.fields == [] then PayloadUnit else
    match v.data.kind
    case KindStruct => PayloadStruct(FieldsOf(g, h, order, v.data.fields))
    case KindUnit => PayloadUnit
    case _ =>
      var refs := Refs(g, h, order, FieldShapes(v.data.fields));
      if |refs| == 1 then PayloadNewtype(refs[0]) else PayloadTuple(refs)
  }

  ghost function VariantsOf(g: Graph, h: map<Id, nat>, order: seq<Id>, vs: seq<Variant>): (r: seq<SVariant>)
    requires Grounded(g, h) && forall v :: 0 <= v < |vs| ==> FieldsClosed(g, vs[v].data.fields)
    ensures |r| == |vs|
  {
    seq(|vs|, i requires 0 <= i < |vs| =>
      SVariant(EffectiveName(vs[i].name, vs[i].rename), AsU32(i), PayloadOf(g, h, order, vs[i])))
  }

  /** The kind of a shape when children are numbered by their position in `order`. */
  ghost function Translate(g: Graph, h: map<Id, nat>, id: Id, order: seq<Id>): Kind
    requires Grounded(g, h) && id in g
    decreases h[id]
  {
    var shape := g[id];
    assert GroundedAt(g, h, id);
    if PrimitiveOf(shape).Some? then KPrimitive(PrimitiveOf(shape).value) else
    match shape.def
    case DefMap(k, v) => KMap(Ref(g, h, order, k), Ref(g, h, order, v))
    case DefSet(t) => KSet(Ref(g, h, order, t))
    case DefList(t) => KList(Ref(g, h, order, t))
    case DefArray(t, n) => KArray(Ref(g, h, order, t), [n])
    case DefNdArray(t) => KTensor(Ref(g, h, order, t))
    case DefSlice(t) => KList(Ref(g, h, order, t))
    case DefOption(t) => KOption(Ref(g, h, order, t))
    case DefResult(t, e) =>
      KEnum(shape.typeIdentifier, [
        SVariant("Ok", 0, PayloadNewtype(Ref(g, h, order, t))),
        SVariant("Err", 1, PayloadNewtype(Ref(g, h, order, e)))])
    case DefPointer(Some(p)) => Translate(g, h, p, order)
    case DefPointer(None) => External(shape, "rust-pointer-opaque")
    case DefDynamicValue => KDynamic
    case _ =>
      match shape.ty
      case TyPrimitive => External(shape, "rust-primitive-unmapped")
      case TyArray(t, n) => KArray(Ref(g, h, order, t), [n])
      case TySlice(t) => KList(Ref(g, h, order, t))
      case TyStruct(st) =>
        if st.kind.KindTuple? || st.kind.KindTupleStruct?
        then KTuple(Refs(g, h, order, FieldShapes(st.fields)))
        else KStruct(shape.typeIdentifier, FieldsOf(g, h, order, st.fields))
      case TyEnum(vs) => KEnum(shape.typeIdentifier, VariantsOf(g, h, order, vs))
      case TyUnion => External(shape, "rust-union")
      case TyOpaque => External(shape, "rust-opaque")
      case TyReference(t) => Translate(g, h, t, order)
      case TyRaw(t) => Translate(g, h, t, order)
      case TyFunction => External(shape, "rust-fn-pointer")
      case TyUndefined => External(shape, "rust-undefined")
  }

  // ---------------------------------------------------------------- growing the batch

  /** Every one of `ids` already has its entry. */
  ghost predicate Known(g: Graph, h: map<Id, nat>, order: seq<Id>, ids: seq<Id>)
    requires Grounded(g, h)
  {
    AllIn(g, ids) && forall i :: 0 <= i < |ids| ==> Strip(g, h, ids[i]) in order
  }

  /** Entry `i` has its final kind, and every child of its shape has an entry. */
  ghost predicate Finished(g: Graph, h: map<Id, nat>, order: seq<Id>, schemas: seq<Schema>, i: nat)
    requires Grounded(g, h) && AllIn(g, order) && i < |order| && i < |schemas|
  {
    && Known(g, h, order, Children(g, h, order[i]))
    && schemas[i].kind == Translate(g, h, order[i], order)
  }

  /** One state of the builder: `seen` and `schemas` in step, ids dense, shapes distinct. */
  ghost predicate InStep(g: Graph, order: seq<Id>, schemas: seq<Schema>) {
    && AllIn(g, order) && Distinct(order)
    && |schemas| == |order|
    && forall i :: 0 <= i < |schemas| ==> schemas[i].id == i
  }

  /**
    Interning `ids` took the batch from the first state to the second: earlier
    entries untouched, every later entry finished, shapes discovered depth first.
   */
  ghost predicate Grew(g: Graph, h: map<Id, nat>, ids: seq<Id>,
                       schemas: seq<Schema>, order: seq<Id>, schemas': seq<Schema>, order': seq<Id>): (grew: bool)
    requires Grounded(g, h)
    ensures grew ==> order <= order' && schemas <= schemas' && Known(g, h, order', ids)
  {
    && InStep(g, order, schemas) && InStep(g, order', schemas')
    && Known(g, h, order', ids)
    && order' == Discover(g, h, ids, order)
    && schemas <= schemas'
    && forall i :: |schemas| <= i < |schemas'| ==> Finished(g, h, order', schemas', i)
  }

  lemma RefsStable(g: Graph, h: map<Id, nat>, order: seq<Id>, order': seq<Id>, ids: seq<Id>)
    requires Grounded(g, h) && Known(g, h, order, ids) && order <= order'
    ensures Known(g, h, order', ids)
    ensures Refs(g, h, order, ids) == Refs(g, h, order', ids)
    ensures forall i :: 0 <= i < |ids| ==> Ref(g, h, order, ids[i]) == Ref(g, h, order', ids[i])
  {
    forall i | 0 <= i < |ids|
      ensures Strip(g, h, ids[i]) in order' && Ref(g, h, order, ids[i]) == Ref(g, h, order', ids[i])
    {
      var s := Strip(g, h, ids[i]);
      var k := IndexOf(order, s);
      assert order'[k] == s;
      assert forall j :: 0 <= j < k ==> order'[j] == order[j];
    }
  }

  lemma FieldsStable(g: Graph, h: map<Id, nat>, order: seq<Id>, order': seq<Id>, fields: seq<Field>)
    requires Grounded(g, h) && FieldsClosed(g, fields) && Known(g, h, order, FieldShapes(fields)) && order <= order'
    ensures FieldsOf(g, h, order, fields) == FieldsOf(g, h, order', fields)
  {
    RefsStable(g, h, order, order', FieldShapes(fields));
    forall i | 0 <= i < |fields| ensures FieldOf(g, h, order, fields[i]) == FieldOf(g, h, order', fields[i]) {
      assert FieldShapes(fields)[i] == fields[i].shape;
    }
  }

  lemma PayloadStable(g: Graph, h: map<Id, nat>, order: seq<Id>, order': seq<Id>, v: Variant)
    requires Grounded(g, h) && FieldsClosed(g, v.data.fields)
    requires Known(g, h, order, PayloadChildren(v)) && order <= order'
    ensures PayloadOf(g, h, order, v) == PayloadOf(g, h, order', v)
  {
    if v.data.fields != [] && !v.data.kind.KindUnit? {
      FieldsStable(g, h, order, order', v.data.fields);
      RefsStable(g, h, order, order', FieldShapes(v.data.fields));
    }
  }

  lemma {:induction false} VariantsStable(g: Graph, h: map<Id, nat>, order: seq<Id>, order': seq<Id>, vs: seq<Variant>)
    requires Grounded(g, h) && forall v :: 0 <= v < |vs| ==> FieldsClosed(g, vs[v].data.fields)
    requires Known(g, h, order, VariantChildren(vs)) && order <= order'
    ensures VariantsOf(g, h, order, vs) == VariantsOf(g, h, order', vs)
  {
    if vs != [] {
      var n := |vs| - 1;
      var a, b := VariantChildren(vs[..n]), PayloadChildren(vs[n]);
      KnownSplit(g, h, order, a, b);
      VariantsStable(g, h, order, order', vs[..n]);
      PayloadStable(g, h, order, order', vs[n]);
      VariantsSplit(g, h, order, vs);
      VariantsSplit(g, h, order', vs);
    }
  }

  lemma VariantsSplit(g: Graph, h: map<Id, nat>, order: seq<Id>, vs: seq<Variant>)
    requires Grounded(g, h) && vs != [] && forall v :: 0 <= v < |vs| ==> FieldsClosed(g, vs[v].data.fields)
    ensures var n := |vs| - 1;
            VariantsOf(g, h, order, vs) == VariantsOf(g, h, order, vs[..n]) +
              [SVariant(EffectiveName(vs[n].name, vs[n].rename), AsU32(n), PayloadOf(g, h, order, vs[n]))]
  {
  }

  lemma KnownSplit(g: Graph, h: map<Id, nat>, order: seq<Id>, a: seq<Id>, b: seq<Id>)
    requires Grounded(g, h)
    ensures Known(g, h, order, a + b) <==> Known(g, h, order, a) && Known(g, h, order, b)
  {
    if Known(g, h, order, a + b) {
      forall i | 0 <= i < |a| ensures a[i] in g && Strip(g, h, a[i]) in order { assert (a + b)[i] == a[i]; }
      forall i | 0 <= i < |b| ensures b[i] in g && Strip(g, h, b[i]) in order { assert (a + b)[|a| + i] == b[i]; }
    }
  }

  lemma {:induction false} TranslateStable(g: Graph, h: map<Id, nat>, order: seq<Id>, order': seq<Id>, id: Id)
    requires Grounded(g, h) && id in g && Known(g, h, order, Children(g, h, id)) && order <= order'
    ensures Known(g, h, order', Children(g, h, id))
    ensures Translate(g, h, id, order) == Translate(g, h, id, order')
    decreases h[id]
  {
    var shape := g[id];
    assert GroundedAt(g, h, id);
    var ids := Children(g, h, id);
    RefsStable(g, h, order, order', ids);
    if PrimitiveOf(shape).None? {
      match shape.def {
        case DefMap(k, v) => assert ids[0] == k && ids[1] == v;
        case DefResult(t, e) => assert ids[0] == t && ids[1] == e;
        case DefSet(t) => assert ids[0] == t;
        case DefList(t) => assert ids[0] == t;
        case DefArray(t, _) => assert ids[0] == t;
        case DefNdArray(t) => assert ids[0] == t;
        case DefSlice(t) => assert ids[0] == t;
        case DefOption(t) => assert ids[0] == t;
        case DefPointer(Some(p)) => TranslateStable(g, h, order, order', p);
        case DefPointer(None) =>
        case DefDynamicValue =>
        case _ =>
          match shape.ty {
            case TyArray(t, _) => assert ids[0] == t;
            case TySlice(t) => assert ids[0] == t;
            case TyStruct(st) => FieldsStable(g, h, order, order', st.fields);
            case TyEnum(vs) => VariantsStable(g, h, order, order', vs);
            case TyReference(t) => TranslateStable(g, h, order, order', t);
            case TyRaw(t) => TranslateStable(g, h, order, order', t);
            case _ =>
          }
      }
    }
  }

  lemma {:induction false} DiscoverAppend(g: Graph, h: map<Id, nat>, a: seq<Id>, b: seq<Id>, acc: seq<Id>)
    requires Grounded(g, h) && AllIn(g, a) && AllIn(g, b) && AllIn(g, acc)
    ensures AllIn(g, a + b)
    ensures Discover(g, h, a + b, acc) == Discover(g, h, b, Discover(g, h, a, acc))
    decreases |a|
  {
    if a == [] {
      assert a + b == b;
    } else {
      var s := Strip(g, h, a[0]);
      ChildrenClosed(g, h, s);
      var acc1 := if s in acc then acc else Discover(g, h, Children(g, h, s), acc + [s]);
      assert (a + b)[1..] == a[1..] + b;
      DiscoverAppend(g, h, a[1..], b, acc1);
    }
  }

  /** Interning one list of shapes and then another is interning both. */
  lemma GrewTwice(g: Graph, h: map<Id, nat>, a: seq<Id>, b: seq<Id>,
                  schemas: seq<Schema>, order: seq<Id>, schemas1: seq<Schema>, order1: seq<Id>,
                  schemas2: seq<Schema>, order2: seq<Id>)
    requires Grounded(g, h)
    requires Grew(g, h, a, schemas, order, schemas1, order1)
    requires Grew(g, h, b, schemas1, order1, schemas2, order2)
    ensures Grew(g, h, a + b, schemas, order, schemas2, order2)
  {
    DiscoverAppend(g, h, a, b, order);
    RefsStable(g, h, order1, order2, a);
    KnownSplit(g, h, order2, a, b);
    forall i | |schemas| <= i < |schemas2| ensures Finished(g, h, order2, schemas2, i) {
      if i < |schemas1| {
        assert Finished(g, h, order1, schemas1, i);
        assert order1[i] == order2[i] && schemas1[i] == schemas2[i];
        TranslateStable(g, h, order1, order2, order1[i]);
      }
    }
  }

  lemma GrewNothing(g: Graph, h: map<Id, nat>, schemas: seq<Schema>, order: seq<Id>)
    requires Grounded(g, h) && InStep(g, order, schemas)
    ensures Grew(g, h, [], schemas, order, schemas, order)
  {
  }

  /** Interning a pointer is interning what it points to. */
  lemma GrewThrough(g: Graph, h: map<Id, nat>, id: Id,
                    schemas: seq<Schema>, order: seq<Id>, schemas': seq<Schema>, order': seq<Id>)
    requires Grounded(g, h) && id in g && TransparentPointee(g[id]).Some? && GroundedAt(g, h, id)
    requires Grew(g, h, [TransparentPointee(g[id]).value], schemas, order, schemas', order')
    ensures Grew(g, h, [id], schemas, order, schemas', order')
    ensures Ref(g, h, order', id) == Ref(g, h, order', TransparentPointee(g[id]).value)
  {
    hide Finished, Translate, Children;
    assert GroundedAt(g, h, id);
    var p := TransparentPointee(g[id]).value;
    assert Strip(g, h, id) == Strip(g, h, p) == Strip(g, h, [p][0]);
    assert [id][1..] == [p][1..];
  }

  /** Interning a shape that has an entry changes nothing. */
  lemma GrewSeen(g: Graph, h: map<Id, nat>, id: Id, schemas: seq<Schema>, order: seq<Id>, i: nat)
    requires Grounded(g, h) && id in g && TransparentPointee(g[id]).None?
    requires InStep(g, order, schemas) && i < |order| && order[i] == id
    ensures Grew(g, h, [id], schemas, order, schemas, order)
    ensures Ref(g, h, order, id) == i
  {
    hide Finished, Translate, Children;
    assert Strip(g, h, [id][0]) == id;
    assert [id][1..] == [];
    assert Discover(g, h, [id], order) == Discover(g, h, [], order) == order;
  }

  lemma DiscoverNew(g: Graph, h: map<Id, nat>, id: Id, order: seq<Id>)
    requires Grounded(g, h) && id in g && TransparentPointee(g[id]).None?
    requires AllIn(g, order) && id !in order
    ensures AllIn(g, Children(g, h, id))
    ensures Discover(g, h, [id], order) == Discover(g, h, Children(g, h, id), order + [id])
  {
    hide Children;
    ChildrenClosed(g, h, id);
    assert Strip(g, h, [id][0]) == id;
    assert [id][1..] == [];
  }

  /** Replacing the placeholder by the finished kind completes the entry. */
  lemma GrewNew(g: Graph, h: map<Id, nat>, id: Id, kind: Kind,
                before: seq<Schema>, order: seq<Id>, schemas: seq<Schema>, order': seq<Id>)
    requires Grounded(g, h) && id in g && TransparentPointee(g[id]).None?
    requires InStep(g, order, before) && id !in order
    requires Grew(g, h, Children(g, h, id), before + [Schema(|before|, KDynamic)], order + [id], schemas, order')
    requires kind == Translate(g, h, id, order')
    ensures |before| < |schemas|
    ensures Grew(g, h, [id], before, order, schemas[|before| := schemas[|before|].(kind := kind)], order')
    ensures Ref(g, h, order', id) == |before|
  {
    hide Discover, Translate, Children, Refs;
    var n := |before|;
    var placed := before + [Schema(n, KDynamic)];
    var schemas' := schemas[n := schemas[n].(kind := kind)];
    DiscoverNew(g, h, id, order);
    assert order'[n] == (order + [id])[n] == id;
    assert Strip(g, h, [id][0]) == id;
    assert schemas[n] == placed[n];
    assert schemas'[..n] == placed[..n] == before;
    forall i | n < i < |schemas'| ensures Finished(g, h, order', schemas', i) {
      assert Finished(g, h, order', schemas, i);
    }
  }

  // ---------------------------------------------------------------- the builder

  ghost function OrderOf(seen: seq<(ShapeKey, SchemaId)>): (r: seq<Id>)
    ensures |r| == |seen|
  {
    seq(|seen|, i requires 0 <= i < |seen| => seen[i].0.id)
  }

  class Builder {
    var schemas: seq<Schema>
    var seen: seq<(ShapeKey, SchemaId)>

    const g: Graph
    ghost const h: map<Id, nat>

    /** The shapes interned so far, in order of discovery. */
    ghost function Order(): seq<Id>
      reads this
    {
      OrderOf(seen)
    }

    ghost predicate Valid()
      reads this
    {
      && Grounded(g, h)
      && InStep(g, Order(), schemas)
      && forall i :: 0 <= i < |seen| ==> seen[i] == (KeyOf(g, Order()[i]), i)
    }

    /** Every shape without an entry is still to do. */
    ghost predicate Pending(todo: set<Id>)
      reads this
    {
      forall id :: id in g && id !in Order() ==> id in todo
    }

    constructor (g: Graph, ghost h: map<Id, nat>)
      requires Grounded(g, h)
      ensures Valid() && Order() == [] && schemas == []
      ensures this.g == g && this.h == h
    {
      this.g, this.h := g, h;
      schemas, seen := [], [];
    }

    method RefOf(id: Id, ghost todo: set<Id>) returns (r: SchemaId)
      requires Valid() && Pending(todo) && id in g
      modifies this
      ensures Valid()
      ensures Grew(g, h, [id], old(schemas), old(Order()), schemas, Order())
      ensures r == Ref(g, h, Order(), id)
      decreases todo, 0, h[id], 1
    {
      hide Grew, Ref;
      var pointee := TransparentPointee(g[id]);
      assert GroundedAt(g, h, id);
      if pointee.Some? {
        r := RefOf(pointee.value, todo);
        GrewThrough(g, h, id, old(schemas), old(Order()), schemas, Order());
      } else {
        r := Intern(id, todo);
      }
    }

    method Intern(id: Id, ghost todo: set<Id>) returns (r: SchemaId)
      requires Valid() && Pending(todo) && id in g && TransparentPointee(g[id]).None?
      modifies this
      ensures Valid()
      ensures Grew(g, h, [id], old(schemas), old(Order()), schemas, Order())
      ensures r == Ref(g, h, Order(), id)
      decreases todo, 0, h[id], 0
    {
      hide Grew, Ref, Children;
      ghost var before, order := schemas, Order();
      var key := KeyOf(g, id);
      var found := Lookup(seen, key);
      if found.Some? {
        GrewSeen(g, h, id, schemas, order, found.value);
        return found.value;
      }
      assert id !in order;
      r := |schemas|;
      seen := seen + [(key, r)];
      schemas := schemas + [Schema(r, KDynamic)];
      assert Order() == order + [id];
      var index := |schemas| - 1;
      var kind := KindOf(id, todo - {id});
      GrewNew(g, h, id, kind, before, order, schemas, Order());
      schemas := schemas[index := schemas[index].(kind := kind)];
    }

    method KindOf(id: Id, ghost todo: set<Id>) returns (kind: Kind)
      requires Valid() && Pending(todo) && id in g
      modifies this
      ensures Valid()
      ensures Grew(g, h, Children(g, h, id), old(schemas), old(Order()), schemas, Order())
      ensures kind == Translate(g, h, id, Order())
      decreases todo, 1, h[id], 6
    {
      hide Grew, Ref;
      ghost var before, order := schemas, Order();
      GrewNothing(g, h, before, order);
      var shape := g[id];
      assert GroundedAt(g, h, id);
      var primitive := PrimitiveOf(shape);
      if primitive.Some? {
        return KPrimitive(primitive.value);
      }
      match shape.def {
        case DefMap(k, v) =>
          var key := RefOf(k, todo);
          ghost var schemas1, order1 := schemas, Order();
          var value := RefOf(v, todo);
          GrewTwice(g, h, [k], [v], before, order, schemas1, order1, schemas, Order());
          RefsStable(g, h, order1, Order(), [k]);
          assert [k] + [v] == [k, v] && [k][0] == k;
          kind := KMap(key, value);
        case DefSet(t) =>
          var element := RefOf(t, todo);
          kind := KSet(element);
        case DefList(t) =>
          var element := RefOf(t, todo);
          kind := KList(element);
        case DefArray(t, n) =>
          var element := RefOf(t, todo);
          kind := KArray(element, [n]);
        case DefNdArray(t) =>
          var element := RefOf(t, todo);
          kind := KTensor(element);
        case DefSlice(t) =>
          var element := RefOf(t, todo);
          kind := KList(element);
        case DefOption(t) =>
          var element := RefOf(t, todo);
          kind := KOption(element);
        case DefResult(t, e) =>
          var okRef := RefOf(t, todo);
          ghost var schemas1, order1 := schemas, Order();
          var errRef := RefOf(e, todo);
          GrewTwice(g, h, [t], [e], before, order, schemas1, order1, schemas, Order());
          RefsStable(g, h, order1, Order(), [t]);
          assert [t] + [e] == [t, e] && [t][0] == t;
          kind := KEnum(shape.typeIdentifier, [
            SVariant("Ok", 0, PayloadNewtype(okRef)),
            SVariant("Err", 1, PayloadNewtype(errRef))]);
        case DefPointer(pointee) =>
          match pointee {
            case Some(p) => kind := KindOf(p, todo);
            case None => kind := External(shape, "rust-pointer-opaque");
          }
        case DefDynamicValue => kind := KDynamic;
        case DefScalar => kind := KindFromType(id, todo);
        case DefUndefined => kind := KindFromType(id, todo);
      }
    }

    method KindFromType(id: Id, ghost todo: set<Id>) returns (kind: Kind)
      requires Valid() && Pending(todo) && id in g
      requires PrimitiveOf(g[id]).None? && (g[id].def.DefScalar? || g[id].def.DefUndefined?)
      modifies this
      ensures Valid()
      ensures Grew(g, h, Children(g, h, id), old(schemas), old(Order()), schemas, Order())
      ensures kind == Translate(g, h, id, Order())
      decreases todo, 1, h[id], 5
    {
      hide Grew, Ref;
      GrewNothing(g, h, schemas, Order());
      var shape := g[id];
      assert GroundedAt(g, h, id);
      match shape.ty {
        case TyPrimitive => kind := External(shape, "rust-primitive-unmapped");
        case TyArray(t, n) =>
          var element := RefOf(t, todo);
          kind := KArray(element, [n]);
        case TySlice(t) =>
          var element := RefOf(t, todo);
          kind := KList(element);
        case TyStruct(st) => kind := StructKind(shape, st, todo);
        case TyEnum(vs) =>
          var variants := EnumVariants(vs, todo);
          kind := KEnum(shape.typeIdentifier, variants);
        case TyUnion => kind := External(shape, "rust-union");
        case TyOpaque => kind := External(shape, "rust-opaque");
        case TyReference(t) => kind := KindOf(t, todo);
        case TyRaw(t) => kind := KindOf(t, todo);
        case TyFunction => kind := External(shape, "rust-fn-pointer");
        case TyUndefined => kind := External(shape, "rust-undefined");
      }
    }

    method StructKind(shape: Shape, st: StructType, ghost todo: set<Id>) returns (kind: Kind)
      requires Valid() && Pending(todo) && FieldsClosed(g, st.fields)
      modifies this
      ensures Valid()
      ensures Grew(g, h, FieldShapes(st.fields), old(schemas), old(Order()), schemas, Order())
      ensures kind == if st.kind.KindTuple? || st.kind.KindTupleStruct?
                      then KTuple(Refs(g, h, Order(), FieldShapes(st.fields)))
                      else KStruct(shape.typeIdentifier, FieldsOf(g, h, Order(), st.fields))
      decreases todo, 1, 0, 2
    {
      hide Grew, Ref;
      if st.kind.KindTuple? || st.kind.KindTupleStruct? {
        var elements := RefsOfFields(st.fields, todo);
        kind := KTuple(elements);
      } else {
        var fields := FieldsOfFields(st.fields, todo);
        kind := KStruct(shape.typeIdentifier, fields);
      }
    }

    /** The loop that pushes one reference for each field. */
    method RefsOfFields(fields: seq<Field>, ghost todo: set<Id>) returns (elements: seq<SchemaId>)
      requires Valid() && Pending(todo) && FieldsClosed(g, fields)
      modifies this
      ensures Valid()
      ensures Grew(g, h, FieldShapes(fields), old(schemas), old(Order()), schemas, Order())
      ensures elements == Refs(g, h, Order(), FieldShapes(fields))
      decreases todo, 1, 0, 0
    {
      hide Grew, Ref;
      elements := [];
      ghost var ids, before, order := FieldShapes(fields), schemas, Order();
      GrewNothing(g, h, before, order);
      for i := 0 to |fields|
        invariant Valid() && Pending(todo)
        invariant Grew(g, h, ids[..i], before, order, schemas, Order())
        invariant elements == Refs(g, h, Order(), ids[..i])
      {
        ghost var schemas1, order1 := schemas, Order();
        var element := RefOf(fields[i].shape, todo);
        elements := elements + [element];
        GrewTwice(g, h, ids[..i], [ids[i]], before, order, schemas1, order1, schemas, Order());
        RefsStable(g, h, order1, Order(), ids[..i]);
        assert ids[..i + 1] == ids[..i] + [ids[i]];
      }
      assert ids[..|fields|] == ids;
    }

    /** The loop that pushes one schema field for each field. */
    method FieldsOfFields(fields: seq<Field>, ghost todo: set<Id>) returns (r: seq<SField>)
      requires Valid() && Pending(todo) && FieldsClosed(g, fields)
      modifies this
      ensures Valid()
      ensures Grew(g, h, FieldShapes(fields), old(schemas), old(Order()), schemas, Order())
      ensures r == FieldsOf(g, h, Order(), fields)
      decreases todo, 1, 0, 1
    {
      hide Grew, Ref;
      r := [];
      ghost var ids, before, order := FieldShapes(fields), schemas, Order();
      GrewNothing(g, h, before, order);
      for i := 0 to |fields|
        invariant Valid() && Pending(todo)
        invariant Grew(g, h, ids[..i], before, order, schemas, Order())
        invariant r == FieldsOf(g, h, Order(), fields[..i])
      {
        ghost var schemas1, order1 := schemas, Order();
        var f := FieldSchema(fields[i], todo);
        r := r + [f];
        GrewTwice(g, h, ids[..i], [ids[i]], before, order, schemas1, order1, schemas, Order());
        assert FieldShapes(fields[..i]) == ids[..i];
        FieldsStable(g, h, order1, Order(), fields[..i]);
        assert ids[..i + 1] == ids[..i] + [ids[i]];
      }
      assert ids[..|fields|] == ids && fields[..|fields|] == fields;
    }

    method EnumVariants(vs: seq<Variant>, ghost todo: set<Id>) returns (variants: seq<SVariant>)
      requires Valid() && Pending(todo)
      requires forall v :: 0 <= v < |vs| ==> FieldsClosed(g, vs[v].data.fields)
      modifies this
      ensures Valid()
      ensures Grew(g, h, VariantChildren(vs), old(schemas), old(Order()), schemas, Order())
      ensures variants == VariantsOf(g, h, Order(), vs)
      decreases todo, 1, 0, 3
    {
      hide Grew, Ref;
      variants := [];
      ghost var before, order := schemas, Order();
      GrewNothing(g, h, before, order);
      for i := 0 to |vs|
        invariant Valid() && Pending(todo)
        invariant Grew(g, h, VariantChildren(vs[..i]), before, order, schemas, Order())
        invariant variants == VariantsOf(g, h, Order(), vs[..i])
      {
        ghost var schemas1, order1 := schemas, Order();
        var payload := VariantPayload(vs[i], todo);
        variants := variants + [SVariant(EffectiveName(vs[i].name, vs[i].rename), AsU32(i), payload)];
        GrewTwice(g, h, VariantChildren(vs[..i]), PayloadChildren(vs[i]),
          before, order, schemas1, order1, schemas, Order());
        VariantsStable(g, h, order1, Order(), vs[..i]);
        assert vs[..i + 1][..i] == vs[..i];
      }
      assert vs[..|vs|] == vs;
    }

    method VariantPayload(v: Variant, ghost todo: set<Id>) returns (payload: Payload)
      requires Valid() && Pending(todo) && FieldsClosed(g, v.data.fields)
      modifies this
      ensures Valid()
      ensures Grew(g, h, PayloadChildren(v), old(schemas), old(Order()), schemas, Order())
      ensures payload == PayloadOf(g, h, Order(), v)
      decreases todo, 1, 0, 2
    {
      hide Grew, Ref;
      GrewNothing(g, h, schemas, Order());
      var fields := v.data.fields;
      if fields == [] {
        return PayloadUnit;
      }
      match v.data.kind {
        case KindStruct =>
          var payloadFields := FieldsOfFields(fields, todo);
          payload := PayloadStruct(payloadFields);
        case KindUnit => payload := PayloadUnit;
        case _ =>
          if |fields| == 1 {
            var r := RefOf(fields[0].shape, todo);
            assert FieldShapes(fields) == [fields[0].shape];
            payload := PayloadNewtype(r);
          } else {
            var elements := RefsOfFields(fields, todo);
            payload := PayloadTuple(elements);
          }
      }
    }

    method FieldSchema(f: Field, ghost todo: set<Id>) returns (r: SField)
      requires Valid() && Pending(todo) && f.shape in g
      modifies this
      ensures Valid()
      ensures Grew(g, h, [f.shape], old(schemas), old(Order()), schemas, Order())
      ensures r == FieldOf(g, h, Order(), f)
      decreases todo, 1, 0, 0
    {
      var schema := RefOf(f.shape, todo);
      r := SField(EffectiveName(f.name, f.rename), schema, !f.hasDefault);
    }
  }

  // ---------------------------------------------------------------- the whole batch

  /** The batch in which shape `order[i]` is entry `i`. */
  ghost function Image(g: Graph, h: map<Id, nat>, order: seq<Id>): (batch: seq<Schema>)
    requires Grounded(g, h) && AllIn(g, order)
    ensures |batch| == |order|
  {
    seq(|order|, i requires 0 <= i < |order| => Schema(i, Translate(g, h, order[i], order)))
  }

  // ---------------------------------------------------------------- what each entry says

  /** `a` is a pointer to `b`, by its metadata. */
  predicate PointsTo(shape: Shape, b: Id) {
    shape.def == DefPointer(Some(b)) || (!shape.def.DefPointer? && (shape.ty == TyReference(b) || shape.ty == TyRaw(b)))
  }

  /** Following pointers from `a` ends at `b`. */
  ghost predicate Denotes(g: Graph, a: Id, b: Id) {
    exists chain: seq<Id> :: PointerChain(g, chain) && chain[0] == a && chain[|chain| - 1] == b
  }

  ghost predicate PointerChain(g: Graph, chain: seq<Id>) {
    && chain != [] && (forall i :: 0 <= i < |chain| ==> chain[i] in g)
    && (forall i :: 0 <= i < |chain| - 1 ==> PointsTo(g[chain[i]], chain[i + 1]))
    && IsNoPointer(g[chain[|chain| - 1]])
  }

  ghost predicate IsNoPointer(shape: Shape) {
    forall b: Id :: !PointsTo(shape, b)
  }

  /** Entry `r` of the batch is for the shape that `id` denotes. */
  ghost predicate Refers(g: Graph, order: seq<Id>, r: SchemaId, id: Id) {
    r < |order| && Denotes(g, id, order[r])
  }

  ghost predicate AllRefer(g: Graph, order: seq<Id>, refs: seq<SchemaId>, fields: seq<Field>) {
    |refs| == |fields| && forall i :: 0 <= i < |refs| ==> Refers(g, order, refs[i], fields[i].shape)
  }

  predicate IsEffective(effective: string, name: string, rename: Option<string>) {
    (rename.Some? && effective == rename.value) || (rename.None? && effective == name)
  }

  ghost predicate FieldFits(g: Graph, order: seq<Id>, f: Field, s: SField) {
    && IsEffective(s.name, f.name, f.rename)
    && Refers(g, order, s.schema, f.shape)
    && (s.required <==> !f.hasDefault)
  }

  /** One schema field for each field, in order. */
  ghost predicate FieldsFit(g: Graph, order: seq<Id>, fields: seq<Field>, ss: seq<SField>) {
    |ss| == |fields| && forall i :: 0 <= i < |ss| ==> FieldFits(g, order, fields[i], ss[i])
  }

  /** The sort of the payload is fixed by the number of fields and the kind of the variant. */
  ghost predicate PayloadFits(g: Graph, order: seq<Id>, data: StructType, p: Payload) {
    var n, tuple := |data.fields|, data.kind.KindTuple? || data.kind.KindTupleStruct?;
    && (p.PayloadUnit? <==> n == 0 || data.kind.KindUnit?)
    && (p.PayloadStruct? <==> n > 0 && data.kind.KindStruct?)
    && (p.PayloadNewtype? <==> n == 1 && tuple)
    && (p.PayloadTuple? <==> n > 1 && tuple)
    && (p.PayloadStruct? ==> FieldsFit(g, order, data.fields, p.fields))
    && (p.PayloadNewtype? ==> Refers(g, order, p.schema, data.fields[0].shape))
    && (p.PayloadTuple? ==> AllRefer(g, order, p.elements, data.fields))
  }

  ghost predicate VariantFits(g: Graph, order: seq<Id>, v: Variant, i: nat, s: SVariant) {
    IsEffective(s.name, v.name, v.rename) && s.index == i % 0x1_0000_0000 && PayloadFits(g, order, v.data, s.payload)
  }

  ghost predicate VariantsFit(g: Graph, order: seq<Id>, vs: seq<Variant>, ss: seq<SVariant>) {
    |ss| == |vs| && forall i :: 0 <= i < |ss| ==> VariantFits(g, order, vs[i], i, ss[i])
  }

  /** The primitive of each scalar that has one. */
  const SCALARS: set<(ScalarType, Primitive)> := {
    (Unit, PUnit), (Bool, PBool), (Char, PChar), (Str, PString), (String, PString), (CowStr, PString),
    (F32, PF32), (F64, PF64),
    (U8, PU8), (U16, PU16), (U32, PU32), (U64, PU64), (U128, PU128), (USize, PU64),
    (I8, PI8), (I16, PI16), (I32, PI32), (I64, PI64), (I128, PI128), (ISize, PI64)}

  /** The prefix and the full Rust name of a shape that has no schema of its own. */
  predicate ExternalFits(shape: Shape, prefix: string, kind: Kind) {
    && kind.KExternal?
    && (shape.modulePath.Some? ==> kind.kind == prefix + ":" + (shape.modulePath.value + "::" + shape.typeIdentifier))
    && (shape.modulePath.None? ==> kind.kind == prefix + ":" + shape.typeIdentifier)
  }

  predicate IsPrimitive(shape: Shape, p: Primitive) {
    shape.scalarType.Some? && (shape.scalarType.value, p) in SCALARS
  }

  /** The kind says what the metadata says: a scalar first, then a container, then the type. */
  ghost predicate KindFits(g: Graph, order: seq<Id>, shape: Shape, kind: Kind) {
    if exists p: Primitive :: IsPrimitive(shape, p) then kind.KPrimitive? && IsPrimitive(shape, kind.primitive)
    else if shape.def.DefScalar? || shape.def.DefUndefined? then TypeFits(g, order, shape, kind)
    else ContainerFits(g, order, shape, kind)
  }

  ghost predicate ContainerFits(g: Graph, order: seq<Id>, shape: Shape, kind: Kind) {
    match shape.def
    case DefMap(k, v) => kind.KMap? && Refers(g, order, kind.key, k) && Refers(g, order, kind.value, v)
    case DefSet(t) => kind.KSet? && Refers(g, order, kind.element, t)
    case DefList(t) => kind.KList? && Refers(g, order, kind.element, t)
    case DefSlice(t) => kind.KList? && Refers(g, order, kind.element, t)
    case DefArray(t, n) => kind.KArray? && Refers(g, order, kind.element, t) && kind.dimensions == [n]
    case DefNdArray(t) => kind.KTensor? && Refers(g, order, kind.element, t)
    case DefOption(t) => kind.KOption? && Refers(g, order, kind.element, t)
    case DefResult(t, e) =>
      && kind.KEnum? && kind.name == shape.typeIdentifier && |kind.variants| == 2
      && kind.variants[0].name == "Ok" && kind.variants[0].index == 0
      && kind.variants[1].name == "Err" && kind.variants[1].index == 1
      && kind.variants[0].payload.PayloadNewtype? && Refers(g, order, kind.variants[0].payload.schema, t)
      && kind.variants[1].payload.PayloadNewtype? && Refers(g, order, kind.variants[1].payload.schema, e)
    case DefPointer(_) => ExternalFits(shape, "rust-pointer-opaque", kind)
    case _ => kind == KDynamic
  }

  ghost predicate TypeFits(g: Graph, order: seq<Id>, shape: Shape, kind: Kind) {
    match shape.ty
    case TyPrimitive => ExternalFits(shape, "rust-primitive-unmapped", kind)
    case TyArray(t, n) => kind.KArray? && Refers(g, order, kind.element, t) && kind.dimensions == [n]
    case TySlice(t) => kind.KList? && Refers(g, order, kind.element, t)
    case TyStruct(st) =>
      if st.kind.KindUnit? || st.kind.KindStruct?
      then kind.KStruct? && kind.name == shape.typeIdentifier && FieldsFit(g, order, st.fields, kind.fields)
      else kind.KTuple? && AllRefer(g, order, kind.elements, st.fields)
    case TyEnum(vs) => kind.KEnum? && kind.name == shape.typeIdentifier && VariantsFit(g, order, vs, kind.variants)
    case TyUnion => ExternalFits(shape, "rust-union", kind)
    case TyOpaque => ExternalFits(shape, "rust-opaque", kind)
    case TyFunction => ExternalFits(shape, "rust-fn-pointer", kind)
    case TyUndefined => ExternalFits(shape, "rust-undefined", kind)
    case _ => false // a pointer has no entry
  }

  /** Entry `i` has number `i` and says what the metadata of shape `order[i]` says. */
  ghost predicate Describes(g: Graph, order: seq<Id>, batch: seq<Schema>) {
    && |batch| == |order| && AllIn(g, order)
    && forall i :: 0 <= i < |batch| ==> batch[i].id == i && KindFits(g, order, g[order[i]], batch[i].kind)
  }

  lemma PointeeIs(shape: Shape)
    ensures TransparentPointee(shape).Some? ==> PointsTo(shape, TransparentPointee(shape).value)
    ensures TransparentPointee(shape).None? ==> IsNoPointer(shape)
  {
  }

  lemma {:induction false} StripDenotes(g: Graph, h: map<Id, nat>, id: Id)
    requires Grounded(g, h) && id in g
    ensures Denotes(g, id, Strip(g, h, id))
    decreases h[id]
  {
    assert GroundedAt(g, h, id);
    PointeeIs(g[id]);
    var p := TransparentPointee(g[id]);
    if p.Some? {
      StripDenotes(g, h, p.value);
      var chain :| PointerChain(g, chain) && chain[0] == p.value && chain[|chain| - 1] == Strip(g, h, id);
      var longer := [id] + chain;
      forall i | 0 <= i < |longer| - 1 ensures PointsTo(g[longer[i]], longer[i + 1]) {
        if i > 0 { assert longer[i] == chain[i - 1] && longer[i + 1] == chain[i]; }
      }
      assert PointerChain(g, longer);
    } else {
      assert PointerChain(g, [id]);
    }
  }

  lemma RefRefers(g: Graph, h: map<Id, nat>, order: seq<Id>, id: Id)
    requires Grounded(g, h) && id in g && Strip(g, h, id) in order
    ensures Refers(g, order, Ref(g, h, order, id), id)
  {
    StripDenotes(g, h, id);
  }

  lemma RefsRefer(g: Graph, h: map<Id, nat>, order: seq<Id>, fields: seq<Field>)
    requires Grounded(g, h) && FieldsClosed(g, fields) && Known(g, h, order, FieldShapes(fields))
    ensures AllRefer(g, order, Refs(g, h, order, FieldShapes(fields)), fields)
    ensures FieldsFit(g, order, fields, FieldsOf(g, h, order, fields))
  {
    hide Refers, Ref, Strip;
    forall i | 0 <= i < |fields| ensures Refers(g, order, Ref(g, h, order, fields[i].shape), fields[i].shape) {
      assert FieldShapes(fields)[i] == fields[i].shape;
      RefRefers(g, h, order, fields[i].shape);
    }
  }

  lemma PayloadOfFits(g: Graph, h: map<Id, nat>, order: seq<Id>, v: Variant)
    requires Grounded(g, h) && FieldsClosed(g, v.data.fields) && Known(g, h, order, PayloadChildren(v))
    ensures PayloadFits(g, order, v.data, PayloadOf(g, h, order, v))
  {
    hide Refers, Ref, Strip, FieldsFit, FieldsOf, Known;
    if v.data.fields != [] && !v.data.kind.KindUnit? {
      RefsRefer(g, h, order, v.data.fields);
    }
  }

  lemma {:induction false} VariantsOfFit(g: Graph, h: map<Id, nat>, order: seq<Id>, vs: seq<Variant>)
    requires Grounded(g, h) && forall v :: 0 <= v < |vs| ==> FieldsClosed(g, vs[v].data.fields)
    requires Known(g, h, order, VariantChildren(vs))
    ensures VariantsFit(g, order, vs, VariantsOf(g, h, order, vs))
  {
    hide PayloadFits, PayloadOf, Known, PayloadChildren;
    if vs != [] {
      var n := |vs| - 1;
      KnownSplit(g, h, order, VariantChildren(vs[..n]), PayloadChildren(vs[n]));
      VariantsOfFit(g, h, order, vs[..n]);
      PayloadOfFits(g, h, order, vs[n]);
      VariantsSplit(g, h, order, vs);
      var ss, before := VariantsOf(g, h, order, vs), VariantsOf(g, h, order, vs[..n]);
      forall i | 0 <= i < |ss| ensures VariantFits(g, order, vs[i], i, ss[i]) {
        if i < n { assert ss[i] == before[i] && VariantFits(g, order, vs[..n][i], i, before[i]); }
      }
    }
  }

  lemma PrimitiveFits(shape: Shape)
    ensures PrimitiveOf(shape).Some? ==> IsPrimitive(shape, PrimitiveOf(shape).value)
    ensures PrimitiveOf(shape).None? ==> forall p: Primitive :: !IsPrimitive(shape, p)
  {
  }

  /** The translation of a shape that is no pointer says what its metadata says. */
  lemma TranslateFits(g: Graph, h: map<Id, nat>, order: seq<Id>, id: Id)
    requires Grounded(g, h) && id in g && TransparentPointee(g[id]).None? && Known(g, h, order, Children(g, h, id))
    ensures KindFits(g, order, g[id], Translate(g, h, id, order))
  {
    hide Refers, Ref, Strip, PrimitiveOf, IsPrimitive, FieldsFit, VariantsFit, FieldsOf, VariantsOf, AllRefer;
    var shape, ids := g[id], Children(g, h, id);
    assert GroundedAt(g, h, id);
    PrimitiveFits(shape);
    if PrimitiveOf(shape).None? {
      match shape.def {
        case DefMap(k, v) => assert ids[0] == k && ids[1] == v; RefRefers(g, h, order, k); RefRefers(g, h, order, v);
        case DefResult(t, e) => assert ids[0] == t && ids[1] == e; RefRefers(g, h, order, t); RefRefers(g, h, order, e);
        case DefSet(t) => assert ids[0] == t; RefRefers(g, h, order, t);
        case DefList(t) => assert ids[0] == t; RefRefers(g, h, order, t);
        case DefArray(t, _) => assert ids[0] == t; RefRefers(g, h, order, t);
        case DefNdArray(t) => assert ids[0] == t; RefRefers(g, h, order, t);
        case DefSlice(t) => assert ids[0] == t; RefRefers(g, h, order, t);
        case DefOption(t) => assert ids[0] == t; RefRefers(g, h, order, t);
        case DefUndefined => TranslateTypeFits(g, h, order, id);
        case DefScalar => TranslateTypeFits(g, h, order, id);
        case _ =>
      }
    }
  }

  lemma TranslateTypeFits(g: Graph, h: map<Id, nat>, order: seq<Id>, id: Id)
    requires Grounded(g, h) && id in g && TransparentPointee(g[id]).None? && Known(g, h, order, Children(g, h, id))
    requires PrimitiveOf(g[id]).None? && (g[id].def.DefUndefined? || g[id].def.DefScalar?)
    ensures TypeFits(g, order, g[id], Translate(g, h, id, order))
  {
    hide Refers, Ref, Strip, PrimitiveOf, FieldsFit, VariantsFit, FieldsOf, VariantsOf, AllRefer;
    var shape, ids := g[id], Children(g, h, id);
    assert GroundedAt(g, h, id);
    match shape.ty {
      case TyArray(t, _) => assert ids[0] == t; RefRefers(g, h, order, t);
      case TySlice(t) => assert ids[0] == t; RefRefers(g, h, order, t);
      case TyStruct(st) => RefsRefer(g, h, order, st.fields);
      case TyEnum(vs) => VariantsOfFit(g, h, order, vs);
      case _ =>
    }
  }

  /** The batch in discovery order says what the metadata says. */
  lemma ImageDescribes(g: Graph, h: map<Id, nat>, root: Id)
    requires Grounded(g, h) && root in g
    ensures var order := Discover(g, h, [root], []);
            Describes(g, order, Image(g, h, order))
  {
    hide Discover, Translate, KindFits, Children;
    var order := Discover(g, h, [root], []);
    forall i | 0 <= i < |order| ensures KindFits(g, order, g[order[i]], Translate(g, h, order[i], order)) {
      DiscoverStripped(g, h, [root], [], order[i]);
      DiscoverClosed(g, h, [root], [], order[i]);
      TranslateFits(g, h, order, order[i]);
    }
  }

  method SchemasOf(g: Graph, ghost h: map<Id, nat>, root: Id) returns (batch: seq<Schema>)
    requires Grounded(g, h) && root in g
    ensures batch == Image(g, h, Discover(g, h, [root], []))
    ensures Describes(g, Discover(g, h, [root], []), batch)
  {
    hide Translate, Children, Discover, Ref, Describes;
    var builder := new Builder(g, h);
    var r := builder.RefOf(root, g.Keys);
    batch := builder.schemas;
    ghost var order := builder.Order();
    forall i | 0 <= i < |batch| ensures batch[i] == Image(g, h, order)[i] {
      assert Finished(g, h, order, batch, i);
    }
    assert batch == Image(g, h, order);
    ImageDescribes(g, h, root);
  }

  method SchemaOf(g: Graph, ghost h: map<Id, nat>, root: Id) returns (schema: Schema)
    requires Grounded(g, h) && root in g
    ensures schema == Schema(0, Translate(g, h, Strip(g, h, root), Discover(g, h, [root], [])))
    ensures KindFits(g, Discover(g, h, [root], []), g[Strip(g, h, root)], schema.kind)
  {
    hide Translate, Children, KindFits;
    var schemas := SchemasOf(g, h, root);
    FirstDiscovered(g, h, root);
    schema := schemas[0];
  }

  /** Shape `b` is a pointer-stripped child of shape `a`. */
  ghost predicate Edge(g: Graph, h: map<Id, nat>, a: Id, b: Id)
    requires Grounded(g, h) && a in g
  {
    ChildrenClosed(g, h, a);
    exists k :: 0 <= k < |Children(g, h, a)| && Strip(g, h, Children(g, h, a)[k]) == b
  }

  ghost predicate Trail(g: Graph, h: map<Id, nat>, trail: seq<Id>)
    requires Grounded(g, h)
  {
    && trail != [] && AllIn(g, trail)
    && forall k :: 0 <= k < |trail| - 1 ==> Edge(g, h, trail[k], trail[k + 1])
  }

  ghost predicate Reaches(g: Graph, h: map<Id, nat>, a: Id, b: Id)
    requires Grounded(g, h)
  {
    exists trail :: Trail(g, h, trail) && trail[0] == a && trail[|trail| - 1] == b
  }

  lemma ReachesSelf(g: Graph, h: map<Id, nat>, a: Id)
    requires Grounded(g, h) && a in g
    ensures Reaches(g, h, a, a)
  {
    assert Trail(g, h, [a]);
  }

  lemma ReachesFirst(g: Graph, h: map<Id, nat>, a: Id, b: Id, c: Id)
    requires Grounded(g, h) && a in g && Edge(g, h, a, b) && Reaches(g, h, b, c)
    ensures Reaches(g, h, a, c)
  {
    var trail :| Trail(g, h, trail) && trail[0] == b && trail[|trail| - 1] == c;
    var longer := [a] + trail;
    forall k | 0 <= k < |longer| - 1 ensures Edge(g, h, longer[k], longer[k + 1]) {
      if k > 0 { assert longer[k] == trail[k - 1] && longer[k + 1] == trail[k]; }
    }
    assert Trail(g, h, longer);
  }

  lemma {:induction false} DiscoverDistinct(g: Graph, h: map<Id, nat>, ids: seq<Id>, acc: seq<Id>)
    requires Grounded(g, h) && AllIn(g, ids) && AllIn(g, acc) && Distinct(acc)
    ensures Distinct(Discover(g, h, ids, acc))
    decreases Unseen(g, acc), |ids|
  {
    hide Strip, Children, Unseen;
    if ids != [] {
      var s := Strip(g, h, ids[0]);
      ChildrenClosed(g, h, s);
      Shrinks(g, acc, acc + [s]);
      var acc1 := if s in acc then acc else Discover(g, h, Children(g, h, s), acc + [s]);
      if s !in acc {
        DiscoverDistinct(g, h, Children(g, h, s), acc + [s]);
      }
      Shrinks(g, acc, acc1);
      DiscoverDistinct(g, h, ids[1..], acc1);
    }
  }

  /** What was asked for is discovered. */
  lemma {:induction false} DiscoverAsked(g: Graph, h: map<Id, nat>, ids: seq<Id>, acc: seq<Id>)
    requires Grounded(g, h) && AllIn(g, ids) && AllIn(g, acc)
    ensures Known(g, h, Discover(g, h, ids, acc), ids)
    decreases |ids|
  {
    hide Children;
    if ids != [] {
      var s := Strip(g, h, ids[0]);
      ChildrenClosed(g, h, s);
      var acc1 := if s in acc then acc else Discover(g, h, Children(g, h, s), acc + [s]);
      assert s in acc1 by {
        if s !in acc { assert (acc + [s])[|acc|] == acc1[|acc|]; }
      }
      DiscoverAsked(g, h, ids[1..], acc1);
      var all := Discover(g, h, ids[1..], acc1);
      forall i | 0 <= i < |ids| ensures Strip(g, h, ids[i]) in all {
        if i > 0 { assert ids[i] == ids[1..][i - 1]; }
      }
    }
  }

  /** Nothing is left out: every child of a newly discovered shape is discovered too. */
  lemma {:induction false} DiscoverClosed(g: Graph, h: map<Id, nat>, ids: seq<Id>, acc: seq<Id>, x: Id)
    requires Grounded(g, h) && AllIn(g, ids) && AllIn(g, acc)
    requires x in Discover(g, h, ids, acc) && x !in acc
    ensures Known(g, h, Discover(g, h, ids, acc), Children(g, h, x))
    decreases Unseen(g, acc), |ids|
  {
    hide Strip, Children, Known, Unseen;
    var s := Strip(g, h, ids[0]);
    ChildrenClosed(g, h, s);
    Shrinks(g, acc, acc + [s]);
    var acc1 := if s in acc then acc else Discover(g, h, Children(g, h, s), acc + [s]);
    Shrinks(g, acc, acc1);
    var all := Discover(g, h, ids[1..], acc1);
    if x !in acc1 {
      DiscoverClosed(g, h, ids[1..], acc1, x);
    } else {
      if x == s {
        DiscoverAsked(g, h, Children(g, h, s), acc + [s]);
      } else {
        DiscoverClosed(g, h, Children(g, h, s), acc + [s], x);
      }
      RefsStable(g, h, acc1, all, Children(g, h, x));
    }
  }

  /** Nothing else comes in: each new shape is reached from one that was asked for. */
  lemma {:induction false} DiscoverReached(g: Graph, h: map<Id, nat>, ids: seq<Id>, acc: seq<Id>, x: Id)
    returns (k: nat)
    requires Grounded(g, h) && AllIn(g, ids) && AllIn(g, acc)
    requires x in Discover(g, h, ids, acc) && x !in acc
    ensures k < |ids| && Reaches(g, h, Strip(g, h, ids[k]), x)
    decreases Unseen(g, acc), |ids|
  {
    hide Strip, Children, Reaches, Unseen, Discover;
    DiscoverNothing(g, h, acc);
    var s := Strip(g, h, ids[0]);
    DiscoverFirst(g, h, ids, acc);
    var acc1 := if s in acc then acc else Discover(g, h, Children(g, h, s), acc + [s]);
    if x !in acc1 {
      k := DiscoverReached(g, h, ids[1..], acc1, x);
      k := k + 1;
    } else if x == s {
      ReachesSelf(g, h, s);
      k := 0;
    } else {
      var c := DiscoverReached(g, h, Children(g, h, s), acc + [s], x);
      ReachesFirst(g, h, s, Strip(g, h, Children(g, h, s)[c]), x);
      k := 0;
    }
  }

  lemma DiscoverNothing(g: Graph, h: map<Id, nat>, acc: seq<Id>)
    requires Grounded(g, h) && AllIn(g, acc)
    ensures Discover(g, h, [], acc) == acc
  {
  }

  lemma FirstDiscovered(g: Graph, h: map<Id, nat>, root: Id)
    requires Grounded(g, h) && root in g
    ensures var order := Discover(g, h, [root], []);
            order != [] && order[0] == Strip(g, h, root)
  {
    hide Children;
    var s := Strip(g, h, root);
    ChildrenClosed(g, h, s);
    assert Strip(g, h, [root][0]) == s && [root][1..] == [];
    assert Discover(g, h, [root], []) == Discover(g, h, Children(g, h, s), [] + [s]);
    assert ([] + [s])[0] == s;
  }

  /**
    The batch has exactly one entry for each non-pointer shape reachable from the
    root, and the root itself is entry 0.
   */
  lemma DiscoverIsReachability(g: Graph, h: map<Id, nat>, root: Id)
    requires Grounded(g, h) && root in g
    ensures var order := Discover(g, h, [root], []);
            && Distinct(order)
            && order != [] && order[0] == Strip(g, h, root)
            && forall x :: x in g ==> (x in order <==> Reaches(g, h, Strip(g, h, root), x))
  {
    hide Children;
    var order := Discover(g, h, [root], []);
    var s := Strip(g, h, root);
    DiscoverDistinct(g, h, [root], []);
    FirstDiscovered(g, h, root);
    DiscoverAsked(g, h, [root], []);
    assert Strip(g, h, [root][0]) in order;
    forall x | x in order ensures Known(g, h, order, Children(g, h, x)) {
      DiscoverClosed(g, h, [root], [], x);
    }
    forall x | x in order ensures Reaches(g, h, s, x) {
      var k := DiscoverReached(g, h, [root], [], x);
    }
    forall x | x in g && Reaches(g, h, s, x) ensures x in order {
      var trail :| Trail(g, h, trail) && trail[0] == s && trail[|trail| - 1] == x;
      TrailStays(g, h, order, trail);
    }
  }

  lemma {:induction false} TrailStays(g: Graph, h: map<Id, nat>, order: seq<Id>, trail: seq<Id>)
    requires Grounded(g, h) && Trail(g, h, trail) && trail[0] in order && AllIn(g, order)
    requires forall x :: x in order ==> Known(g, h, order, Children(g, h, x))
    ensures trail[|trail| - 1] in order
  {
    hide Children;
    if |trail| > 1 {
      assert Edge(g, h, trail[0], trail[1]);
      forall k | 0 <= k < |trail| - 2 ensures Edge(g, h, trail[1..][k], trail[1..][k + 1]) {
        assert Edge(g, h, trail[k + 1], trail[k + 1 + 1]);
      }
      TrailStays(g, h, order, trail[1..]);
    }
  }

  // ---------------------------------------------------------------- the references of a kind

  function FieldRefs(fields: seq<SField>): (r: seq<SchemaId>)
    ensures |r| == |fields|
  {
    seq(|fields|, i requires 0 <= i < |fields| => fields[i].schema)
  }

  function PayloadRefs(p: Payload): seq<SchemaId> {
    match p
    case PayloadUnit => []
    case PayloadNewtype(r) => [r]
    case PayloadTuple(elements) => elements
    case PayloadStruct(fields) => FieldRefs(fields)
  }

  function VariantRefs(vs: seq<SVariant>): seq<SchemaId> {
    if vs == [] then [] else VariantRefs(vs[..|vs| - 1]) + PayloadRefs(vs[|vs| - 1].payload)
  }

  /** Every `SchemaRef::Concrete` inside a kind, left to right. */
  function KindRefs(kind: Kind): seq<SchemaId> {
    match kind
    case KMap(key, value) => [key, value]
    case KSet(element) => [element]
    case KList(element) => [element]
    case KArray(element, _) => [element]
    case KTensor(element) => [element]
    case KOption(element) => [element]
    case KEnum(_, variants) => VariantRefs(variants)
    case KTuple(elements) => elements
    case KStruct(_, fields) => FieldRefs(fields)
    case _ => []
  }

  lemma RefsConcat(g: Graph, h: map<Id, nat>, order: seq<Id>, a: seq<Id>, b: seq<Id>)
    requires Grounded(g, h) && AllIn(g, a) && AllIn(g, b)
    ensures AllIn(g, a + b) && Refs(g, h, order, a + b) == Refs(g, h, order, a) + Refs(g, h, order, b)
  {
  }

  lemma FieldRefsTranslate(g: Graph, h: map<Id, nat>, order: seq<Id>, fields: seq<Field>)
    requires Grounded(g, h) && FieldsClosed(g, fields)
    ensures FieldRefs(FieldsOf(g, h, order, fields)) == Refs(g, h, order, FieldShapes(fields))
  {
  }

  lemma PayloadRefsTranslate(g: Graph, h: map<Id, nat>, order: seq<Id>, v: Variant)
    requires Grounded(g, h) && FieldsClosed(g, v.data.fields)
    ensures PayloadRefs(PayloadOf(g, h, order, v)) == Refs(g, h, order, PayloadChildren(v))
  {
    hide Ref;
    FieldRefsTranslate(g, h, order, v.data.fields);
  }

  lemma {:induction false} VariantRefsTranslate(g: Graph, h: map<Id, nat>, order: seq<Id>, vs: seq<Variant>)
    requires Grounded(g, h) && forall v :: 0 <= v < |vs| ==> FieldsClosed(g, vs[v].data.fields)
    ensures AllIn(g, VariantChildren(vs))
    ensures VariantRefs(VariantsOf(g, h, order, vs)) == Refs(g, h, order, VariantChildren(vs))
  {
    hide Refs, PayloadOf;
    VariantChildrenClosed(g, vs);
    if vs != [] {
      var n := |vs| - 1;
      assert FieldsClosed(g, vs[n].data.fields);
      VariantRefsTranslate(g, h, order, vs[..n]);
      PayloadRefsTranslate(g, h, order, vs[n]);
      RefsConcat(g, h, order, VariantChildren(vs[..n]), PayloadChildren(vs[n]));
      VariantsSplit(g, h, order, vs);
      assert VariantsOf(g, h, order, vs)[..n] == VariantsOf(g, h, order, vs[..n]);
    } else {
      assert VariantsOf(g, h, order, vs) == [];
      assert Refs(g, h, order, []) == [];
    }
  }

  lemma RefsOne(g: Graph, h: map<Id, nat>, order: seq<Id>, a: Id)
    requires Grounded(g, h) && a in g
    ensures Refs(g, h, order, [a]) == [Ref(g, h, order, a)]
  {
  }

  lemma RefsTwo(g: Graph, h: map<Id, nat>, order: seq<Id>, a: Id, b: Id)
    requires Grounded(g, h) && a in g && b in g
    ensures Refs(g, h, order, [a, b]) == [Ref(g, h, order, a), Ref(g, h, order, b)]
  {
  }

  lemma TwoNewtypes(name0: string, name1: string, a: SchemaId, b: SchemaId)
    ensures VariantRefs([SVariant(name0, 0, PayloadNewtype(a)), SVariant(name1, 1, PayloadNewtype(b))]) == [a, b]
  {
    var vs := [SVariant(name0, 0, PayloadNewtype(a)), SVariant(name1, 1, PayloadNewtype(b))];
    assert vs[..1] == [vs[0]] && vs[..1][..0] == [];
    assert VariantRefs(vs[..1]) == VariantRefs(vs[..1][..0]) + [a];
  }

  /** The references inside a translated kind are the numbers of the shape's children, in order. */
  lemma {:induction false} KindRefsTranslate(g: Graph, h: map<Id, nat>, order: seq<Id>, id: Id)
    requires Grounded(g, h) && id in g
    ensures AllIn(g, Children(g, h, id))
    ensures KindRefs(Translate(g, h, id, order)) == Refs(g, h, order, Children(g, h, id))
    decreases h[id], 1
  {
    hide Ref, Refs, VariantRefs, VariantChildren, FieldRefs, PrimitiveOf, RustName, VariantsOf, FieldsOf, AsU32, EffectiveName;
    ChildrenClosed(g, h, id);
    assert GroundedAt(g, h, id);
    assert Refs(g, h, order, []) == [];
    if PrimitiveOf(g[id]).None? {
      match g[id].def {
        case DefMap(k, v) => RefsTwo(g, h, order, k, v);
        case DefSet(t) => RefsOne(g, h, order, t);
        case DefList(t) => RefsOne(g, h, order, t);
        case DefArray(t, _) => RefsOne(g, h, order, t);
        case DefNdArray(t) => RefsOne(g, h, order, t);
        case DefSlice(t) => RefsOne(g, h, order, t);
        case DefOption(t) => RefsOne(g, h, order, t);
        case DefResult(t, e) =>
          RefsTwo(g, h, order, t, e);
          TwoNewtypes("Ok", "Err", Ref(g, h, order, t), Ref(g, h, order, e));
        case DefPointer(Some(p)) => KindRefsTranslate(g, h, order, p);
        case DefPointer(None) =>
        case DefDynamicValue =>
        case _ => TypeRefsTranslate(g, h, order, id);
      }
    }
  }

  lemma {:induction false} TypeRefsTranslate(g: Graph, h: map<Id, nat>, order: seq<Id>, id: Id)
    requires Grounded(g, h) && id in g && PrimitiveOf(g[id]).None?
    requires g[id].def.DefScalar? || g[id].def.DefUndefined?
    ensures AllIn(g, Children(g, h, id))
    ensures KindRefs(Translate(g, h, id, order)) == Refs(g, h, order, Children(g, h, id))
    decreases h[id], 0
  {
    hide Ref, Refs, VariantRefs, VariantChildren, FieldRefs, PrimitiveOf, RustName, VariantsOf, FieldsOf, AsU32, EffectiveName;
    ChildrenClosed(g, h, id);
    assert GroundedAt(g, h, id);
    assert Refs(g, h, order, []) == [];
    match g[id].ty {
      case TyArray(t, _) => RefsOne(g, h, order, t);
      case TySlice(t) => RefsOne(g, h, order, t);
      case TyStruct(st) => FieldRefsTranslate(g, h, order, st.fields);
      case TyEnum(vs) => VariantRefsTranslate(g, h, order, vs);
      case TyReference(t) => KindRefsTranslate(g, h, order, t);
      case TyRaw(t) => KindRefsTranslate(g, h, order, t);
      case _ =>
    }
  }

  /**
    The batch is an exact image of the reachable shapes: every reference is in
    range, entry `i` refers to entry `j` just when shape `j` is a stripped child
    of shape `i`, and a `Dynamic` entry is never a leftover placeholder.
   */
  lemma FaithfulImage(g: Graph, h: map<Id, nat>, root: Id)
    requires Grounded(g, h) && root in g
    ensures var order := Discover(g, h, [root], []);
            var batch := Image(g, h, order);
            && (forall i :: 0 <= i < |batch| ==> batch[i].id == i && TransparentPointee(g[order[i]]).None?)
            && (forall i, r :: 0 <= i < |batch| && r in KindRefs(batch[i].kind) ==> r < |batch|)
            && (forall i, j :: 0 <= i < |batch| && 0 <= j < |batch| ==>
                  (j in KindRefs(batch[i].kind) <==> Edge(g, h, order[i], order[j])))
            && (forall i :: 0 <= i < |batch| && batch[i].kind == KDynamic ==>
                  g[order[i]].def.DefDynamicValue? && PrimitiveOf(g[order[i]]).None?)
  {
    hide Discover, Reaches;
    var order := Discover(g, h, [root], []);
    var batch := Image(g, h, order);
    DiscoverIsReachability(g, h, root);
    forall i | 0 <= i < |order| ensures TransparentPointee(g[order[i]]).None? {
      DiscoverStripped(g, h, [root], [], order[i]);
    }
    forall i | 0 <= i < |order|
      ensures forall r :: r in KindRefs(batch[i].kind) ==> r < |batch| && Edge(g, h, order[i], order[r])
      ensures forall j :: 0 <= j < |batch| && Edge(g, h, order[i], order[j]) ==> j in KindRefs(batch[i].kind)
    {
      EntryEdges(g, h, root, i);
    }
  }

  lemma {:induction false} DiscoverStripped(g: Graph, h: map<Id, nat>, ids: seq<Id>, acc: seq<Id>, x: Id)
    requires Grounded(g, h) && AllIn(g, ids) && AllIn(g, acc)
    requires x in Discover(g, h, ids, acc) && x !in acc
    ensures TransparentPointee(g[x]).None?
    decreases Unseen(g, acc), |ids|
  {
    hide Strip, Children, Unseen;
    var s := Strip(g, h, ids[0]);
    ChildrenClosed(g, h, s);
    Shrinks(g, acc, acc + [s]);
    var acc1 := if s in acc then acc else Discover(g, h, Children(g, h, s), acc + [s]);
    Shrinks(g, acc, acc1);
    if x !in acc1 {
      DiscoverStripped(g, h, ids[1..], acc1, x);
    } else if x != s {
      DiscoverStripped(g, h, Children(g, h, s), acc + [s], x);
    }
  }

  lemma EntryEdges(g: Graph, h: map<Id, nat>, root: Id, i: nat)
    requires Grounded(g, h) && root in g && i < |Discover(g, h, [root], [])|
    ensures var order := Discover(g, h, [root], []);
            var refs := KindRefs(Translate(g, h, order[i], order));
            && (forall r :: r in refs ==> r < |order| && Edge(g, h, order[i], order[r]))
            && (forall j :: 0 <= j < |order| && Edge(g, h, order[i], order[j]) ==> j in refs)
  {
    hide Discover, Children, Translate;
    var order := Discover(g, h, [root], []);
    var x := order[i];
    DiscoverDistinct(g, h, [root], []);
    DiscoverClosed(g, h, [root], [], x);
    KindRefsTranslate(g, h, order, x);
    var refs, ids := Refs(g, h, order, Children(g, h, x)), Children(g, h, x);
    forall r | r in refs ensures r < |order| && Edge(g, h, x, order[r]) {
      var k :| 0 <= k < |refs| && refs[k] == r;
      assert r == IndexOf(order, Strip(g, h, ids[k]));
    }
    forall j | 0 <= j < |order| && Edge(g, h, x, order[j]) ensures j in refs {
      var k :| 0 <= k < |ids| && Strip(g, h, ids[k]) == order[j];
      assert refs[k] == IndexOf(order, order[j]) == j;
    }
  }

  // ---------------------------------------------------------------- how the batch is numbered

  /** Every reference in the batch is to one of its entries. */
  predicate InRange(batch: seq<Schema>, refs: seq<SchemaId>) {
    forall k :: 0 <= k < |refs| ==> refs[k] < |batch|
  }

  predicate IsClosed(batch: seq<Schema>) {
    forall i :: 0 <= i < |batch| ==> InRange(batch, KindRefs(batch[i].kind))
  }

  /** How many entries are visited when the batch's own references are followed depth first, `n` being visited already. */
  ghost predicate VisitsUpTo(batch: seq<Schema>, refs: seq<SchemaId>, n: nat, m: nat)
    requires IsClosed(batch) && n <= |batch|
    decreases |batch| - n, |refs|
  {
    if refs == [] then m == n
    else if refs[0] < n then VisitsUpTo(batch, refs[1..], n, m)
    else
      && refs[0] == n < |batch|
      && exists k: nat :: n < k <= |batch| && VisitsUpTo(batch, KindRefs(batch[n].kind), n + 1, k) && VisitsUpTo(batch, refs[1..], k, m)
  }

  /** The image of a batch whose entries are all known. */
  ghost predicate Complete(g: Graph, h: map<Id, nat>, order: seq<Id>)
    requires Grounded(g, h) && AllIn(g, order)
  {
    Distinct(order) && forall i :: 0 <= i < |order| ==> Known(g, h, order, Children(g, h, order[i]))
  }

  lemma ImageIsClosed(g: Graph, h: map<Id, nat>, order: seq<Id>)
    requires Grounded(g, h) && AllIn(g, order) && Complete(g, h, order)
    ensures IsClosed(Image(g, h, order))
  {
    hide Children, Translate, KindRefs, Strip;
    var batch := Image(g, h, order);
    forall i | 0 <= i < |batch| ensures InRange(batch, KindRefs(batch[i].kind)) {
      KindRefsTranslate(g, h, order, order[i]);
    }
  }

  lemma RefInPrefix(order: seq<Id>, acc: seq<Id>, x: Id)
    requires acc <= order && Distinct(order) && x in order
    ensures x in acc <==> IndexOf(order, x) < |acc|
  {
    var k := IndexOf(order, x);
    if x in acc {
      var j :| 0 <= j < |acc| && acc[j] == x;
      assert order[j] == x;
    }
  }

  /**
    Visiting the references of `ids` depth first, when the entries of `acc` are visited,
    visits exactly the entries that discovery adds, in the order of their numbers.
   */
  lemma {:induction false} VisitsDiscovered(g: Graph, h: map<Id, nat>, order: seq<Id>, ids: seq<Id>, acc: seq<Id>)
    requires Grounded(g, h) && AllIn(g, order) && Complete(g, h, order) && Known(g, h, order, ids)
    requires AllIn(g, acc) && Discover(g, h, ids, acc) <= order
    ensures IsClosed(Image(g, h, order)) && |acc| <= |order|
    ensures VisitsUpTo(Image(g, h, order), Refs(g, h, order, ids), |acc|, |Discover(g, h, ids, acc)|)
    decreases Unseen(g, acc), |ids|
  {
    hide Strip, Children, Unseen, Translate, IsClosed, KindRefs, Discover, VisitsUpTo, Image, Complete;
    ImageIsClosed(g, h, order);
    var refs, batch := Refs(g, h, order, ids), Image(g, h, order);
    if ids == [] {
      DiscoverNothing(g, h, acc);
      VisitNothing(batch, |acc|);
      assert refs == [];
    } else {
      var s := Strip(g, h, ids[0]);
      DiscoverFirst(g, h, ids, acc);
      CompleteIsDistinct(g, h, order);
      RefInPrefix(order, acc, s);
      assert refs[1..] == Refs(g, h, order, ids[1..]);
      if s in acc {
        VisitsDiscovered(g, h, order, ids[1..], acc);
        VisitSeen(batch, refs, |acc|, |Discover(g, h, ids, acc)|);
      } else {
        var acc1 := Discover(g, h, Children(g, h, s), acc + [s]);
        assert (acc + [s])[|acc|] == s && acc1[|acc|] == s && order[|acc|] == s;
        assert refs[0] == |acc|;
        VisitsDiscovered(g, h, order, ids[1..], acc1);
        VisitsDiscovered(g, h, order, Children(g, h, s), acc + [s]);
        EntryRefs(g, h, order, |acc|);
        VisitNew(batch, refs, |acc|, |acc1|, |Discover(g, h, ids, acc)|);
      }
    }
  }

  lemma CompleteIsDistinct(g: Graph, h: map<Id, nat>, order: seq<Id>)
    requires Grounded(g, h) && AllIn(g, order) && Complete(g, h, order)
    ensures Distinct(order) && forall i :: 0 <= i < |order| ==> Known(g, h, order, Children(g, h, order[i]))
  {
  }

  lemma EntryRefs(g: Graph, h: map<Id, nat>, order: seq<Id>, i: nat)
    requires Grounded(g, h) && AllIn(g, order) && i < |order|
    ensures AllIn(g, Children(g, h, order[i]))
    ensures KindRefs(Image(g, h, order)[i].kind) == Refs(g, h, order, Children(g, h, order[i]))
  {
    hide KindRefs, Children, Translate;
    KindRefsTranslate(g, h, order, order[i]);
  }

  lemma VisitNothing(batch: seq<Schema>, n: nat)
    requires IsClosed(batch) && n <= |batch|
    ensures VisitsUpTo(batch, [], n, n)
  {
  }

  lemma VisitSeen(batch: seq<Schema>, refs: seq<SchemaId>, n: nat, m: nat)
    requires IsClosed(batch) && n <= |batch| && refs != [] && refs[0] < n && VisitsUpTo(batch, refs[1..], n, m)
    ensures VisitsUpTo(batch, refs, n, m)
  {
  }

  lemma VisitNew(batch: seq<Schema>, refs: seq<SchemaId>, n: nat, k: nat, m: nat)
    requires IsClosed(batch) && n < k <= |batch| && refs != [] && refs[0] == n
    requires VisitsUpTo(batch, KindRefs(batch[n].kind), n + 1, k) && VisitsUpTo(batch, refs[1..], k, m)
    ensures VisitsUpTo(batch, refs, n, m)
  {
    hide KindRefs;
  }

  /**
    The numbers are those of a depth-first traversal of the batch itself: following its
    references from entry 0, left to right, visits entry 0, 1, 2 and so on to the last.
   */
  lemma PreorderNumbers(g: Graph, h: map<Id, nat>, root: Id)
    requires Grounded(g, h) && root in g
    ensures var batch := Image(g, h, Discover(g, h, [root], []));
            IsClosed(batch) && VisitsUpTo(batch, [0], 0, |batch|)
  {
    hide Discover, Strip, Children, VisitsUpTo;
    var order := Discover(g, h, [root], []);
    DiscoverDistinct(g, h, [root], []);
    DiscoverAsked(g, h, [root], []);
    FirstDiscovered(g, h, root);
    forall i | 0 <= i < |order| ensures Known(g, h, order, Children(g, h, order[i])) {
      DiscoverClosed(g, h, [root], [], order[i]);
    }
    VisitsDiscovered(g, h, order, [root], []);
    assert Refs(g, h, order, [root]) == [0];
  }
}
