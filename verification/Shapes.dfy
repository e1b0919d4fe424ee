/**
  The reflection metadata of a program, as a finite graph.

  A `&'static Shape` is an `Id` (its `ConstTypeId`), and the graph maps every id
  to the metadata stored behind it, so equal ids mean equal shapes. Cycles are
  ordinary: recursive types are graphs whose edges lead back to an ancestor.
 */
module Shapes {
  import opened Wrappers

  type Id = nat

  datatype StructKind = KindUnit | KindTupleStruct | KindStruct | KindTuple

  datatype Field = Field(name: string, rename: Option<string>, shape: Id, hasDefault: bool)

  datatype StructType = StructType(kind: StructKind, fields: seq<Field>)

  datatype Variant = Variant(name: string, rename: Option<string>, data: StructType)

  /** What the type is made of (`shape.ty`). */
  datatype Type =
    | TyUndefined
    | TyPrimitive
    | TyArray(t: Id, n: nat)
    | TySlice(t: Id)
    | TyStruct(st: StructType)
    | TyEnum(variants: seq<Variant>)
    | TyUnion
    | TyOpaque
    | TyReference(target: Id)
    | TyRaw(target: Id)
    | TyFunction

  /** What the type means as a container (`shape.def`). */
  datatype Def =
    | DefUndefined
    | DefScalar
    | DefMap(k: Id, v: Id)
    | DefSet(t: Id)
    | DefList(t: Id)
    | DefArray(t: Id, n: nat)
    | DefNdArray(t: Id)
    | DefSlice(t: Id)
    | DefOption(t: Id)
    | DefResult(t: Id, e: Id)
    | DefPointer(pointee: Option<Id>)
    | DefDynamicValue

  datatype ScalarType =
    | Unit | Bool | Char | Str | String | CowStr | F32 | F64
    | U8 | U16 | U32 | U64 | U128 | USize
    | I8 | I16 | I32 | I64 | I128 | ISize
    | ConstTypeId | SocketAddr | IpAddr | Ipv4Addr | Ipv6Addr

  datatype Shape = Shape(
    declId: nat,
    ty: Type,
    def: Def,
    typeIdentifier: string,
    modulePath: Option<string>,
    inner: Option<Id>,
    proxy: Option<Id>,
    scalarType: Option<ScalarType>)

  type Graph = map<Id, Shape>

  /** `i as u32`. */
  function AsU32(i: nat): nat {
    i % 0x1_0000_0000
  }

  function EffectiveName(name: string, rename: Option<string>): string {
    match rename
    case Some(r) => r
    case None => name
  }

  function FieldShapes(fields: seq<Field>): (ids: seq<Id>)
    ensures |ids| == |fields|
    ensures forall i :: 0 <= i < |ids| ==> ids[i] == fields[i].shape
  {
    seq(|fields|, i requires 0 <= i < |fields| => fields[i].shape)
  }

  predicate FieldsClosed(g: Graph, fields: seq<Field>) {
    forall i :: 0 <= i < |fields| ==> fields[i].shape in g
  }

  predicate TypeClosed(g: Graph, ty: Type) {
    match ty
    case TyArray(t, _) => t in g
    case TySlice(t) => t in g
    case TyStruct(st) => FieldsClosed(g, st.fields)
    case TyEnum(vs) => forall v :: 0 <= v < |vs| ==> FieldsClosed(g, vs[v].data.fields)
    case TyReference(t) => t in g
    case TyRaw(t) => t in g
    case _ => true
  }

  predicate DefClosed(g: Graph, def: Def) {
    match def
    case DefMap(k, v) => k in g && v in g
    case DefSet(t) => t in g
    case DefList(t) => t in g
    case DefArray(t, _) => t in g
    case DefNdArray(t) => t in g
    case DefSlice(t) => t in g
    case DefOption(t) => t in g
    case DefResult(t, e) => t in g && e in g
    case DefPointer(Some(t)) => t in g
    case _ => true
  }

  predicate ShapeClosed(g: Graph, id: Id)
    requires id in g
  {
    && TypeClosed(g, g[id].ty)
    && DefClosed(g, g[id].def)
    && (g[id].inner.Some? ==> g[id].inner.value in g)
    && (g[id].proxy.Some? ==> g[id].proxy.value in g)
  }

  /** Every shape mentioned by a shape of the graph is in the graph. */
  ghost predicate Closed(g: Graph) {
    forall id {:trigger ShapeClosed(g, id)} :: id in g ==> ShapeClosed(g, id)
  }
}
