/**
  How many separate pieces a value of a type may show: a saturating count that is
  the exact count cut off at the largest `usize`.
 */
module Chunkiness {
  import opened Shapes

  const USIZE_MAX: nat := 0xFFFF_FFFF_FFFF_FFFF

  newtype usize = x: int | 0 <= x <= USIZE_MAX

  /** An exact count; a slice has no bound. */
  datatype Count = Finite(n: nat) | Unbounded

  function Plus(a: Count, b: Count): Count {
    if a.Finite? && b.Finite? then Finite(a.n + b.n) else Unbounded
  }

  function Times(a: Count, k: nat): Count {
    if k == 0 then Finite(0) else if a.Finite? then Finite(a.n * k) else Unbounded
  }

  function Larger(a: Count, b: Count): Count {
    if a.Finite? && b.Finite? then (if a.n < b.n then b else a) else Unbounded
  }

  function Saturate(a: Count): usize {
    if a.Finite? && a.n <= USIZE_MAX then a.n as usize else USIZE_MAX as usize
  }

  function SaturatingAdd(a: usize, b: usize): usize {
    if a as int + b as int <= USIZE_MAX then a + b else USIZE_MAX as usize
  }

  function SaturatingMul(a: usize, k: usize): usize {
    if a as int * k as int <= USIZE_MAX then (a as int * k as int) as usize else USIZE_MAX as usize
  }

  lemma AddSaturates(a: Count, b: Count)
    ensures SaturatingAdd(Saturate(a), Saturate(b)) == Saturate(Plus(a, b))
  {
  }

  lemma MulSaturates(a: Count, k: usize)
    ensures SaturatingMul(Saturate(a), k) == Saturate(Times(a, k as nat))
  {
    var s, m := Saturate(a) as int, k as int;
    if m > 0 {
      assert s <= s * m;
      if a.Finite? && a.n > USIZE_MAX {
        assert a.n <= a.n * m;
      }
    }
  }

  lemma MaxSaturates(a: Count, b: Count)
    ensures (if Saturate(a) < Saturate(b) then Saturate(b) else Saturate(a)) == Saturate(Larger(a, b))
  {
  }

  // ---------------------------------------------------------------- the exact count

  ghost predicate FieldsBelow(g: Graph, c: map<Id, nat>, fields: seq<Field>, bound: nat) {
    forall i :: 0 <= i < |fields| ==> fields[i].shape in g && fields[i].shape in c && c[fields[i].shape] < bound
  }

  ghost predicate VariantsBelow(g: Graph, c: map<Id, nat>, vs: seq<Variant>, bound: nat) {
    forall v :: 0 <= v < |vs| ==> FieldsBelow(g, c, vs[v].data.fields, bound)
  }

  ghost predicate AcyclicAt(g: Graph, c: map<Id, nat>, id: Id)
    requires id in g && id in c
  {
    match g[id].ty
    case TyReference(t) => t in g && t in c && c[t] < c[id]
    case TyArray(t, n) => t in g && t in c && c[t] < c[id] && n <= USIZE_MAX
    case TyStruct(st) => FieldsBelow(g, c, st.fields, c[id])
    case TyEnum(vs) => VariantsBelow(g, c, vs, c[id])
    case _ => true
  }

  /** References, arrays, structs and enums lead to shapes of a lower rank. */
  ghost predicate Acyclic(g: Graph, c: map<Id, nat>) {
    c.Keys == g.Keys && forall id {:trigger AcyclicAt(g, c, id)} :: id in g ==> AcyclicAt(g, c, id)
  }

  /** One piece for a scalar, all fields of a struct, the largest variant of an enum, `n` elements of an array. */
  ghost function Exact(g: Graph, c: map<Id, nat>, id: Id): Count
    requires Acyclic(g, c) && id in g
    decreases c[id], 2, 0
  {
    assert AcyclicAt(g, c, id);
    match g[id].ty
    case TyReference(t) => Exact(g, c, t)
    case TyArray(t, n) => Times(Exact(g, c, t), n)
    case TySlice(_) => Unbounded
    case TyStruct(st) => ExactFields(g, c, st.fields, c[id])
    case TyEnum(vs) => ExactVariants(g, c, vs, c[id])
    case _ => Finite(1)
  }

  ghost function ExactFields(g: Graph, c: map<Id, nat>, fields: seq<Field>, bound: nat): Count
    requires Acyclic(g, c) && FieldsBelow(g, c, fields, bound)
    decreases bound, 0, |fields|
  {
    if fields == [] then Finite(0)
    else
      Plus(ExactFields(g, c, fields[..|fields| - 1], bound), Exact(g, c, fields[|fields| - 1].shape))
  }

  ghost function ExactVariants(g: Graph, c: map<Id, nat>, vs: seq<Variant>, bound: nat): Count
    requires Acyclic(g, c) && VariantsBelow(g, c, vs, bound)
    decreases bound, 1, |vs|
  {
    if vs == [] then Finite(0)
    else
      Larger(ExactVariants(g, c, vs[..|vs| - 1], bound), ExactFields(g, c, vs[|vs| - 1].data.fields, bound))
  }

  /** `a` is no more than `b`. */
  predicate AtMost(a: Count, b: Count) {
    b.Unbounded? || (a.Finite? && a.n <= b.n)
  }

  /** An enum counts as much as its largest variant: no variant has more, and one has as much. */
  lemma {:induction false} EnumIsLargest(g: Graph, c: map<Id, nat>, vs: seq<Variant>, bound: nat)
    requires Acyclic(g, c) && VariantsBelow(g, c, vs, bound)
    ensures forall v :: 0 <= v < |vs| ==> AtMost(ExactFields(g, c, vs[v].data.fields, bound), ExactVariants(g, c, vs, bound))
    ensures vs != [] ==> exists v :: 0 <= v < |vs| && ExactVariants(g, c, vs, bound) == ExactFields(g, c, vs[v].data.fields, bound)
  {
    hide ExactFields;
    if vs != [] {
      var n := |vs| - 1;
      EnumIsLargest(g, c, vs[..n], bound);
      var before, last := ExactVariants(g, c, vs[..n], bound), ExactFields(g, c, vs[n].data.fields, bound);
      forall v | 0 <= v < |vs| ensures AtMost(ExactFields(g, c, vs[v].data.fields, bound), ExactVariants(g, c, vs, bound)) {
        if v < n { assert vs[..n][v] == vs[v]; }
      }
      if n > 0 && ExactVariants(g, c, vs, bound) != last {
        var v :| 0 <= v < n && before == ExactFields(g, c, vs[..n][v].data.fields, bound);
        assert vs[..n][v] == vs[v];
      } else {
        assert ExactVariants(g, c, vs, bound) == ExactFields(g, c, vs[n].data.fields, bound);
      }
    }
  }

  /** A struct counts the sum of its fields, in whatever groups they are taken. */
  lemma {:induction false} FieldsAddUp(g: Graph, c: map<Id, nat>, a: seq<Field>, b: seq<Field>, bound: nat)
    requires Acyclic(g, c) && FieldsBelow(g, c, a, bound) && FieldsBelow(g, c, b, bound)
    ensures FieldsBelow(g, c, a + b, bound)
    ensures ExactFields(g, c, a + b, bound) == Plus(ExactFields(g, c, a, bound), ExactFields(g, c, b, bound))
    decreases |b|
  {
    hide Exact, ExactFields;
    if b == [] {
      assert a + b == a;
      NoFields(g, c, bound);
      PlusZero(ExactFields(g, c, a, bound));
    } else {
      var n := |b| - 1;
      FieldsAddUp(g, c, a, b[..n], bound);
      assert a + b == (a + b[..n]) + [b[n]] && b == b[..n] + [b[n]];
      OneMoreField(g, c, a + b[..n], b[n], bound);
      OneMoreField(g, c, b[..n], b[n], bound);
      PlusAssociates(ExactFields(g, c, a, bound), ExactFields(g, c, b[..n], bound), Exact(g, c, b[n].shape));
    }
  }

  lemma OneMoreField(g: Graph, c: map<Id, nat>, fields: seq<Field>, f: Field, bound: nat)
    requires Acyclic(g, c) && FieldsBelow(g, c, fields, bound) && FieldsBelow(g, c, [f], bound)
    ensures f.shape in g && FieldsBelow(g, c, fields + [f], bound)
    ensures ExactFields(g, c, fields + [f], bound) == Plus(ExactFields(g, c, fields, bound), Exact(g, c, f.shape))
  {
    hide Exact;
    assert [f][0] == f;
    assert (fields + [f])[..|fields|] == fields;
  }

  lemma NoFields(g: Graph, c: map<Id, nat>, bound: nat)
    requires Acyclic(g, c)
    ensures ExactFields(g, c, [], bound) == Finite(0)
  {
  }

  lemma PlusZero(a: Count)
    ensures Plus(a, Finite(0)) == a
  {
  }

  lemma PlusAssociates(a: Count, b: Count, d: Count)
    ensures Plus(a, Plus(b, d)) == Plus(Plus(a, b), d)
  {
  }

  // ---------------------------------------------------------------- the saturating count

  /** `shape_chunkiness`: however the additions, products and maxima nest, nothing is lost but the excess. */
  method ShapeChunkiness(g: Graph, ghost c: map<Id, nat>, start: Id) returns (count: usize)
    requires Acyclic(g, c) && start in g
    ensures count == Saturate(Exact(g, c, start))
    decreases c[start], 1
  {
    var id := start;
    while g[id].ty.TyReference?
      invariant id in g && c[id] <= c[start] && Exact(g, c, id) == Exact(g, c, start)
      decreases c[id]
    {
      assert AcyclicAt(g, c, id);
      id := g[id].ty.target;
    }
    assert AcyclicAt(g, c, id);
    count := 1;
    match g[id].ty {
      case TyArray(t, n) =>
        var one := ShapeChunkiness(g, c, t);
        MulSaturates(Exact(g, c, t), n as usize);
        count := SaturatingMul(one, n as usize);
      case TySlice(_) => count := USIZE_MAX as usize;
      case TyStruct(st) => count := SumFields(g, c, st.fields, c[id]);
      case TyEnum(vs) =>
        var max: usize := 0;
        for v := 0 to |vs|
          invariant VariantsBelow(g, c, vs[..v], c[id])
          invariant max == Saturate(ExactVariants(g, c, vs[..v], c[id]))
        {
          var sum := SumFields(g, c, vs[v].data.fields, c[id]);
          assert vs[..v + 1][..v] == vs[..v];
          MaxSaturates(ExactVariants(g, c, vs[..v], c[id]), ExactFields(g, c, vs[v].data.fields, c[id]));
          max := if max < sum then sum else max;
        }
        assert vs[..|vs|] == vs;
        count := max;
      case _ =>
    }
  }

  method SumFields(g: Graph, ghost c: map<Id, nat>, fields: seq<Field>, ghost bound: nat) returns (sum: usize)
    requires Acyclic(g, c) && FieldsBelow(g, c, fields, bound)
    ensures sum == Saturate(ExactFields(g, c, fields, bound))
    decreases bound, 0
  {
    sum := 0;
    for i := 0 to |fields|
      invariant FieldsBelow(g, c, fields[..i], bound)
      invariant sum == Saturate(ExactFields(g, c, fields[..i], bound))
    {
      var one := ShapeChunkiness(g, c, fields[i].shape);
      assert fields[..i + 1][..i] == fields[..i];
      AddSaturates(ExactFields(g, c, fields[..i], bound), Exact(g, c, fields[i].shape));
      sum := SaturatingAdd(sum, one);
    }
    assert fields[..|fields|] == fields;
  }
}
