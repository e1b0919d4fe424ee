/**
  The worklist that prints a type and the types nested in it.  The queue may hold
  duplicates; what is written has each reachable type once, with one separator
  fewer than definitions.
 */
module Worklist {
  import opened Shapes

  /** What is appended to the output: a blank line, or the definition of a type. */
  datatype Chunk = Separator | Definition(id: Id)

  /** Printed inline, never as a definition. */
  predicate IsContainer(def: Def) {
    def.DefMap? || def.DefList? || def.DefOption? || def.DefArray?
  }

  predicate IsUserType(ty: Type) {
    ty.TyStruct? || ty.TyEnum?
  }

  /** A shape the loop writes a definition for. */
  predicate Printable(shape: Shape) {
    !IsContainer(shape.def) && IsUserType(shape.ty)
  }

  /** The parts of a container that `collect_from_shape` goes into. */
  function Parts(def: Def): seq<Id> {
    match def
    case DefList(t) => [t]
    case DefArray(t, _) => [t]
    case DefMap(k, v) => [k, v]
    case DefOption(t) => [t]
    case _ => []
  }

  predicate NestedAt(g: Graph, c: map<Id, nat>, id: Id)
    requires id in g && id in c
  {
    && ShapeClosed(g, id)
    && forall i :: 0 <= i < |Parts(g[id].def)| ==>
         var p := Parts(g[id].def)[i]; p in g && p in c && c[p] < c[id]
  }

  /** The graph is closed, and containers are nested to a finite depth `c`. */
  ghost predicate Nested(g: Graph, c: map<Id, nat>) {
    c.Keys == g.Keys && forall id {:trigger NestedAt(g, c, id)} :: id in g ==> NestedAt(g, c, id)
  }

  // ---------------------------------------------------------------- what is nested in a type

  /** The user types found in a shape, looking through containers. */
  ghost function Collected(g: Graph, c: map<Id, nat>, id: Id): seq<Id>
    requires Nested(g, c) && id in g
    decreases c[id]
  {
    assert NestedAt(g, c, id);
    match g[id].def
    case DefList(t) => assert Parts(g[id].def)[0] == t; Collected(g, c, t)
    case DefArray(t, _) => assert Parts(g[id].def)[0] == t; Collected(g, c, t)
    case DefMap(k, v) =>
      assert Parts(g[id].def)[0] == k && Parts(g[id].def)[1] == v;
      Collected(g, c, k) + Collected(g, c, v)
    case DefOption(t) => assert Parts(g[id].def)[0] == t; Collected(g, c, t)
    case _ => if IsUserType(g[id].ty) then [id] else []
  }

  ghost function FieldsCollected(g: Graph, c: map<Id, nat>, fields: seq<Field>): seq<Id>
    requires Nested(g, c) && FieldsClosed(g, fields)
  {
    if fields == [] then []
    else
      assert FieldsClosed(g, fields[..|fields| - 1]);
      FieldsCollected(g, c, fields[..|fields| - 1]) + Collected(g, c, fields[|fields| - 1].shape)
  }

  ghost function VariantsCollected(g: Graph, c: map<Id, nat>, vs: seq<Variant>): seq<Id>
    requires Nested(g, c) && forall v :: 0 <= v < |vs| ==> FieldsClosed(g, vs[v].data.fields)
  {
    if vs == [] then []
    else VariantsCollected(g, c, vs[..|vs| - 1]) + FieldsCollected(g, c, vs[|vs| - 1].data.fields)
  }

  /** The types that expanding a type puts on the queue. */
  ghost function Expansion(g: Graph, c: map<Id, nat>, id: Id): seq<Id>
    requires Nested(g, c) && id in g
  {
    assert NestedAt(g, c, id);
    match g[id].ty
    case TyStruct(st) => FieldsCollected(g, c, st.fields)
    case TyEnum(vs) => VariantsCollected(g, c, vs)
    case _ => []
  }

  ghost predicate AllPrintable(g: Graph, ids: seq<Id>) {
    forall i :: 0 <= i < |ids| ==> ids[i] in g && Printable(g[ids[i]])
  }

  lemma {:induction false} CollectedPrintable(g: Graph, c: map<Id, nat>, id: Id)
    requires Nested(g, c) && id in g
    ensures AllPrintable(g, Collected(g, c, id))
    decreases c[id]
  {
    assert NestedAt(g, c, id);
    match g[id].def {
      case DefList(t) => assert Parts(g[id].def)[0] == t; CollectedPrintable(g, c, t);
      case DefArray(t, _) => assert Parts(g[id].def)[0] == t; CollectedPrintable(g, c, t);
      case DefMap(k, v) =>
        assert Parts(g[id].def)[0] == k && Parts(g[id].def)[1] == v;
        CollectedPrintable(g, c, k);
        CollectedPrintable(g, c, v);
      case DefOption(t) => assert Parts(g[id].def)[0] == t; CollectedPrintable(g, c, t);
      case _ =>
    }
  }

  lemma {:induction false} FieldsPrintable(g: Graph, c: map<Id, nat>, fields: seq<Field>)
    requires Nested(g, c) && FieldsClosed(g, fields)
    ensures AllPrintable(g, FieldsCollected(g, c, fields))
  {
    if fields != [] {
      assert FieldsClosed(g, fields[..|fields| - 1]);
      FieldsPrintable(g, c, fields[..|fields| - 1]);
      CollectedPrintable(g, c, fields[|fields| - 1].shape);
    }
  }

  lemma {:induction false} ExpansionPrintable(g: Graph, c: map<Id, nat>, id: Id)
    requires Nested(g, c) && id in g
    ensures AllPrintable(g, Expansion(g, c, id))
  {
    assert NestedAt(g, c, id);
    match g[id].ty {
      case TyStruct(st) => FieldsPrintable(g, c, st.fields);
      case TyEnum(vs) => VariantsPrintable(g, c, vs);
      case _ =>
    }
  }

  lemma {:induction false} VariantsPrintable(g: Graph, c: map<Id, nat>, vs: seq<Variant>)
    requires Nested(g, c) && forall v :: 0 <= v < |vs| ==> FieldsClosed(g, vs[v].data.fields)
    ensures AllPrintable(g, VariantsCollected(g, c, vs))
  {
    if vs != [] {
      VariantsPrintable(g, c, vs[..|vs| - 1]);
      FieldsPrintable(g, c, vs[|vs| - 1].data.fields);
    }
  }

  // ---------------------------------------------------------------- what is nested, by metadata

  /** A list, array, option or map holds `t`. */
  predicate Holds(def: Def, t: Id) {
    || def == DefList(t) || (def.DefArray? && def.t == t) || def == DefOption(t)
    || (def.DefMap? && (def.k == t || def.v == t))
  }

  /** A struct or an enum that is not one of those containers. */
  predicate IsDefined(shape: Shape) {
    && (shape.ty.TyStruct? || shape.ty.TyEnum?)
    && !shape.def.DefList? && !shape.def.DefArray? && !shape.def.DefOption? && !shape.def.DefMap?
  }

  /** `b` is defined, and found in `a` through containers alone. */
  ghost predicate Within(g: Graph, a: Id, b: Id) {
    exists chain :: ContainerChain(g, chain) && chain[0] == a && chain[|chain| - 1] == b
  }

  ghost predicate ContainerChain(g: Graph, chain: seq<Id>) {
    && chain != [] && (forall i :: 0 <= i < |chain| ==> chain[i] in g)
    && (forall i :: 0 <= i < |chain| - 1 ==> Holds(g[chain[i]].def, chain[i + 1]))
    && IsDefined(g[chain[|chain| - 1]])
  }

  lemma WithinThrough(g: Graph, a: Id, t: Id, b: Id)
    requires a in g && Holds(g[a].def, t) && Within(g, t, b)
    ensures Within(g, a, b)
  {
    var chain :| ContainerChain(g, chain) && chain[0] == t && chain[|chain| - 1] == b;
    var longer := [a] + chain;
    forall i | 0 <= i < |longer| - 1 ensures Holds(g[longer[i]].def, longer[i + 1]) {
      if i > 0 { assert longer[i] == chain[i - 1] && longer[i + 1] == chain[i]; }
    }
    assert ContainerChain(g, longer);
  }

  /** What is within a shape is itself, or within a part of it. */
  lemma WithinFirst(g: Graph, a: Id, b: Id) returns (t: Id)
    requires Within(g, a, b)
    ensures a in g && ((IsDefined(g[a]) && a == b) || (Holds(g[a].def, t) && Within(g, t, b)))
  {
    var chain :| ContainerChain(g, chain) && chain[0] == a && chain[|chain| - 1] == b;
    if |chain| == 1 {
      t := a;
    } else {
      t := chain[1];
      assert ContainerChain(g, chain[1..]);
    }
  }

  /** Collecting from a shape finds exactly the defined types within it. */
  lemma {:induction false} CollectedIs(g: Graph, c: map<Id, nat>, id: Id, y: Id)
    requires Nested(g, c) && id in g
    ensures y in Collected(g, c, id) <==> Within(g, id, y)
    decreases c[id]
  {
    hide Within;
    assert NestedAt(g, c, id);
    var parts := Parts(g[id].def);
    PartsAre(g[id].def);
    forall i | 0 <= i < |parts| ensures y in Collected(g, c, parts[i]) <==> Within(g, parts[i], y) {
      CollectedIs(g, c, parts[i], y);
    }
    forall i | 0 <= i < |parts| && Within(g, parts[i], y) ensures Within(g, id, y) {
      WithinThrough(g, id, parts[i], y);
    }
    if Within(g, id, y) {
      var t := WithinFirst(g, id, y);
      if Holds(g[id].def, t) && Within(g, t, y) {
        var i :| 0 <= i < |parts| && parts[i] == t;
        assert y in Collected(g, c, parts[i]);
      }
    }
    if y in Collected(g, c, id) && parts != [] {
      assert y in Collected(g, c, parts[0]) || (|parts| > 1 && y in Collected(g, c, parts[1]));
    }
    if IsDefined(g[id]) && y == id {
      DefinedWithin(g, id);
    }
  }

  lemma PartsAre(def: Def)
    ensures forall i :: 0 <= i < |Parts(def)| ==> Holds(def, Parts(def)[i])
    ensures forall t :: Holds(def, t) ==> t in Parts(def)
  {
  }

  lemma DefinedWithin(g: Graph, id: Id)
    requires id in g && IsDefined(g[id])
    ensures Within(g, id, id)
  {
    assert ContainerChain(g, [id]);
  }

  /** A field of a struct, or of some variant of an enum, has the shape `t`. */
  predicate HasField(shape: Shape, t: Id) {
    || (shape.ty.TyStruct? && OneOf(shape.ty.st.fields, t))
    || (shape.ty.TyEnum? && exists v :: 0 <= v < |shape.ty.variants| && OneOf(shape.ty.variants[v].data.fields, t))
  }

  predicate OneOf(fields: seq<Field>, t: Id) {
    exists i :: 0 <= i < |fields| && fields[i].shape == t
  }

  lemma {:induction false} FieldsCollectedAre(g: Graph, c: map<Id, nat>, fields: seq<Field>, y: Id)
    requires Nested(g, c) && FieldsClosed(g, fields)
    ensures y in FieldsCollected(g, c, fields) <==> exists t :: OneOf(fields, t) && Within(g, t, y)
  {
    hide Collected, Within;
    if fields != [] {
      var n := |fields| - 1;
      assert FieldsClosed(g, fields[..n]);
      FieldsCollectedAre(g, c, fields[..n], y);
      CollectedIs(g, c, fields[n].shape, y);
      if t :| OneOf(fields[..n], t) && Within(g, t, y) {
        var i :| 0 <= i < n && fields[..n][i].shape == t;
        assert fields[i].shape == t;
        assert OneOf(fields, t);
      }
      if t :| OneOf(fields, t) && Within(g, t, y) {
        var i :| 0 <= i < |fields| && fields[i].shape == t;
        if i < n {
          assert fields[..n][i].shape == t;
          assert OneOf(fields[..n], t);
        }
      }
      assert OneOf(fields, fields[n].shape);
    }
  }

  lemma {:induction false} VariantsCollectedAre(g: Graph, c: map<Id, nat>, vs: seq<Variant>, y: Id)
    requires Nested(g, c) && forall v :: 0 <= v < |vs| ==> FieldsClosed(g, vs[v].data.fields)
    ensures y in VariantsCollected(g, c, vs) <==>
            exists v, t :: 0 <= v < |vs| && OneOf(vs[v].data.fields, t) && Within(g, t, y)
  {
    hide FieldsCollected, Within, OneOf;
    if vs != [] {
      var n := |vs| - 1;
      VariantsCollectedAre(g, c, vs[..n], y);
      FieldsCollectedAre(g, c, vs[n].data.fields, y);
      if v, t :| 0 <= v < n && OneOf(vs[..n][v].data.fields, t) && Within(g, t, y) {
        assert vs[..n][v] == vs[v];
      }
      if v, t :| 0 <= v < |vs| && OneOf(vs[v].data.fields, t) && Within(g, t, y) {
        if v < n { assert vs[..n][v] == vs[v]; }
      }
    }
  }

  /** Expanding a type finds exactly the defined types within the shapes of its fields. */
  lemma ExpansionIs(g: Graph, c: map<Id, nat>, id: Id, y: Id)
    requires Nested(g, c) && id in g
    ensures y in Expansion(g, c, id) <==> exists t :: HasField(g[id], t) && Within(g, t, y)
  {
    hide FieldsCollected, VariantsCollected, Within, OneOf;
    assert NestedAt(g, c, id);
    match g[id].ty {
      case TyStruct(st) => FieldsCollectedAre(g, c, st.fields, y);
      case TyEnum(vs) => VariantsCollectedAre(g, c, vs, y);
      case _ =>
    }
  }

  // ---------------------------------------------------------------- what should be written

  /** `b` can be reached from `a` by expanding type after type. */
  ghost predicate Reaches(g: Graph, c: map<Id, nat>, a: Id, b: Id)
    requires Nested(g, c)
  {
    exists trail :: Trail(g, c, trail) && trail[0] == a && trail[|trail| - 1] == b
  }

  ghost predicate Trail(g: Graph, c: map<Id, nat>, trail: seq<Id>)
    requires Nested(g, c)
  {
    && trail != [] && (forall i :: 0 <= i < |trail| ==> trail[i] in g)
    && forall i :: 0 <= i < |trail| - 1 ==> trail[i + 1] in Expansion(g, c, trail[i])
  }

  lemma ReachesNext(g: Graph, c: map<Id, nat>, root: Id, a: Id, b: Id)
    requires Nested(g, c) && a in g && b in g && Reaches(g, c, root, a) && b in Expansion(g, c, a)
    ensures Reaches(g, c, root, b)
  {
    var trail :| Trail(g, c, trail) && trail[0] == root && trail[|trail| - 1] == a;
    assert Trail(g, c, trail + [b]);
  }

  lemma {:induction false} TrailStays(g: Graph, c: map<Id, nat>, ids: seq<Id>, trail: seq<Id>)
    requires Nested(g, c) && Trail(g, c, trail) && trail[0] in ids
    requires forall x, y :: x in ids && x in g && y in Expansion(g, c, x) ==> y in ids
    ensures trail[|trail| - 1] in ids
  {
    if |trail| > 1 {
      var n := |trail| - 1;
      assert Trail(g, c, trail[..n]);
      TrailStays(g, c, ids, trail[..n]);
    }
  }

  /** Definitions with a separator between neighbours. */
  function Interleaved(ids: seq<Id>): seq<Chunk> {
    if ids == [] then []
    else if |ids| == 1 then [Definition(ids[0])]
    else Interleaved(ids[..|ids| - 1]) + [Separator, Definition(ids[|ids| - 1])]
  }

  function Definitions(chunks: seq<Chunk>): seq<Id> {
    if chunks == [] then []
    else
      var last := chunks[|chunks| - 1];
      Definitions(chunks[..|chunks| - 1]) + if last.Definition? then [last.id] else []
  }

  function Separators(chunks: seq<Chunk>): nat {
    if chunks == [] then 0
    else Separators(chunks[..|chunks| - 1]) + if chunks[|chunks| - 1].Separator? then 1 else 0
  }

  /** The output has the definitions in order, and one separator fewer. */
  lemma {:induction false} OneSeparatorFewer(ids: seq<Id>)
    ensures Definitions(Interleaved(ids)) == ids
    ensures ids != [] ==> Separators(Interleaved(ids)) == |ids| - 1
  {
    if ids != [] {
      var n := |ids| - 1;
      OneSeparatorFewer(ids[..n]);
      assert ids == ids[..n] + [ids[n]];
      var chunks := Interleaved(ids);
      if n == 0 {
        assert chunks[..0] == [];
      } else {
        var init := chunks[..|chunks| - 1];
        assert init == Interleaved(ids[..n]) + [Separator];
        assert init[..|init| - 1] == Interleaved(ids[..n]);
      }
    }
  }

  ghost predicate Distinct(ids: seq<Id>) {
    forall i, j :: 0 <= i < j < |ids| ==> ids[i] != ids[j]
  }

  function IdsOf(ids: seq<Id>): set<Id> {
    set x | x in ids
  }

  lemma {:induction false} DistinctSize(ids: seq<Id>)
    requires Distinct(ids)
    ensures |IdsOf(ids)| == |ids|
  {
    if ids != [] {
      var n := |ids| - 1;
      DistinctSize(ids[..n]);
      assert ids == ids[..n] + [ids[n]];
      assert ids[n] !in IdsOf(ids[..n]);
      assert IdsOf(ids) == IdsOf(ids[..n]) + {ids[n]};
    }
  }

  // ---------------------------------------------------------------- the state of the loop

  /** Everything expanded from `x` is written or still waiting. */
  ghost predicate Expanded(g: Graph, c: map<Id, nat>, x: Id, defs: seq<Id>, queue: seq<Id>)
    requires Nested(g, c) && x in g
  {
    forall y :: y in Expansion(g, c, x) ==> y in defs || y in queue
  }

  /** What is written and what waits, as the loop finds them. */
  ghost predicate Working(g: Graph, c: map<Id, nat>, root: Id, expand: bool, defs: seq<Id>, queue: seq<Id>)
    requires Nested(g, c) && root in g
  {
    && Distinct(defs) && AllPrintable(g, defs)
    && (forall x :: x in queue ==> x in g && Reaches(g, c, root, x) && (x == root || Printable(g[x])))
    && (forall x :: x in defs ==> Reaches(g, c, root, x))
    && (defs == [] ==> queue == [root] || (!Printable(g[root]) && queue == []))
    && (defs != [] ==> Printable(g[root]) && defs[0] == root)
    && (!expand && defs != [] ==> defs == [root] && queue == [])
    && (expand ==> forall x {:trigger Expanded(g, c, x, defs, queue)} :: x in defs ==> x in g && Expanded(g, c, x, defs, queue))
  }

  lemma WorkingAtStart(g: Graph, c: map<Id, nat>, root: Id, expand: bool)
    requires Nested(g, c) && root in g
    ensures Working(g, c, root, expand, [], [root])
  {
    assert Trail(g, c, [root]);
  }

  /** Passing over a type that is already written. */
  lemma WorkingSkip(g: Graph, c: map<Id, nat>, root: Id, expand: bool, defs: seq<Id>, queue: seq<Id>, current: Id)
    requires Nested(g, c) && root in g && Working(g, c, root, expand, defs, queue + [current]) && current in defs
    ensures Working(g, c, root, expand, defs, queue)
  {
    hide Reaches, Expansion, Printable;
    if expand {
      forall x | x in defs ensures x in g && Expanded(g, c, x, defs, queue) {
        assert Expanded(g, c, x, defs, queue + [current]);
      }
    }
  }

  /** Passing over a shape that has no definition: only the root can be one. */
  lemma WorkingDrop(g: Graph, c: map<Id, nat>, root: Id, expand: bool, defs: seq<Id>, queue: seq<Id>, current: Id)
    requires Nested(g, c) && root in g && Working(g, c, root, expand, defs, queue + [current]) && current in g
    requires !Printable(g[current])
    ensures defs == [] && Working(g, c, root, expand, defs, queue)
  {
    hide Reaches, Expansion, Printable;
    assert (queue + [current])[|queue|] == current;
    assert current in queue + [current];
  }

  /** Writing a type and queueing what it expands to. */
  lemma WorkingDefine(g: Graph, c: map<Id, nat>, root: Id, expand: bool, defs: seq<Id>, queue: seq<Id>, current: Id)
    requires Nested(g, c) && root in g && Working(g, c, root, expand, defs, queue + [current]) && current in g
    requires Printable(g[current]) && current !in defs
    ensures Working(g, c, root, expand, defs + [current], if expand then queue + Expansion(g, c, current) else queue)
  {
    hide Reaches, Expansion, Printable;
    var after := if expand then queue + Expansion(g, c, current) else queue;
    assert (queue + [current])[|queue|] == current;
    ExpansionPrintable(g, c, current);
    if expand {
      forall y | y in Expansion(g, c, current) ensures y in g && Printable(g[y]) && Reaches(g, c, root, y) {
        ReachesNext(g, c, root, current, y);
      }
      forall x | x in defs + [current] ensures x in g && Expanded(g, c, x, defs + [current], after) {
        if x in defs {
          assert Expanded(g, c, x, defs, queue + [current]);
        }
      }
    }
  }

  /** When nothing waits, a printable root has everything reachable from it written. */
  lemma WorkingDone(g: Graph, c: map<Id, nat>, root: Id, defs: seq<Id>, x: Id)
    requires Nested(g, c) && root in g && Printable(g[root]) && Working(g, c, root, true, defs, [])
    requires x in g && Reaches(g, c, root, x)
    ensures x in defs
  {
    hide Expansion, Printable;
    var trail :| Trail(g, c, trail) && trail[0] == root && trail[|trail| - 1] == x;
    forall a, b | a in defs && a in g && b in Expansion(g, c, a) ensures b in defs {
      assert Expanded(g, c, a, defs, []);
    }
    TrailStays(g, c, defs, trail);
  }

  lemma WrittenIff(defs: seq<Id>, x: Id)
    ensures x in IdsOf(defs) <==> x in defs
  {}

  lemma WorkingMember(g: Graph, c: map<Id, nat>, root: Id, expand: bool, defs: seq<Id>, queue: seq<Id>, x: Id)
    requires Nested(g, c) && root in g && Working(g, c, root, expand, defs, queue) && x in queue
    ensures x in g && Distinct(defs) && (x !in defs ==> Distinct(defs + [x]))
  {
    hide Reaches, Expansion, Printable;
  }

  lemma WorkingEnd(g: Graph, c: map<Id, nat>, root: Id, expand: bool, defs: seq<Id>)
    requires Nested(g, c) && root in g && Working(g, c, root, expand, defs, [])
    ensures Distinct(defs) && (Printable(g[root]) ==> defs != [] && defs[0] == root)
    ensures Printable(g[root]) && expand ==> forall x :: x in g ==> (x in defs <==> Reaches(g, c, root, x))
    ensures Printable(g[root]) && !expand ==> defs == [root]
    ensures !Printable(g[root]) ==> defs == []
  {
    hide Reaches, Expansion, Printable;
    if Printable(g[root]) && expand {
      forall x | x in g && Reaches(g, c, root, x) ensures x in defs {
        WorkingDone(g, c, root, defs, x);
      }
    }
  }

  /** A new definition makes the set of written types grow by one. */
  lemma OneMore(all: set<Id>, defs: seq<Id>, x: Id)
    requires Distinct(defs + [x]) && IdsOf(defs) <= all && x in all
    ensures IdsOf(defs + [x]) == IdsOf(defs) + {x} && |IdsOf(defs) + {x}| == |defs| + 1
    ensures IdsOf(defs) + {x} - {x} == IdsOf(defs)
    ensures |all - (IdsOf(defs) + {x})| < |all - IdsOf(defs)|
  {
    hide Distinct;
    DistinctSize(defs + [x]);
    NotBefore(defs, x);
    assert IdsOf(defs + [x]) == IdsOf(defs) + {x};
    OneLess(all, IdsOf(defs), x);
  }

  lemma NotBefore(defs: seq<Id>, x: Id)
    requires Distinct(defs + [x])
    ensures x !in defs
  {
    forall i | 0 <= i < |defs| ensures defs[i] != x {
      assert (defs + [x])[i] == defs[i] && (defs + [x])[|defs|] == x;
    }
  }

  lemma OneLess(all: set<Id>, some: set<Id>, x: Id)
    requires x in all && x !in some
    ensures |all - (some + {x})| < |all - some|
  {
    assert all - some == (all - (some + {x})) + {x};
  }

  lemma InterleavedNext(defs: seq<Id>, x: Id)
    ensures Interleaved([]) == [] && IdsOf([]) == {}
    ensures Interleaved(defs + [x]) == (if |defs| > 0 then Interleaved(defs) + [Separator] else Interleaved(defs)) + [Definition(x)]
  {
    assert (defs + [x])[..|defs|] == defs;
  }

  // ---------------------------------------------------------------- the loop

  class ShapeWriter {
    const g: Graph
    ghost const c: map<Id, nat>

    var queue: seq<Id>
    var printed: set<Id>
    var output: seq<Chunk>

    constructor (g: Graph, ghost c: map<Id, nat>)
      ensures this.g == g && this.c == c && queue == [] && printed == {} && output == []
    {
      this.g, this.c := g, c;
      queue, printed, output := [], {}, [];
    }

    method CollectFromShape(id: Id)
      requires Nested(g, c) && id in g
      modifies this`queue
      ensures queue == old(queue) + Collected(g, c, id)
      decreases c[id]
    {
      assert NestedAt(g, c, id);
      ghost var parts := Parts(g[id].def);
      match g[id].def {
        case DefList(t) => assert parts[0] == t; CollectFromShape(t);
        case DefArray(t, _) => assert parts[0] == t; CollectFromShape(t);
        case DefMap(k, v) =>
          assert parts[0] == k && parts[1] == v;
          CollectFromShape(k);
          CollectFromShape(v);
        case DefOption(t) => assert parts[0] == t; CollectFromShape(t);
        case _ =>
          if IsUserType(g[id].ty) {
            queue := queue + [id];
          }
      }
    }

    method CollectNestedTypes(fields: seq<Field>)
      requires Nested(g, c) && FieldsClosed(g, fields)
      modifies this`queue
      ensures queue == old(queue) + FieldsCollected(g, c, fields)
    {
      for i := 0 to |fields|
        invariant FieldsClosed(g, fields[..i])
        invariant queue == old(queue) + FieldsCollected(g, c, fields[..i])
      {
        CollectFromShape(fields[i].shape);
        assert fields[..i + 1][..i] == fields[..i];
      }
      assert fields[..|fields|] == fields;
    }

    method Expand(id: Id)
      requires Nested(g, c) && id in g
      modifies this`queue
      ensures queue == old(queue) + Expansion(g, c, id)
    {
      assert NestedAt(g, c, id);
      match g[id].ty {
        case TyStruct(st) => CollectNestedTypes(st.fields);
        case TyEnum(vs) =>
          for i := 0 to |vs|
            invariant queue == old(queue) + VariantsCollected(g, c, vs[..i])
          {
            CollectNestedTypes(vs[i].data.fields);
            assert vs[..i + 1][..i] == vs[..i];
          }
          assert vs[..|vs|] == vs;
        case _ =>
      }
    }

    /**
      The loop.  With expansion on, a printable root gives every type reachable from
      it, once each; with expansion off only the root; any other root gives nothing.
     */
    method FormatShape(root: Id, expandNestedTypes: bool) returns (ghost defs: seq<Id>)
      requires Nested(g, c) && root in g && queue == [] && printed == {} && output == []
      modifies this
      ensures queue == [] && printed == IdsOf(defs)
      ensures output == Interleaved(defs) && Distinct(defs)
      ensures Printable(g[root]) ==> defs != [] && defs[0] == root
      ensures Printable(g[root]) && expandNestedTypes ==>
                forall x :: x in g ==> (x in defs <==> Reaches(g, c, root, x))
      ensures Printable(g[root]) && !expandNestedTypes ==> defs == [root]
      ensures !Printable(g[root]) ==> defs == []
    {
      hide Working, Expansion, Reaches, Nested, IdsOf, Interleaved, Distinct;
      defs := [];
      queue := queue + [root];
      WorkingAtStart(g, c, root, expandNestedTypes);
      assert queue == [root];
      InterleavedNext([], root);
      while queue != []
        invariant Working(g, c, root, expandNestedTypes, defs, queue)
        invariant printed == IdsOf(defs) && printed <= g.Keys
        invariant output == Interleaved(defs)
        decreases |g.Keys - printed|, |queue|
      {
        var current := queue[|queue| - 1];
        ghost var popped := queue[..|queue| - 1];
        assert queue == popped + [current];
        WorkingMember(g, c, root, expandNestedTypes, defs, queue, current);
        queue := queue[..|queue| - 1];
        WrittenIff(defs, current);
        if current in printed {
          WorkingSkip(g, c, root, expandNestedTypes, defs, popped, current);
          continue;
        }
        ghost var before := printed;
        printed := printed + {current};
        OneMore(g.Keys, defs, current);
        InterleavedNext(defs, current);
        if |printed| > 1 {
          output := output + [Separator];
        }
        if IsContainer(g[current].def) {
          WorkingDrop(g, c, root, expandNestedTypes, defs, popped, current);
          printed := printed - {current};
          assert printed == before;
          continue;
        }
        if IsUserType(g[current].ty) {
          WorkingDefine(g, c, root, expandNestedTypes, defs, popped, current);
          output := output + [Definition(current)];
          defs := defs + [current];
          if expandNestedTypes {
            Expand(current);
            assert queue == popped + Expansion(g, c, current);
          }
        } else {
          WorkingDrop(g, c, root, expandNestedTypes, defs, popped, current);
          printed := printed - {current};
          assert printed == before;
        }
      }
      WorkingEnd(g, c, root, expandNestedTypes, defs);
    }
  }
}
