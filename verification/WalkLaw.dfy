/**
  What the law of a walk's trace means, callback by callback: what follows an `enter`
  for each decision, in which order the children come, and that no other trace obeys.
 */
module WalkLaw {
  import opened Wrappers
  import opened Shapes
  import opened Walk

  /** The scene just before callback `i`. */
  function SceneAt<V>(vis: Visitor<V>, state: V, trace: seq<Event>, i: nat): Scene<V>
    requires i <= |trace|
  {
    After(vis, Opening(state), trace[..i])
  }

  /** What the visitor decided at the `enter` that is callback `i`. */
  function DecisionAt<V>(vis: Visitor<V>, state: V, trace: seq<Event>, i: nat): Decision
    requires i < |trace| && trace[i].Enter?
  {
    vis.enter(SceneAt(vis, state, trace, i).state, trace[i].path, trace[i].shape).1
  }

  /** Some node that is still open at callback `i` has the shape `id`. */
  ghost predicate OpenAt<V>(vis: Visitor<V>, state: V, trace: seq<Event>, i: nat, id: Id)
    requires i <= |trace|
  {
    exists k: nat :: IsOpen(SceneAt(vis, state, trace, i).open, k, id)
  }

  lemma SceneNext<V>(vis: Visitor<V>, state: V, trace: seq<Event>, i: nat)
    requires i < |trace|
    ensures SceneAt(vis, state, trace, i + 1) == Observe(vis, SceneAt(vis, state, trace, i), trace[i])
  {
    hide Observe;
    assert trace[..i + 1] == trace[..i] + [trace[i]];
    AfterOne(vis, Opening(state), trace[..i], trace[i]);
  }

  lemma {:induction false} AfterOne<V>(vis: Visitor<V>, m: Scene<V>, events: seq<Event>, e: Event)
    ensures After(vis, m, events + [e]) == Observe(vis, After(vis, m, events), e)
    decreases |events|
  {
    hide Observe;
    if events == [] {
      assert [] + [e] == [e] && [e][1..] == [];
    } else {
      assert (events + [e])[0] == events[0] && (events + [e])[1..] == events[1..] + [e];
      AfterOne(vis, Observe(vis, m, events[0]), events[1..], e);
    }
  }

  /** Every callback but the first is the expected one, and after the last none is expected. */
  lemma LawAt<V>(g: Graph, vis: Visitor<V>, state: V, root: Id, trace: seq<Event>, final: V, status: Status, i: nat)
    requires Lawful(g, vis, state, root, trace, final, status) && 0 < i <= |trace|
    ensures Expected(g, SceneAt(vis, state, trace, i)) == if i < |trace| then Some(trace[i]) else None
  {
    hide Expected, Observe;
    var first := Observe(vis, Opening(state), trace[0]);
    var a, b := trace[1..i], trace[i..];
    assert trace[1..] == a + b;
    AcceptsAppend(g, vis, first, a, b);
    assert trace[..i] == [trace[0]] + a && ([trace[0]] + a)[1..] == a;
    assert SceneAt(vis, state, trace, i) == After(vis, first, a);
    if i < |trace| {
      assert b[0] == trace[i];
    } else {
      assert trace[..i] == trace;
    }
  }

  lemma EnteredTop<V>(vis: Visitor<V>, state: V, trace: seq<Event>, i: nat)
    requires i < |trace| && trace[i].Enter?
    ensures var before, after := SceneAt(vis, state, trace, i), SceneAt(vis, state, trace, i + 1);
            && after.just == Some(DecisionAt(vis, state, trace, i))
            && after.open == OneMoreChild(before.open) + [Node(trace[i].path, trace[i].shape, 0)]
  {
    SceneNext(vis, state, trace, i);
  }

  /** A node that is skipped is left at once, and so is one whose shape is open above it. */
  lemma SkippedIsLeft<V>(g: Graph, vis: Visitor<V>, state: V, root: Id, trace: seq<Event>, final: V, status: Status, i: nat)
    requires Lawful(g, vis, state, root, trace, final, status) && i < |trace| && trace[i].Enter?
    requires var d := DecisionAt(vis, state, trace, i);
             d == SkipChildren || (d == Recurse && OpenAt(vis, state, trace, i, trace[i].shape))
    ensures i + 1 < |trace| && trace[i + 1] == Leave(trace[i].path, trace[i].shape)
  {
    hide SceneAt, Lawful, DecisionAt;
    LawAt(g, vis, state, root, trace, final, status, i + 1);
    EnteredTop(vis, state, trace, i);
    var before, after := SceneAt(vis, state, trace, i), SceneAt(vis, state, trace, i + 1);
    if k: nat :| IsOpen(before.open, k, trace[i].shape) {
      assert IsOpen(after.open, k, trace[i].shape);
      assert IsCycle(after.open);
    }
    ChildlessLeaves(g, after);
  }

  /** The walk is stopped exactly when its last callback was decided `Stop`, and no earlier one was. */
  lemma StopIsLast<V>(g: Graph, vis: Visitor<V>, state: V, root: Id, trace: seq<Event>, final: V, status: Status)
    requires Lawful(g, vis, state, root, trace, final, status)
    ensures var last := |trace| - 1;
            status == Stopped <==> trace[last].Enter? && DecisionAt(vis, state, trace, last) == Stop
    ensures forall i :: 0 <= i < |trace| - 1 && trace[i].Enter? ==> DecisionAt(vis, state, trace, i) != Stop
    ensures final == SceneAt(vis, state, trace, |trace|).state
  {
    hide SceneAt, DecisionAt, Expected, Accepts;
    var last := |trace| - 1;
    assert SceneAt(vis, state, trace, |trace|) == After(vis, Opening(state), trace) by {
      LastScene(vis, state, trace);
    }
    SceneNext(vis, state, trace, last);
    if trace[last].Enter? { EnteredTop(vis, state, trace, last); }
    forall i | 0 <= i < last && trace[i].Enter? ensures DecisionAt(vis, state, trace, i) != Stop {
      EnteredTop(vis, state, trace, i);
      LawAt(g, vis, state, root, trace, final, status, i + 1);
      NothingAfterStop(g, SceneAt(vis, state, trace, i + 1));
    }
  }

  lemma LastScene<V>(vis: Visitor<V>, state: V, trace: seq<Event>)
    ensures SceneAt(vis, state, trace, |trace|) == After(vis, Opening(state), trace)
  {
    assert trace[..|trace|] == trace;
  }

  lemma NothingAfterStop<V>(g: Graph, m: Scene<V>)
    ensures m.just == Some(Stop) ==> Expected(g, m) == None
  {
  }

  // ---------------------------------------------------------------- the children of a node

  /** Nothing between the callbacks `i` and `j` leaves the node that was entered at `i`. */
  ghost predicate StaysOpen<V>(vis: Visitor<V>, state: V, trace: seq<Event>, i: nat, j: nat)
    requires i < j <= |trace|
  {
    forall k :: i < k <= j ==> |SceneAt(vis, state, trace, k).open| >= |SceneAt(vis, state, trace, i + 1).open|
  }

  /** The `enter`s directly below the node entered at `i`, up to callback `j`. */
  function Below<V>(vis: Visitor<V>, state: V, trace: seq<Event>, i: nat, j: nat): seq<Event>
    requires i < j <= |trace|
    decreases j
  {
    if j == i + 1 then []
    else
      Below(vis, state, trace, i, j - 1)
        + if trace[j - 1].Enter? && |SceneAt(vis, state, trace, j - 1).open| == |SceneAt(vis, state, trace, i + 1).open|
          then [trace[j - 1]] else []
  }

  /** The `enter`s that the first `n` edges of a node call for. */
  function EdgeEnters(path: Path, edges: seq<Edge>, n: nat): (r: seq<Event>)
    requires n <= |edges|
    ensures |r| == n
  {
    seq(n, k requires 0 <= k < n => Enter(path + edges[k].steps, edges[k].child))
  }

  /** The node entered at `i` is the open node at its depth, with `n` children entered. */
  ghost predicate Holds<V>(vis: Visitor<V>, state: V, trace: seq<Event>, i: nat, j: nat, n: nat)
    requires i < j <= |trace| && trace[i].Enter?
  {
    var now, first := SceneAt(vis, state, trace, j).open, SceneAt(vis, state, trace, i + 1).open;
    var d := |first| - 1;
    && d >= 0 && |now| > d && now[d] == Node(trace[i].path, trace[i].shape, n)
    && forall k :: 0 <= k < d ==> now[k].shape == first[k].shape
  }

  /**
    Of a node that was entered with `Recurse`, and is no cycle, the children entered so
    far are the first edges of its shape, in order.
   */
  lemma {:induction false} ChildrenSoFar<V>(
    g: Graph, vis: Visitor<V>, state: V, root: Id, trace: seq<Event>, final: V, status: Status, i: nat, j: nat) returns (n: nat)
    requires Lawful(g, vis, state, root, trace, final, status) && i < j <= |trace| && trace[i].Enter?
    requires DecisionAt(vis, state, trace, i) == Recurse && !OpenAt(vis, state, trace, i, trace[i].shape)
    requires trace[i].shape in g && StaysOpen(vis, state, trace, i, j)
    ensures n <= |Edges(g[trace[i].shape])| && Holds(vis, state, trace, i, j, n)
    ensures Below(vis, state, trace, i, j) == EdgeEnters(trace[i].path, Edges(g[trace[i].shape]), n)
    decreases j
  {
    hide SceneAt, Lawful, DecisionAt, Expected, OpenAt, Edges;
    var edges := Edges(g[trace[i].shape]);
    if j == i + 1 {
      EnteredTop(vis, state, trace, i);
      n := 0;
    } else {
      assert StaysOpen(vis, state, trace, i, j - 1);
      n := ChildrenSoFar(g, vis, state, root, trace, final, status, i, j - 1);
      var was, now := SceneAt(vis, state, trace, j - 1), SceneAt(vis, state, trace, j);
      SceneNext(vis, state, trace, j - 1);
      var d := |SceneAt(vis, state, trace, i + 1).open| - 1;
      assert |now.open| > d;
      if trace[j - 1].Enter? && |was.open| == d + 1 {
        LawAt(g, vis, state, root, trace, final, status, j - 1);
        EnterIsNextEdge(g, was, trace[j - 1], trace[i].path, trace[i].shape, n);
        n := n + 1;
      }
    }
  }

  /** An expected `enter` is the next edge of the innermost open node. */
  lemma EnterIsNextEdge<V>(g: Graph, m: Scene<V>, e: Event, path: Path, id: Id, n: nat)
    requires Expected(g, m) == Some(e) && e.Enter? && id in g
    requires m.open != [] && m.open[|m.open| - 1] == Node(path, id, n)
    ensures n < |Edges(g[id])| && e == Enter(path + Edges(g[id])[n].steps, Edges(g[id])[n].child)
  {
    hide Edges;
  }

  /** When the node is left, every one of its edges has been entered, in order. */
  lemma AllChildren<V>(
    g: Graph, vis: Visitor<V>, state: V, root: Id, trace: seq<Event>, final: V, status: Status, i: nat, j: nat)
    requires Lawful(g, vis, state, root, trace, final, status) && i < j < |trace| && trace[i].Enter?
    requires DecisionAt(vis, state, trace, i) == Recurse && !OpenAt(vis, state, trace, i, trace[i].shape)
    requires trace[i].shape in g && StaysOpen(vis, state, trace, i, j)
    requires trace[j].Leave? && |SceneAt(vis, state, trace, j).open| == |SceneAt(vis, state, trace, i + 1).open|
    ensures trace[j] == Leave(trace[i].path, trace[i].shape)
    ensures var edges := Edges(g[trace[i].shape]);
            Below(vis, state, trace, i, j) == EdgeEnters(trace[i].path, edges, |edges|)
  {
    hide SceneAt, Lawful, DecisionAt, Expected, Edges, Below;
    var n := ChildrenSoFar(g, vis, state, root, trace, final, status, i, j);
    var now := SceneAt(vis, state, trace, j);
    LawAt(g, vis, state, root, trace, final, status, j);
    EnteredTop(vis, state, trace, i);
    if j > i + 1 {
      SceneNext(vis, state, trace, j - 1);
      assert trace[j - 1].Leave?;
    }
    NoneAbove(vis, state, trace, i, j, n);
    LeaveIsLast(g, now, trace[j], trace[i].path, trace[i].shape, n);
  }

  lemma NoneAbove<V>(vis: Visitor<V>, state: V, trace: seq<Event>, i: nat, j: nat, n: nat)
    requires i < j <= |trace| && trace[i].Enter? && Holds(vis, state, trace, i, j, n)
    requires !OpenAt(vis, state, trace, i, trace[i].shape)
    requires |SceneAt(vis, state, trace, j).open| == |SceneAt(vis, state, trace, i + 1).open|
    ensures var now := SceneAt(vis, state, trace, j).open;
            forall k: nat :: k < |now| - 1 ==> !IsOpen(now, k, trace[i].shape)
  {
    hide SceneAt;
    EnteredTop(vis, state, trace, i);
    var now := SceneAt(vis, state, trace, j).open;
    forall k: nat | k < |now| - 1 ensures !IsOpen(now, k, trace[i].shape) {
      assert !IsOpen(SceneAt(vis, state, trace, i).open, k, trace[i].shape);
    }
  }

  lemma LeaveIsLast<V>(g: Graph, m: Scene<V>, e: Event, path: Path, id: Id, n: nat)
    requires Expected(g, m) == Some(e) && e.Leave? && id in g && m.just != Some(SkipChildren)
    requires m.open != [] && m.open[|m.open| - 1] == Node(path, id, n)
    requires forall k: nat :: k < |m.open| - 1 ==> !IsOpen(m.open, k, id)
    ensures n >= |Edges(g[id])| && e == Leave(path, id)
  {
    hide Edges;
  }

  // ---------------------------------------------------------------- no other trace

  lemma {:induction false} AcceptsUnique<V>(g: Graph, vis: Visitor<V>, m: Scene<V>, a: seq<Event>, b: seq<Event>)
    requires Accepts(g, vis, m, a) && Expected(g, After(vis, m, a)) == None
    requires Accepts(g, vis, m, b) && Expected(g, After(vis, m, b)) == None
    ensures a == b
    decreases |a|
  {
    hide Expected, Observe;
    if a != [] && b != [] {
      AcceptsUnique(g, vis, Observe(vis, m, a[0]), a[1..], b[1..]);
      assert a == [a[0]] + a[1..] && b == [b[0]] + b[1..];
    }
  }

  /** The law leaves no choice: trace, final state and status are those of the only lawful walk. */
  lemma LawfulUnique<V>(g: Graph, vis: Visitor<V>, state: V, root: Id,
                        trace: seq<Event>, final: V, status: Status, trace': seq<Event>, final': V, status': Status)
    requires Lawful(g, vis, state, root, trace, final, status) && Lawful(g, vis, state, root, trace', final', status')
    ensures trace == trace' && final == final' && status == status'
  {
    hide Expected, Observe, Accepts;
    var m := Observe(vis, Opening(state), Enter([], root));
    assert trace == [trace[0]] + trace[1..] && trace' == [trace'[0]] + trace'[1..];
    AcceptsUnique(g, vis, m, trace[1..], trace'[1..]);
  }

  // ---------------------------------------------------------------- the child relation

  /** A container that holds elements of one shape. */
  predicate HoldsElements(def: Def, t: Id) {
    def == DefList(t) || def == DefSlice(t) || def == DefNdArray(t) || def == DefSet(t) || (def.DefArray? && def.t == t)
  }

  /** `steps` lead from a shape to its child, by the shape's own metadata: an option before anything else. */
  ghost predicate ChildAt(shape: Shape, steps: Path, child: Id) {
    if shape.def.DefOption? then steps == [StepOptionSome] && child == shape.def.t
    else if shape.ty.TyStruct? then
      exists i: nat :: i < |shape.ty.st.fields| && steps == [StepField(i % 0x1_0000_0000)] && child == shape.ty.st.fields[i].shape
    else if shape.ty.TyEnum? then
      exists v: nat, i: nat :: v < |shape.ty.variants| && VariantChild(shape.ty.variants[v], v, i, steps, child)
    else
      || (steps == [StepIndex(0)] && HoldsElements(shape.def, child))
      || (shape.def.DefMap? && steps == [StepMapKey(0)] && child == shape.def.k)
      || (shape.def.DefMap? && steps == [StepMapValue(0)] && child == shape.def.v)
      || (shape.def.DefResult? && steps == [StepVariant(0), StepField(0)] && child == shape.def.t)
      || (shape.def.DefResult? && steps == [StepVariant(1), StepField(0)] && child == shape.def.e)
      || (shape.def == DefPointer(Some(child)) && steps == [StepDeref])
      || ((shape.def in {DefUndefined, DefScalar, DefDynamicValue, DefPointer(None)})
          && shape.inner == Some(child) && steps == [StepInner])
  }

  predicate VariantChild(variant: Variant, v: nat, i: nat, steps: Path, child: Id) {
    i < |variant.data.fields| && steps == [StepVariant(v % 0x1_0000_0000), StepField(i % 0x1_0000_0000)] && child == variant.data.fields[i].shape
  }

  /** The edges of a shape are its children, and no more. */
  lemma EdgesAreChildren(shape: Shape, steps: Path, child: Id)
    ensures Edge(steps, child) in Edges(shape) <==> ChildAt(shape, steps, child)
  {
    if !shape.def.DefOption? {
      if shape.ty.TyStruct? {
        FieldEdgesAre([], shape.ty.st.fields, steps, child);
      } else if shape.ty.TyEnum? {
        VariantEdgesAre(shape.ty.variants, steps, child);
      }
    }
  }

  lemma FieldEdgesAre(prefix: Path, fields: seq<Field>, steps: Path, child: Id)
    ensures Edge(steps, child) in FieldEdges(prefix, fields) <==>
            exists i: nat :: i < |fields| && steps == prefix + [StepField(AsU32(i))] && child == fields[i].shape
  {
    if i: nat :| i < |fields| && steps == prefix + [StepField(AsU32(i))] && child == fields[i].shape {
      assert FieldEdges(prefix, fields)[i] == Edge(steps, child);
    }
  }

  lemma {:induction false} VariantEdgesAre(vs: seq<Variant>, steps: Path, child: Id)
    ensures Edge(steps, child) in VariantEdges(vs) <==>
            exists v: nat, i: nat :: v < |vs| && VariantChild(vs[v], v, i, steps, child)
  {
    hide VariantChild;
    if vs != [] {
      var n := |vs| - 1;
      VariantEdgesAre(vs[..n], steps, child);
      LastVariantEdges(vs[n], n, steps, child);
      if v: nat, i: nat :| v < n && VariantChild(vs[..n][v], v, i, steps, child) {
        assert VariantChild(vs[v], v, i, steps, child);
      }
      if v: nat, i: nat :| v < |vs| && VariantChild(vs[v], v, i, steps, child) {
        if v < n { assert VariantChild(vs[..n][v], v, i, steps, child); }
      }
    }
  }

  lemma LastVariantEdges(variant: Variant, n: nat, steps: Path, child: Id)
    ensures Edge(steps, child) in FieldEdges([StepVariant(AsU32(n))], variant.data.fields) <==>
            exists i: nat :: VariantChild(variant, n, i, steps, child)
  {
    FieldEdgesAre([StepVariant(AsU32(n))], variant.data.fields, steps, child);
    forall i: nat ensures [StepVariant(AsU32(n))] + [StepField(AsU32(i))] == [StepVariant(AsU32(n)), StepField(AsU32(i))] {}
    if i: nat :| i < |variant.data.fields| && steps == [StepVariant(AsU32(n))] + [StepField(AsU32(i))]
                && child == variant.data.fields[i].shape {
      assert VariantChild(variant, n, i, steps, child);
    }
    if i: nat :| VariantChild(variant, n, i, steps, child) {
      assert steps == [StepVariant(AsU32(n))] + [StepField(AsU32(i))];
    }
  }
}
