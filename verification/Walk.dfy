/**
  The shape-only walk: a depth-first traversal that takes orders from a visitor,
  keeps the current path and the ancestor ids on two stacks, and cuts a cycle at
  the first shape that is already an ancestor.
 */
module Walk {
  import opened Wrappers
  import opened Shapes

  datatype Step =
    | StepField(i: nat)
    | StepIndex(i: nat)
    | StepVariant(i: nat)
    | StepMapKey(i: nat)
    | StepMapValue(i: nat)
    | StepOptionSome
    | StepDeref
    | StepInner
    | StepProxy

  type Path = seq<Step>

  datatype Decision = Recurse | SkipChildren | Stop

  datatype Status = Completed | Stopped

  datatype Event = Enter(path: Path, shape: Id) | Leave(path: Path, shape: Id)

  /**
    A visitor with private state `V`: both callbacks may update it, and the
    decision may depend on everything seen so far.
   */
  datatype Visitor<!V> = Visitor(enter: (V, Path, Id) -> (V, Decision), leave: (V, Path, Id) -> V)

  // ---------------------------------------------------------------- the child relation

  /** One way down from a shape: the steps pushed, and the shape they lead to. */
  datatype Edge = Edge(steps: Path, child: Id)

  function FieldEdges(prefix: Path, fields: seq<Field>): (r: seq<Edge>)
    ensures |r| == |fields|
  {
    seq(|fields|, i requires 0 <= i < |fields| => Edge(prefix + [StepField(AsU32(i))], fields[i].shape))
  }

  function VariantEdges(vs: seq<Variant>): seq<Edge> {
    if vs == [] then []
    else VariantEdges(vs[..|vs| - 1]) + FieldEdges([StepVariant(AsU32(|vs| - 1))], vs[|vs| - 1].data.fields)
  }

  function DefEdges(def: Def): seq<Edge> {
    match def
    case DefList(t) => [Edge([StepIndex(0)], t)]
    case DefArray(t, _) => [Edge([StepIndex(0)], t)]
    case DefSlice(t) => [Edge([StepIndex(0)], t)]
    case DefNdArray(t) => [Edge([StepIndex(0)], t)]
    case DefSet(t) => [Edge([StepIndex(0)], t)]
    case DefMap(k, v) => [Edge([StepMapKey(0)], k), Edge([StepMapValue(0)], v)]
    case DefOption(t) => [Edge([StepOptionSome], t)]
    case DefResult(t, e) => [Edge([StepVariant(0), StepField(0)], t), Edge([StepVariant(1), StepField(0)], e)]
    case DefPointer(Some(p)) => [Edge([StepDeref], p)]
    case _ => []
  }

  function InnerEdges(inner: Option<Id>): seq<Edge> {
    match inner
    case Some(t) => [Edge([StepInner], t)]
    case None => []
  }

  /** The children of a shape, in the order in which they are walked. */
  function Edges(shape: Shape): seq<Edge> {
    if shape.def.DefOption? then DefEdges(shape.def) else
    match shape.ty
    case TyStruct(st) => FieldEdges([], st.fields)
    case TyEnum(vs) => VariantEdges(vs)
    case _ => if DefEdges(shape.def) != [] then DefEdges(shape.def) else InnerEdges(shape.inner)
  }

  ghost predicate EdgesIn(g: Graph, edges: seq<Edge>) {
    forall i :: 0 <= i < |edges| ==> edges[i].child in g
  }

  lemma {:induction false} VariantEdgesIn(g: Graph, vs: seq<Variant>)
    requires forall v :: 0 <= v < |vs| ==> FieldsClosed(g, vs[v].data.fields)
    ensures EdgesIn(g, VariantEdges(vs))
  {
    if vs != [] {
      assert FieldsClosed(g, vs[|vs| - 1].data.fields);
      VariantEdgesIn(g, vs[..|vs| - 1]);
    }
  }

  lemma EdgesClosed(g: Graph, id: Id)
    requires Closed(g) && id in g
    ensures EdgesIn(g, Edges(g[id]))
  {
    assert ShapeClosed(g, id);
    if g[id].ty.TyEnum? { VariantEdgesIn(g, g[id].ty.variants); }
  }

  // ---------------------------------------------------------------- what a walk does

  datatype Outcome<V> = Outcome(state: V, events: seq<Event>, stopped: bool)

  ghost predicate Ready(g: Graph, anc: seq<Id>) {
    Closed(g) && forall i :: 0 <= i < |anc| ==> anc[i] in g
  }

  /** How many ids are not yet ancestors. */
  ghost function Room(g: Graph, anc: seq<Id>): nat {
    |g.Keys - (set x | x in anc)|
  }

  lemma RoomShrinks(g: Graph, anc: seq<Id>, id: Id)
    requires id in g && id !in anc
    ensures Room(g, anc + [id]) + 1 == Room(g, anc)
  {
    var before := g.Keys - (set x | x in anc);
    assert g.Keys - (set x | x in anc + [id]) == before - {id};
  }

  ghost function Run<V>(g: Graph, vis: Visitor<V>, st: V, id: Id, path: Path, anc: seq<Id>): Outcome<V>
    requires Ready(g, anc) && id in g
    decreases Room(g, anc), 0
  {
    var (st1, decision) := vis.enter(st, path, id);
    if decision.Stop? then
      Outcome(st1, [Enter(path, id)], true)
    else if decision.SkipChildren? || id in anc then
      Outcome(vis.leave(st1, path, id), [Enter(path, id), Leave(path, id)], false)
    else
      EdgesClosed(g, id);
      RoomShrinks(g, anc, id);
      var r := RunEdges(g, vis, st1, Edges(g[id]), path, anc + [id]);
      if r.stopped then
        Outcome(r.state, [Enter(path, id)] + r.events, true)
      else
        Outcome(vis.leave(r.state, path, id), [Enter(path, id)] + r.events + [Leave(path, id)], false)
  }

  ghost function RunEdges<V>(g: Graph, vis: Visitor<V>, st: V, edges: seq<Edge>, path: Path, anc: seq<Id>): Outcome<V>
    requires Ready(g, anc) && EdgesIn(g, edges)
    decreases Room(g, anc), 1 + |edges|
  {
    if edges == [] then Outcome(st, [], false) else
    var r := Run(g, vis, st, edges[0].child, path + edges[0].steps, anc);
    if r.stopped then r else
    var rest := RunEdges(g, vis, r.state, edges[1..], path, anc);
    Outcome(rest.state, r.events + rest.events, rest.stopped)
  }

  lemma {:induction false} RunEdgesAppend<V>(
    g: Graph, vis: Visitor<V>, st: V, a: seq<Edge>, b: seq<Edge>, path: Path, anc: seq<Id>)
    requires Ready(g, anc) && EdgesIn(g, a) && EdgesIn(g, b)
    ensures EdgesIn(g, a + b)
    ensures var r := RunEdges(g, vis, st, a, path, anc);
            var all := RunEdges(g, vis, st, a + b, path, anc);
            if r.stopped then all == r
            else
              var rest := RunEdges(g, vis, r.state, b, path, anc);
              all == Outcome(rest.state, r.events + rest.events, rest.stopped)
    decreases |a|
  {
    hide Run;
    if a == [] {
      assert a + b == b;
    } else {
      var r := Run(g, vis, st, a[0].child, path + a[0].steps, anc);
      assert (a + b)[0] == a[0] && (a + b)[1..] == a[1..] + b;
      if !r.stopped {
        RunEdgesAppend(g, vis, r.state, a[1..], b, path, anc);
        var mid := RunEdges(g, vis, r.state, a[1..], path, anc);
        if !mid.stopped {
          var rest := RunEdges(g, vis, mid.state, b, path, anc);
          assert r.events + (mid.events + rest.events) == (r.events + mid.events) + rest.events;
        }
      }
    }
  }

  // ---------------------------------------------------------------- the walker

  class Walker<V> {
    const g: Graph
    const visitor: Visitor<V>

    var state: V
    var path: Path
    var ancestors: seq<Id>

    /** The callbacks made so far. */
    ghost var trace: seq<Event>

    constructor (g: Graph, visitor: Visitor<V>, state: V)
      ensures this.g == g && this.visitor == visitor && this.state == state
      ensures path == [] && ancestors == [] && trace == []
    {
      this.g, this.visitor, this.state := g, visitor, state;
      path, ancestors, trace := [], [], [];
    }

    method CallEnter(id: Id) returns (decision: Decision)
      modifies this`state, this`trace
      ensures (state, decision) == visitor.enter(old(state), path, id)
      ensures trace == old(trace) + [Enter(path, id)]
    {
      var (st, d) := visitor.enter(state, path, id);
      state, decision := st, d;
      trace := trace + [Enter(path, id)];
    }

    method CallLeave(id: Id)
      modifies this`state, this`trace
      ensures state == visitor.leave(old(state), path, id)
      ensures trace == old(trace) + [Leave(path, id)]
    {
      state := visitor.leave(state, path, id);
      trace := trace + [Leave(path, id)];
    }

    /** The walker did what `r` says since it was in state `was`. */
    ghost predicate Did(r: Outcome<V>, was: seq<Event>, path0: Path, stopped: bool)
      reads this
    {
      && state == r.state && trace == was + r.events && stopped == r.stopped
      && (!stopped ==> path == path0)
      && (stopped ==> trace != [] && trace[|trace| - 1].Enter? && trace[|trace| - 1].path == path)
    }

    method WalkRecursive(id: Id) returns (stopped: bool)
      requires Ready(g, ancestors) && id in g
      modifies this
      ensures Did(Run(g, visitor, old(state), id, old(path), old(ancestors)), old(trace), old(path), stopped)
      ensures ancestors == old(ancestors)
      decreases Room(g, ancestors), 0
    {
      hide RunEdges, Edges, Room;
      var isCycle := id in ancestors;
      var decision := CallEnter(id);
      match decision {
        case Stop => return true;
        case SkipChildren =>
          CallLeave(id);
          return false;
        case Recurse =>
          if isCycle {
            CallLeave(id);
            return false;
          }
      }
      EdgesClosed(g, id);
      RoomShrinks(g, ancestors, id);
      ancestors := ancestors + [id];
      stopped := WalkChildren(id);
      ancestors := ancestors[..|ancestors| - 1];
      if !stopped {
        CallLeave(id);
      }
    }

    method WalkChildren(id: Id) returns (stopped: bool)
      requires Ready(g, ancestors) && id in g && EdgesIn(g, Edges(g[id]))
      modifies this
      ensures Did(RunEdges(g, visitor, old(state), Edges(g[id]), old(path), old(ancestors)), old(trace), old(path), stopped)
      ensures ancestors == old(ancestors)
      decreases Room(g, ancestors), 5
    {
      hide Run, RunEdges, Room;
      var shape := g[id];
      assert ShapeClosed(g, id);
      if shape.def.DefOption? {
        stopped := WalkEdge([StepOptionSome], shape.def.t);
        return;
      }
      match shape.ty {
        case TyStruct(st) => stopped := WalkFields(st.fields);
        case TyEnum(vs) => stopped := WalkVariants(vs);
        case _ =>
          var hasStructuralChildren;
          stopped, hasStructuralChildren := WalkDef(shape.def);
          RunNothing(g, visitor, old(state), old(path), ancestors);
          assert !hasStructuralChildren ==> trace == old(trace);
          assert Edges(shape) == if hasStructuralChildren then DefEdges(shape.def) else InnerEdges(shape.inner);
          if !stopped && !hasStructuralChildren && shape.inner.Some? {
            stopped := WalkEdge([StepInner], shape.inner.value);
          }
      }
    }

    /** Push the steps of one edge, walk the child, and pop them again unless the walk stopped. */
    method WalkEdge(steps: Path, child: Id) returns (stopped: bool)
      requires Ready(g, ancestors) && child in g
      modifies this
      ensures EdgesIn(g, [Edge(steps, child)])
      ensures Did(RunEdges(g, visitor, old(state), [Edge(steps, child)], old(path), old(ancestors)),
                  old(trace), old(path), stopped)
      ensures ancestors == old(ancestors)
      decreases Room(g, ancestors), 1
    {
      hide Run;
      path := path + steps;
      stopped := WalkRecursive(child);
      if !stopped {
        path := path[..|path| - |steps|];
      }
    }

    /** One child for each field; on return the path is as before unless the walk stopped. */
    method WalkFields(fields: seq<Field>) returns (stopped: bool)
      requires Ready(g, ancestors) && FieldsClosed(g, fields)
      modifies this
      ensures Did(RunEdges(g, visitor, old(state), FieldEdges([], fields), old(path), old(ancestors)),
                  old(trace), old(path), stopped)
      ensures ancestors == old(ancestors)
      decreases Room(g, ancestors), 2
    {
      hide Run, RunEdges, Room;
      RunNothing(g, visitor, state, path, ancestors);
      ghost var edges, st, path0, anc := FieldEdges([], fields), state, path, ancestors;
      stopped := false;
      for i := 0 to |fields|
        invariant ancestors == anc && path == path0
        invariant Did(RunEdges(g, visitor, st, edges[..i], path0, anc), old(trace), path0, false)
      {
        RunEdgesStep(g, visitor, st, edges, i, path0, anc);
        assert edges[i].steps == [StepField(AsU32(i))];
        stopped := WalkEdge([StepField(AsU32(i))], fields[i].shape);
        if stopped {
          return;
        }
      }
      assert edges[..|fields|] == edges;
    }

    method WalkVariants(vs: seq<Variant>) returns (stopped: bool)
      requires Ready(g, ancestors) && forall v :: 0 <= v < |vs| ==> FieldsClosed(g, vs[v].data.fields)
      modifies this
      ensures EdgesIn(g, VariantEdges(vs))
      ensures Did(RunEdges(g, visitor, old(state), VariantEdges(vs), old(path), old(ancestors)),
                  old(trace), old(path), stopped)
      ensures ancestors == old(ancestors)
      decreases Room(g, ancestors), 4
    {
      hide Run, RunEdges, FieldEdges, Room;
      VariantEdgesIn(g, vs);
      ghost var st, path0, anc := state, path, ancestors;
      stopped := false;
      RunNothing(g, visitor, st, path0, anc);
      for i := 0 to |vs|
        invariant ancestors == anc && path == path0
        invariant EdgesIn(g, VariantEdges(vs[..i]))
        invariant Did(RunEdges(g, visitor, st, VariantEdges(vs[..i]), path0, anc), old(trace), path0, false)
      {
        VariantEdgesSplit(g, visitor, st, vs, i, path0, anc);
        stopped := WalkVariant(i, vs[i]);
        if stopped {
          return;
        }
      }
      assert vs[..|vs|] == vs;
    }

    method WalkVariant(i: nat, v: Variant) returns (stopped: bool)
      requires Ready(g, ancestors) && FieldsClosed(g, v.data.fields)
      modifies this
      ensures Did(RunEdges(g, visitor, old(state), FieldEdges([StepVariant(AsU32(i))], v.data.fields),
                           old(path), old(ancestors)),
                  old(trace), old(path), stopped)
      ensures ancestors == old(ancestors)
      decreases Room(g, ancestors), 3
    {
      hide Run, RunEdges, FieldEdges;
      RunPrefixed(g, visitor, state, v.data.fields, [StepVariant(AsU32(i))], path, ancestors);
      path := path + [StepVariant(AsU32(i))];
      stopped := WalkFields(v.data.fields);
      if !stopped {
        path := path[..|path| - 1];
      }
    }

    method WalkDef(def: Def) returns (stopped: bool, hasStructuralChildren: bool)
      requires Ready(g, ancestors) && DefClosed(g, def)
      modifies this
      ensures EdgesIn(g, DefEdges(def))
      ensures Did(RunEdges(g, visitor, old(state), DefEdges(def), old(path), old(ancestors)),
                  old(trace), old(path), stopped)
      ensures hasStructuralChildren == (DefEdges(def) != [])
      ensures ancestors == old(ancestors)
      decreases Room(g, ancestors), 3
    {
      hide Run, RunEdges;
      RunNothing(g, visitor, state, path, ancestors);
      stopped, hasStructuralChildren := false, true;
      match def {
        case DefList(t) => stopped := WalkEdge([StepIndex(0)], t);
        case DefArray(t, _) => stopped := WalkEdge([StepIndex(0)], t);
        case DefSlice(t) => stopped := WalkEdge([StepIndex(0)], t);
        case DefNdArray(t) => stopped := WalkEdge([StepIndex(0)], t);
        case DefSet(t) => stopped := WalkEdge([StepIndex(0)], t);
        case DefMap(k, v) => stopped := WalkTwo([StepMapKey(0)], k, [StepMapValue(0)], v);
        case DefOption(t) => stopped := WalkEdge([StepOptionSome], t);
        case DefResult(t, e) =>
          stopped := WalkTwo([StepVariant(0), StepField(0)], t, [StepVariant(1), StepField(0)], e);
        case DefPointer(pointee) =>
          match pointee {
            case Some(p) => stopped := WalkEdge([StepDeref], p);
            case None => hasStructuralChildren := false;
          }
        case _ => hasStructuralChildren := false;
      }
    }

    method WalkTwo(steps0: Path, child0: Id, steps1: Path, child1: Id) returns (stopped: bool)
      requires Ready(g, ancestors) && child0 in g && child1 in g
      modifies this
      ensures EdgesIn(g, [Edge(steps0, child0), Edge(steps1, child1)])
      ensures Did(RunEdges(g, visitor, old(state), [Edge(steps0, child0), Edge(steps1, child1)],
                           old(path), old(ancestors)),
                  old(trace), old(path), stopped)
      ensures ancestors == old(ancestors)
      decreases Room(g, ancestors), 2
    {
      hide Run, RunEdges;
      RunEdgesAppend(g, visitor, state, [Edge(steps0, child0)], [Edge(steps1, child1)], path, ancestors);
      assert [Edge(steps0, child0)] + [Edge(steps1, child1)] == [Edge(steps0, child0), Edge(steps1, child1)];
      stopped := WalkEdge(steps0, child0);
      if stopped {
        return;
      }
      stopped := WalkEdge(steps1, child1);
    }
  }

  /** One more edge: either the walk of all edges stops there, or it goes on from there. */
  lemma RunEdgesStep<V>(g: Graph, vis: Visitor<V>, st: V, edges: seq<Edge>, i: nat, path: Path, anc: seq<Id>)
    requires Ready(g, anc) && EdgesIn(g, edges) && i < |edges|
    ensures var r := RunEdges(g, vis, st, edges[..i], path, anc);
            !r.stopped ==>
              var one := RunEdges(g, vis, r.state, [edges[i]], path, anc);
              var next := Outcome(one.state, r.events + one.events, one.stopped);
              && RunEdges(g, vis, st, edges[..i + 1], path, anc) == next
              && (one.stopped ==> RunEdges(g, vis, st, edges, path, anc) == next)
  {
    hide Run, RunEdges;
    RunEdgesAppend(g, vis, st, edges[..i], [edges[i]], path, anc);
    RunEdgesAppend(g, vis, st, edges[..i + 1], edges[i + 1..], path, anc);
    assert edges[..i] + [edges[i]] == edges[..i + 1] && edges[..i + 1] + edges[i + 1..] == edges;
  }

  lemma RunNothing<V>(g: Graph, vis: Visitor<V>, st: V, path: Path, anc: seq<Id>)
    requires Ready(g, anc)
    ensures RunEdges(g, vis, st, [], path, anc) == Outcome(st, [], false)
  {
  }

  lemma VariantEdgesSplit<V>(g: Graph, vis: Visitor<V>, st: V, vs: seq<Variant>, i: nat, path: Path, anc: seq<Id>)
    requires Ready(g, anc) && i < |vs| && EdgesIn(g, VariantEdges(vs))
    requires forall v :: 0 <= v < |vs| ==> FieldsClosed(g, vs[v].data.fields)
    ensures var edges := FieldEdges([StepVariant(AsU32(i))], vs[i].data.fields);
            && EdgesIn(g, VariantEdges(vs[..i])) && EdgesIn(g, edges) && EdgesIn(g, VariantEdges(vs[..i + 1]))
            && VariantEdges(vs[..i + 1]) == VariantEdges(vs[..i]) + edges
            && var r := RunEdges(g, vis, st, VariantEdges(vs[..i]), path, anc);
            && var all := RunEdges(g, vis, st, VariantEdges(vs[..i + 1]), path, anc);
            && (all.stopped ==> RunEdges(g, vis, st, VariantEdges(vs), path, anc) == all)
            && (!r.stopped ==>
                  var rest := RunEdges(g, vis, r.state, edges, path, anc);
                  all == Outcome(rest.state, r.events + rest.events, rest.stopped))
  {
    hide Run, RunEdges;
    var edges := FieldEdges([StepVariant(AsU32(i))], vs[i].data.fields);
    VariantEdgesIn(g, vs[..i]);
    assert FieldsClosed(g, vs[i].data.fields);
    assert vs[..i + 1][..i] == vs[..i];
    RunEdgesAppend(g, vis, st, VariantEdges(vs[..i]), edges, path, anc);
    VariantEdgesPrefix(vs, i + 1);
    var rest: seq<Edge> :| VariantEdges(vs) == VariantEdges(vs[..i + 1]) + rest;
    forall k | 0 <= k < |rest| ensures rest[k].child in g {
      assert VariantEdges(vs)[|VariantEdges(vs[..i + 1])| + k] == rest[k];
    }
    RunEdgesAppend(g, vis, st, VariantEdges(vs[..i + 1]), rest, path, anc);
  }

  lemma {:induction false} VariantEdgesPrefix(vs: seq<Variant>, i: nat)
    requires i <= |vs|
    ensures exists rest :: VariantEdges(vs) == VariantEdges(vs[..i]) + rest
    decreases |vs| - i
  {
    if i == |vs| {
      assert vs[..i] == vs;
      assert VariantEdges(vs) == VariantEdges(vs[..i]) + [];
    } else {
      VariantEdgesPrefix(vs, i + 1);
      var rest :| VariantEdges(vs) == VariantEdges(vs[..i + 1]) + rest;
      assert vs[..i + 1][..i] == vs[..i];
      var edges := FieldEdges([StepVariant(AsU32(i))], vs[i].data.fields);
      assert VariantEdges(vs) == VariantEdges(vs[..i]) + (edges + rest);
    }
  }

  /** Steps pushed once before a loop act like steps pushed with every field. */
  lemma {:induction false} RunPrefixed<V>(
    g: Graph, vis: Visitor<V>, st: V, fields: seq<Field>, prefix: Path, path: Path, anc: seq<Id>)
    requires Ready(g, anc) && FieldsClosed(g, fields)
    ensures RunEdges(g, vis, st, FieldEdges(prefix, fields), path, anc) ==
            RunEdges(g, vis, st, FieldEdges([], fields), path + prefix, anc)
  {
    RunPrefixedFrom(g, vis, st, FieldEdges(prefix, fields), FieldEdges([], fields), prefix, path, anc);
  }

  lemma {:induction false} RunPrefixedFrom<V>(
    g: Graph, vis: Visitor<V>, st: V, a: seq<Edge>, b: seq<Edge>, prefix: Path, path: Path, anc: seq<Id>)
    requires Ready(g, anc) && EdgesIn(g, a) && |a| == |b|
    requires forall i :: 0 <= i < |a| ==> a[i].steps == prefix + b[i].steps && a[i].child == b[i].child
    ensures EdgesIn(g, b)
    ensures RunEdges(g, vis, st, a, path, anc) == RunEdges(g, vis, st, b, path + prefix, anc)
    decreases |a|
  {
    hide Run;
    assert EdgesIn(g, b) by {
      forall i | 0 <= i < |b| ensures b[i].child in g { assert a[i].child in g; }
    }
    if a != [] {
      assert path + a[0].steps == path + prefix + b[0].steps;
      var r := Run(g, vis, st, a[0].child, path + a[0].steps, anc);
      RunPrefixedFrom(g, vis, r.state, a[1..], b[1..], prefix, path, anc);
    }
  }

  // ---------------------------------------------------------------- the law of the trace

  /** An open node of a trace: where it was entered, and how many of its children have been entered since. */
  datatype Node = Node(path: Path, shape: Id, entered: nat)

  /**
    What a trace and the visitor alone say: the visitor's state, the open nodes, and
    the decision of the last callback if that was an `enter`.
   */
  datatype Scene<V> = Scene(state: V, open: seq<Node>, just: Option<Decision>)

  /** One more child of the innermost open node. */
  function OneMoreChild(open: seq<Node>): seq<Node> {
    if open == [] then []
    else
      var top := open[|open| - 1];
      open[..|open| - 1] + [top.(entered := top.entered + 1)]
  }

  function Observe<V>(vis: Visitor<V>, m: Scene<V>, e: Event): Scene<V> {
    if e.Enter? then
      var (st, decision) := vis.enter(m.state, e.path, e.shape);
      Scene(st, OneMoreChild(m.open) + [Node(e.path, e.shape, 0)], Some(decision))
    else
      Scene(vis.leave(m.state, e.path, e.shape), if m.open == [] then [] else m.open[..|m.open| - 1], None)
  }

  /** The callbacks of `events`, folded over the visitor. */
  function After<V>(vis: Visitor<V>, m: Scene<V>, events: seq<Event>): Scene<V>
    decreases |events|
  {
    if events == [] then m else After(vis, Observe(vis, m, events[0]), events[1..])
  }

  /** The open node at `k` has the shape `id`. */
  predicate IsOpen(open: seq<Node>, k: nat, id: Id) {
    k < |open| && open[k].shape == id
  }

  /** The shape of the innermost open node is open above it as well. */
  ghost predicate IsCycle(open: seq<Node>) {
    open != [] && OpenAbove(open, open[|open| - 1].shape)
  }

  ghost predicate OpenAbove(open: seq<Node>, id: Id) {
    exists k: nat :: k < |open| - 1 && IsOpen(open, k, id)
  }

  /**
    The next callback.  Nothing follows a `Stop` or the last `leave`.  A node that was
    skipped, or whose shape is already open above it, is left at once; any other is
    left when each of its edges has been entered, in order.
   */
  ghost function Expected<V>(g: Graph, m: Scene<V>): Option<Event> {
    if m.just == Some(Stop) || m.open == [] then None
    else
      var top := m.open[|m.open| - 1];
      var childless := m.just == Some(SkipChildren) || IsCycle(m.open);
      if childless || top.shape !in g || top.entered >= |Edges(g[top.shape])| then Some(Leave(top.path, top.shape))
      else
        var e := Edges(g[top.shape])[top.entered];
        Some(Enter(top.path + e.steps, e.child))
  }

  /** Each of `events` is the one expected after those before it. */
  ghost predicate Accepts<V>(g: Graph, vis: Visitor<V>, m: Scene<V>, events: seq<Event>)
    decreases |events|
  {
    events == [] || (Expected(g, m) == Some(events[0]) && Accepts(g, vis, Observe(vis, m, events[0]), events[1..]))
  }

  lemma {:induction false} AcceptsAppend<V>(g: Graph, vis: Visitor<V>, m: Scene<V>, a: seq<Event>, b: seq<Event>)
    ensures After(vis, m, a + b) == After(vis, After(vis, m, a), b)
    ensures Accepts(g, vis, m, a + b) <==> Accepts(g, vis, m, a) && Accepts(g, vis, After(vis, m, a), b)
    decreases |a|
  {
    hide Expected, Observe;
    if a == [] {
      assert a + b == b;
    } else {
      assert (a + b)[0] == a[0] && (a + b)[1..] == a[1..] + b;
      AcceptsAppend(g, vis, Observe(vis, m, a[0]), a[1..], b);
    }
  }

  /** The scene before any callback. */
  function Opening<V>(state: V): Scene<V> {
    Scene(state, [], None)
  }

  /**
    The law of a walk, from its trace and the visitor: it begins by entering the root,
    each callback is the expected one, it ends when none is expected, the final state
    is that of the visitor, and it is stopped if the last decision was `Stop`.
   */
  ghost predicate Lawful<V>(g: Graph, vis: Visitor<V>, state: V, root: Id, trace: seq<Event>, final: V, status: Status) {
    && trace != [] && trace[0] == Enter([], root)
    && Accepts(g, vis, Observe(vis, Opening(state), trace[0]), trace[1..])
    && var end := After(vis, Opening(state), trace);
    && Expected(g, end) == None && final == end.state
    && (status == Stopped <==> end.just == Some(Stop))
  }

  /** The shapes of the open nodes are the ancestors. */
  ghost predicate OpenAre(open: seq<Node>, anc: seq<Id>) {
    |open| == |anc| && forall i :: 0 <= i < |anc| ==> open[i].shape == anc[i]
  }

  /** Where the walk of one node leaves the scene. */
  ghost predicate Ended<V>(r: Outcome<V>, before: seq<Node>, after: Scene<V>) {
    && after.state == r.state
    && (r.stopped ==> after.just == Some(Stop))
    && (!r.stopped ==> after.just == None && after.open == OneMoreChild(before))
  }

  lemma OpenCycle(open: seq<Node>, anc: seq<Id>, path: Path, id: Id)
    requires OpenAre(open, anc)
    ensures var all := OneMoreChild(open) + [Node(path, id, 0)];
            && OpenAre(all, anc + [id])
            && (id in anc <==> IsCycle(all))
  {
    var all := OneMoreChild(open) + [Node(path, id, 0)];
    forall i | 0 <= i < |anc| ensures all[i].shape == anc[i] {}
    if id in anc {
      var k: nat :| k < |anc| && anc[k] == id;
      assert IsOpen(all, k, id);
    }
    if IsCycle(all) {
      var k: nat :| k < |all| - 1 && IsOpen(all, k, id);
      assert anc[k] == id;
    }
  }

  /** The walk of one node: its `enter`, and then the expected callbacks. */
  lemma {:induction false} RunLawful<V>(
    g: Graph, vis: Visitor<V>, st: V, id: Id, path: Path, anc: seq<Id>, open: seq<Node>, just: Option<Decision>)
    requires Ready(g, anc) && id in g && OpenAre(open, anc)
    ensures var r := Run(g, vis, st, id, path, anc);
            && r.events != [] && r.events[0] == Enter(path, id)
            && Accepts(g, vis, Observe(vis, Scene(st, open, just), Enter(path, id)), r.events[1..])
            && Ended(r, open, After(vis, Scene(st, open, just), r.events))
    decreases Room(g, anc), 0
  {
    hide Edges, Room, RunEdges, Expected, Accepts, After, IsCycle, OneMoreChild;
    var (st1, decision) := vis.enter(st, path, id);
    var start, m := Scene(st, open, just), Observe(vis, Scene(st, open, just), Enter(path, id));
    OpenCycle(open, anc, path, id);
    EnterFirst(vis, start, path, id, []);
    var r := Run(g, vis, st, id, path, anc);
    if decision.Stop? {
      EndsHere(g, vis, m);
      assert r.events[1..] == [];
    } else if decision.SkipChildren? || id in anc {
      ChildlessLeaves(g, m);
      LeaveAccepted(g, vis, m, path, id);
      EnterFirst(vis, start, path, id, [Leave(path, id)]);
      assert r.events == [Enter(path, id)] + [Leave(path, id)] && r.events[1..] == [Leave(path, id)];
      PopsBack(open, Node(path, id, 0));
    } else {
      EdgesClosed(g, id);
      RoomShrinks(g, anc, id);
      var rest := RunEdges(g, vis, st1, Edges(g[id]), path, anc + [id]);
      assert Edges(g[id])[0..] == Edges(g[id]);
      RunEdgesLawful(g, vis, st1, id, 0, path, anc, m);
      RunAround(g, vis, start, id, path, anc, open, m, rest);
    }
  }

  /** The `enter` and, unless the walk stopped, the `leave` around the children. */
  lemma RunAround<V>(
    g: Graph, vis: Visitor<V>, start: Scene<V>, id: Id, path: Path, anc: seq<Id>, open: seq<Node>, m: Scene<V>, rest: Outcome<V>)
    requires id in g && id !in anc && OpenAre(open, anc) && start.open == open && m == Observe(vis, start, Enter(path, id))
    requires Accepts(g, vis, m, rest.events)
    requires var end := After(vis, m, rest.events);
             && end.state == rest.state && (rest.stopped ==> end.just == Some(Stop))
             && (!rest.stopped ==>
                   && end.just in {None, Some(Recurse)}
                   && end.open == OneMoreChild(open) + [Node(path, id, |Edges(g[id])|)])
    ensures rest.stopped ==>
              && Accepts(g, vis, m, rest.events)
              && Ended(rest, open, After(vis, start, [Enter(path, id)] + rest.events))
    ensures !rest.stopped ==>
              var r := Outcome(vis.leave(rest.state, path, id), [Enter(path, id)] + rest.events + [Leave(path, id)], false);
              && Accepts(g, vis, m, rest.events + [Leave(path, id)])
              && r.events[1..] == rest.events + [Leave(path, id)]
              && Ended(r, open, After(vis, start, r.events))
  {
    hide Edges, Expected, Accepts, After, IsOpen, OneMoreChild;
    EnterFirst(vis, start, path, id, rest.events);
    if !rest.stopped {
      var end := After(vis, m, rest.events);
      FullLeaves(g, end, id, path);
      LeaveAccepted(g, vis, end, path, id);
      AcceptsAppend(g, vis, m, rest.events, [Leave(path, id)]);
      EnterFirst(vis, start, path, id, rest.events + [Leave(path, id)]);
      assert [Enter(path, id)] + rest.events + [Leave(path, id)] == [Enter(path, id)] + (rest.events + [Leave(path, id)]);
      PopsBack(open, Node(path, id, |Edges(g[id])|));
    }
  }

  lemma EnterFirst<V>(vis: Visitor<V>, m: Scene<V>, path: Path, id: Id, events: seq<Event>)
    ensures After(vis, m, [Enter(path, id)] + events) == After(vis, Observe(vis, m, Enter(path, id)), events)
    ensures After(vis, m, [Enter(path, id)]) == Observe(vis, m, Enter(path, id))
  {
    hide Observe;
    assert ([Enter(path, id)] + events)[1..] == events && [Enter(path, id)][1..] == [];
  }

  lemma EndsHere<V>(g: Graph, vis: Visitor<V>, m: Scene<V>)
    ensures Accepts(g, vis, m, [])
  {
  }

  lemma ChildlessLeaves<V>(g: Graph, m: Scene<V>)
    requires m.open != [] && m.just != Some(Stop) && (m.just == Some(SkipChildren) || IsCycle(m.open))
    ensures var top := m.open[|m.open| - 1];
            Expected(g, m) == Some(Leave(top.path, top.shape))
  {
  }

  lemma FullLeaves<V>(g: Graph, m: Scene<V>, id: Id, path: Path)
    requires m.open != [] && id in g && m.just != Some(Stop)
    requires m.open[|m.open| - 1] == Node(path, id, |Edges(g[id])|)
    ensures Expected(g, m) == Some(Leave(path, id))
  {
    hide Edges;
  }

  lemma PopsBack(open: seq<Node>, top: Node)
    ensures var all := OneMoreChild(open) + [top];
            all[..|all| - 1] == OneMoreChild(open)
  {
  }

  lemma LeaveAccepted<V>(g: Graph, vis: Visitor<V>, m: Scene<V>, path: Path, id: Id)
    requires Expected(g, m) == Some(Leave(path, id))
    ensures Accepts(g, vis, m, [Leave(path, id)])
    ensures After(vis, m, [Leave(path, id)]) == Observe(vis, m, Leave(path, id))
  {
    hide Expected, Observe;
    assert [Leave(path, id)][1..] == [];
  }

  /** The walk of the edges from `n` on, below an open node that has had `n` children entered. */
  lemma {:induction false} RunEdgesLawful<V>(
    g: Graph, vis: Visitor<V>, st: V, id: Id, n: nat, path: Path, anc: seq<Id>, m: Scene<V>)
    requires Ready(g, anc) && id in g && id !in anc && n <= |Edges(g[id])|
    requires m.state == st && m.just in {None, Some(Recurse)} && m.open != []
    requires OpenAre(m.open, anc + [id]) && m.open[|anc|] == Node(path, id, n)
    ensures Ready(g, anc + [id]) && EdgesIn(g, Edges(g[id])[n..])
    ensures var r := RunEdges(g, vis, st, Edges(g[id])[n..], path, anc + [id]);
            var end := After(vis, m, r.events);
            && Accepts(g, vis, m, r.events) && end.state == r.state
            && (r.stopped ==> end.just == Some(Stop))
            && (!r.stopped ==>
                  && end.just in {None, Some(Recurse)}
                  && end.open == m.open[..|anc|] + [Node(path, id, |Edges(g[id])|)])
    decreases Room(g, anc + [id]), 1 + |Edges(g[id])| - n
  {
    hide Edges, Room, Run;
    EdgesClosed(g, id);
    var edges := Edges(g[id])[n..];
    if edges == [] {
      assert m.open == m.open[..|anc|] + [Node(path, id, n)];
    } else {
      var e := edges[0];
      var under := path + e.steps;
      var r := Run(g, vis, st, e.child, under, anc + [id]);
      RunLawful(g, vis, st, e.child, under, anc + [id], m.open, m.just);
      assert m == Scene(st, m.open, m.just);
      NextChild(g, m, id, anc, n, path);
      assert r.events == [r.events[0]] + r.events[1..];
      if !r.stopped {
        var m1 := After(vis, m, r.events);
        OneMoreAt(m.open, anc, path, id, n);
        RunEdgesLawful(g, vis, r.state, id, n + 1, path, anc, m1);
        assert edges[1..] == Edges(g[id])[n + 1..];
        AcceptsAppend(g, vis, m, r.events, RunEdges(g, vis, r.state, edges[1..], path, anc + [id]).events);
      }
    }
  }

  lemma OneMoreAt(open: seq<Node>, anc: seq<Id>, path: Path, id: Id, n: nat)
    requires OpenAre(open, anc + [id]) && open[|anc|] == Node(path, id, n)
    ensures OneMoreChild(open) == open[..|anc|] + [Node(path, id, n + 1)]
    ensures OpenAre(OneMoreChild(open), anc + [id])
  {
  }

  lemma NextChild<V>(g: Graph, m: Scene<V>, id: Id, anc: seq<Id>, n: nat, path: Path)
    requires id in g && id !in anc && n < |Edges(g[id])|
    requires m.just in {None, Some(Recurse)}
    requires OpenAre(m.open, anc + [id]) && m.open[|anc|] == Node(path, id, n)
    ensures var e := Edges(g[id])[n];
            Expected(g, m) == Some(Enter(path + e.steps, e.child))
  {
    hide Edges;
    forall k: nat | k < |m.open| - 1 ensures !IsOpen(m.open, k, id) {
      assert (anc + [id])[k] == anc[k];
    }
  }

  /** The walk from a root is lawful. */
  lemma WalkIsLawful<V>(g: Graph, vis: Visitor<V>, st: V, root: Id)
    requires Closed(g) && root in g
    ensures var r := Run(g, vis, st, root, [], []);
            Lawful(g, vis, st, root, r.events, r.state, if r.stopped then Stopped else Completed)
  {
    hide Run;
    RunLawful(g, vis, st, root, [], [], [], None);
  }

  method WalkShape<V>(g: Graph, visitor: Visitor<V>, state: V, root: Id)
    returns (status: Status, final: V, ghost trace: seq<Event>)
    requires Closed(g) && root in g
    ensures Lawful(g, visitor, state, root, trace, final, status)
    ensures final == Run(g, visitor, state, root, [], []).state
    ensures status == if Run(g, visitor, state, root, [], []).stopped then Stopped else Completed
    ensures trace == Run(g, visitor, state, root, [], []).events
  {
    hide Run, Lawful;
    var walker := new Walker(g, visitor, state);
    var stopped := walker.WalkRecursive(root);
    status := if stopped then Stopped else Completed;
    final, trace := walker.state, walker.trace;
    assert trace == Run(g, visitor, state, root, [], []).events;
    WalkIsLawful(g, visitor, state, root);
  }
}
