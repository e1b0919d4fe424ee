/**
  What the walk guarantees: the callback protocol for any visitor, and, for a
  visitor that always recurses, exactly which paths are entered and in which order.
 */
module WalkTheory {
  import opened Wrappers
  import opened Shapes
  import opened Walk

  // ---------------------------------------------------------------- the callback protocol

  /** A node that has been entered and not left. */
  datatype Open = Open(path: Path, shape: Id)

  /** `to` is one edge below `from`. */
  ghost predicate Below(g: Graph, from: Open, to: Open) {
    from.shape in g &&
    exists k :: 0 <= k < |Edges(g[from.shape])| &&
      to == Open(from.path + Edges(g[from.shape])[k].steps, Edges(g[from.shape])[k].child)
  }

  /** One callback on the stack of open nodes: enter a child of the top, or leave the top. */
  ghost function Advance(g: Graph, e: Event, stack: seq<Open>): Option<seq<Open>> {
    if stack == [] then None else
    var top := stack[|stack| - 1];
    match e
    case Enter(p, x) => if Below(g, top, Open(p, x)) then Some(stack + [Open(p, x)]) else None
    case Leave(p, x) => if top == Open(p, x) then Some(stack[..|stack| - 1]) else None
  }

  /** The open nodes after `events`, or `None` when the callbacks do not nest. */
  ghost function Nest(g: Graph, events: seq<Event>, stack: seq<Open>): Option<seq<Open>> {
    if events == [] then Some(stack) else
    match Advance(g, events[0], stack)
    case Some(stack1) => Nest(g, events[1..], stack1)
    case None => None
  }

  lemma {:induction false} NestAppend(g: Graph, a: seq<Event>, b: seq<Event>, stack: seq<Open>)
    ensures Nest(g, a + b, stack) ==
            match Nest(g, a, stack) case Some(stack1) => Nest(g, b, stack1) case None => None
    decreases |a|
  {
    if a == [] {
      assert a + b == b;
    } else {
      assert (a + b)[0] == a[0] && (a + b)[1..] == a[1..] + b;
      var next := Advance(g, a[0], stack);
      if next.Some? { NestAppend(g, a[1..], b, next.value); }
    }
  }

  /** Where a stopped walk is: the stack it started on, then the open nodes, the last one just entered. */
  ghost predicate StoppedAt(events: seq<Event>, before: seq<Open>, after: seq<Open>) {
    && before < after && events != []
    && events[|events| - 1] == Enter(after[|after| - 1].path, after[|after| - 1].shape)
  }

  ghost predicate Nests<V>(g: Graph, r: Outcome<V>, events: seq<Event>, before: seq<Open>, done: seq<Open>) {
    Nest(g, events, before).Some? &&
    var after := Nest(g, events, before).value;
    if r.stopped then StoppedAt(r.events, done, after) else after == done
  }

  lemma {:induction false} RunNests<V>(
    g: Graph, vis: Visitor<V>, st: V, id: Id, path: Path, anc: seq<Id>, stack: seq<Open>)
    requires Ready(g, anc) && id in g
    ensures var r := Run(g, vis, st, id, path, anc);
            && r.events != [] && r.events[0] == Enter(path, id)
            && Nests(g, r, r.events[1..], stack + [Open(path, id)], stack)
    decreases Room(g, anc), 0
  {
    hide Room, Edges, Below;
    var (st1, decision) := vis.enter(st, path, id);
    var inside := stack + [Open(path, id)];
    assert inside[..|inside| - 1] == stack;
    var e, l := Enter(path, id), Leave(path, id);
    if decision.Stop? {
      assert [e][1..] == [];
    } else if decision.SkipChildren? || id in anc {
      assert [e, l][1..] == [l] && [l][1..] == [];
      assert Nest(g, [l], inside) == Nest(g, [], stack);
    } else {
      EdgesClosed(g, id);
      RoomShrinks(g, anc, id);
      var r := RunEdges(g, vis, st1, Edges(g[id]), path, anc + [id]);
      RunEdgesNests(g, vis, st1, Edges(g[id]), path, anc + [id], id, stack);
      if r.stopped {
        assert ([e] + r.events)[1..] == r.events;
      } else {
        assert ([e] + r.events + [l])[1..] == r.events + [l];
        NestAppend(g, r.events, [l], inside);
        assert [l][1..] == [];
      }
    }
  }

  lemma {:induction false} RunEdgesNests<V>(
    g: Graph, vis: Visitor<V>, st: V, edges: seq<Edge>, path: Path, anc: seq<Id>, id: Id, stack: seq<Open>)
    requires Ready(g, anc) && EdgesIn(g, edges) && id in g
    requires forall e :: e in edges ==> e in Edges(g[id])
    ensures var r := RunEdges(g, vis, st, edges, path, anc);
            var inside := stack + [Open(path, id)];
            Nests(g, r, r.events, inside, inside)
    decreases Room(g, anc), 1 + |edges|
  {
    hide Room, Edges, Run;
    var inside := stack + [Open(path, id)];
    if edges != [] {
      var child := Open(path + edges[0].steps, edges[0].child);
      var r := Run(g, vis, st, child.shape, child.path, anc);
      RunNests(g, vis, st, child.shape, child.path, anc, inside);
      assert edges[0] in Edges(g[id]);
      assert Below(g, Open(path, id), child);
      assert Advance(g, r.events[0], inside) == Some(inside + [child]);
      if !r.stopped {
        RunEdgesNests(g, vis, r.state, edges[1..], path, anc, id, stack);
        var rest := RunEdges(g, vis, r.state, edges[1..], path, anc);
        NestAppend(g, r.events, rest.events, inside);
      }
    }
  }

  /**
    The protocol, for every visitor.  A completed walk enters and leaves the root
    around one well-nested word in which each node is entered below its parent and
    left with the path and shape it was entered with; a stopped walk is such a word
    cut off just after an `enter`.
   */
  lemma WalkProtocol<V>(g: Graph, vis: Visitor<V>, st: V, root: Id)
    requires Closed(g) && root in g
    ensures var r := Run(g, vis, st, root, [], []);
            && r.events != [] && r.events[0] == Enter([], root)
            && var after := Nest(g, r.events[1..], [Open([], root)]);
            && after.Some?
            && (!r.stopped ==> after.value == [])
            && (r.stopped ==> StoppedAt(r.events, [], after.value))
  {
    hide Run, Nest;
    RunNests(g, vis, st, root, [], [], []);
    assert [] + [Open([], root)] == [Open([], root)];
  }

  // ---------------------------------------------------------------- depth

  lemma {:induction false} VariantEdgesShort(vs: seq<Variant>)
    ensures forall e :: e in VariantEdges(vs) ==> |e.steps| == 2
  {
    if vs != [] { VariantEdgesShort(vs[..|vs| - 1]); }
  }

  /** One edge pushes one step, or two through a variant. */
  lemma EdgesShort(shape: Shape)
    ensures forall e :: e in Edges(shape) ==> 1 <= |e.steps| <= 2
  {
    if shape.ty.TyEnum? { VariantEdgesShort(shape.ty.variants); }
  }

  lemma {:induction false} RunDepth<V>(g: Graph, vis: Visitor<V>, st: V, id: Id, path: Path, anc: seq<Id>)
    requires Ready(g, anc) && id in g
    ensures forall e :: e in Run(g, vis, st, id, path, anc).events ==> |e.path| <= |path| + 2 * Room(g, anc)
    decreases Room(g, anc), 0
  {
    hide Room, Edges, RunEdges;
    var (st1, decision) := vis.enter(st, path, id);
    if decision.Recurse? && id !in anc {
      EdgesClosed(g, id);
      EdgesShort(g[id]);
      RoomShrinks(g, anc, id);
      RunEdgesDepth(g, vis, st1, Edges(g[id]), path, anc + [id]);
    }
  }

  lemma {:induction false} RunEdgesDepth<V>(
    g: Graph, vis: Visitor<V>, st: V, edges: seq<Edge>, path: Path, anc: seq<Id>)
    requires Ready(g, anc) && EdgesIn(g, edges)
    requires forall e :: e in edges ==> |e.steps| <= 2
    ensures forall e :: e in RunEdges(g, vis, st, edges, path, anc).events ==>
              |e.path| <= |path| + 2 + 2 * Room(g, anc)
    decreases Room(g, anc), 1 + |edges|
  {
    hide Room, Run;
    if edges != [] {
      var r := Run(g, vis, st, edges[0].child, path + edges[0].steps, anc);
      RunDepth(g, vis, st, edges[0].child, path + edges[0].steps, anc);
      if !r.stopped { RunEdgesDepth(g, vis, r.state, edges[1..], path, anc); }
    }
  }

  /** However the visitor behaves, no path is longer than twice the number of shapes. */
  lemma WalkDepth<V>(g: Graph, vis: Visitor<V>, st: V, root: Id, e: Event)
    requires Closed(g) && root in g && e in Run(g, vis, st, root, [], []).events
    ensures |e.path| <= 2 * |g|
  {
    RunDepth(g, vis, st, root, [], []);
    assert g.Keys - (set x | x in []) == g.Keys;
  }

  // ---------------------------------------------------------------- routes through the unfolding

  /** A finite path of the (possibly infinite) unfolding of the graph, edge by edge. */
  type Route = seq<Edge>

  ghost predicate ValidRoute(g: Graph, from: Id, route: Route)
    decreases |route|
  {
    from in g &&
    (route == [] || (route[0] in Edges(g[from]) && ValidRoute(g, route[0].child, route[1..])))
  }

  function RoutePath(route: Route): Path {
    if route == [] then [] else route[0].steps + RoutePath(route[1..])
  }

  function RouteEnd(from: Id, route: Route): Id {
    if route == [] then from else route[|route| - 1].child
  }

  /** The shapes strictly above the end of a route, outermost first. */
  function ProperAncestors(from: Id, route: Route): (r: seq<Id>)
    ensures |r| == |route|
  {
    seq(|route|, i requires 0 <= i < |route| => if i == 0 then from else route[i - 1].child)
  }

  ghost predicate Distinct(ids: seq<Id>) {
    forall i, j :: 0 <= i < j < |ids| ==> ids[i] != ids[j]
  }

  /** No proper ancestor of the end repeats another one, or one of `anc`. */
  ghost predicate Uncut(from: Id, route: Route, anc: seq<Id>)
    decreases |route|
  {
    route == [] || (from !in anc && Uncut(route[0].child, route[1..], anc + [from]))
  }

  lemma {:induction false} UncutIsDistinct(from: Id, route: Route, anc: seq<Id>)
    requires Distinct(anc)
    ensures Uncut(from, route, anc) <==> Distinct(anc + ProperAncestors(from, route))
    decreases |route|
  {
    if route != [] {
      var rest := ProperAncestors(route[0].child, route[1..]);
      assert ProperAncestors(from, route) == [from] + rest;
      assert anc + ProperAncestors(from, route) == anc + [from] + rest;
      if from in anc {
        var i :| 0 <= i < |anc| && anc[i] == from;
        var all := anc + ProperAncestors(from, route);
        assert all[i] == all[|anc|];
      } else {
        UncutIsDistinct(route[0].child, route[1..], anc + [from]);
      }
    } else {
      assert anc + ProperAncestors(from, route) == anc;
    }
  }

  /** Soundness, for any visitor: whatever is entered lies at the end of an uncut route. */
  lemma {:induction false} EnteredHasRoute<V>(
    g: Graph, vis: Visitor<V>, st: V, id: Id, path: Path, anc: seq<Id>, e: Event) returns (route: Route)
    requires Ready(g, anc) && id in g
    requires e.Enter? && e in Run(g, vis, st, id, path, anc).events
    ensures ValidRoute(g, id, route) && Uncut(id, route, anc)
    ensures e == Enter(path + RoutePath(route), RouteEnd(id, route))
    decreases Room(g, anc), 0
  {
    hide Room, Edges, RunEdges;
    var (st1, decision) := vis.enter(st, path, id);
    if e == Enter(path, id) {
      route := [];
      assert path + RoutePath(route) == path;
    } else {
      EdgesClosed(g, id);
      RoomShrinks(g, anc, id);
      var edge, rest := EnteredBelowHasRoute(g, vis, st1, Edges(g[id]), path, anc + [id], e);
      route := [edge] + rest;
      assert route[1..] == rest;
      assert path + edge.steps + RoutePath(rest) == path + RoutePath(route);
    }
  }

  lemma {:induction false} EnteredBelowHasRoute<V>(
    g: Graph, vis: Visitor<V>, st: V, edges: seq<Edge>, path: Path, anc: seq<Id>, e: Event)
    returns (edge: Edge, rest: Route)
    requires Ready(g, anc) && EdgesIn(g, edges)
    requires e.Enter? && e in RunEdges(g, vis, st, edges, path, anc).events
    ensures edge in edges && ValidRoute(g, edge.child, rest) && Uncut(edge.child, rest, anc)
    ensures e == Enter(path + edge.steps + RoutePath(rest), RouteEnd(edge.child, rest))
    decreases Room(g, anc), 1 + |edges|
  {
    hide Room, Run;
    var r := Run(g, vis, st, edges[0].child, path + edges[0].steps, anc);
    if e in r.events {
      edge := edges[0];
      rest := EnteredHasRoute(g, vis, st, edge.child, path + edge.steps, anc, e);
    } else {
      edge, rest := EnteredBelowHasRoute(g, vis, r.state, edges[1..], path, anc, e);
    }
  }

  /** The visitor whose `enter` always answers `Recurse`. */
  ghost predicate AlwaysRecurses<V(!new)>(vis: Visitor<V>) {
    forall st, p, x :: vis.enter(st, p, x).1 == Recurse
  }

  lemma {:induction false} RecurseCompletes<V(!new)>(
    g: Graph, vis: Visitor<V>, st: V, id: Id, path: Path, anc: seq<Id>)
    requires Ready(g, anc) && id in g && AlwaysRecurses(vis)
    ensures !Run(g, vis, st, id, path, anc).stopped
    decreases Room(g, anc), 0
  {
    hide Room, Edges, RunEdges;
    var (st1, decision) := vis.enter(st, path, id);
    if id !in anc {
      EdgesClosed(g, id);
      RoomShrinks(g, anc, id);
      RecurseEdgesCompletes(g, vis, st1, Edges(g[id]), path, anc + [id]);
    }
  }

  lemma {:induction false} RecurseEdgesCompletes<V(!new)>(
    g: Graph, vis: Visitor<V>, st: V, edges: seq<Edge>, path: Path, anc: seq<Id>)
    requires Ready(g, anc) && EdgesIn(g, edges) && AlwaysRecurses(vis)
    ensures !RunEdges(g, vis, st, edges, path, anc).stopped
    decreases Room(g, anc), 1 + |edges|
  {
    hide Room, Run;
    if edges != [] {
      var r := Run(g, vis, st, edges[0].child, path + edges[0].steps, anc);
      RecurseCompletes(g, vis, st, edges[0].child, path + edges[0].steps, anc);
      RecurseEdgesCompletes(g, vis, r.state, edges[1..], path, anc);
    }
  }

  /** Completeness: the end of every uncut route is entered. */
  lemma {:induction false} RouteIsEntered<V(!new)>(
    g: Graph, vis: Visitor<V>, st: V, id: Id, path: Path, anc: seq<Id>, route: Route)
    requires Ready(g, anc) && id in g && AlwaysRecurses(vis)
    requires ValidRoute(g, id, route) && Uncut(id, route, anc)
    ensures Enter(path + RoutePath(route), RouteEnd(id, route)) in Run(g, vis, st, id, path, anc).events
    decreases Room(g, anc), 0
  {
    hide Room, Edges, RunEdges;
    var (st1, decision) := vis.enter(st, path, id);
    if route == [] {
      assert path + RoutePath(route) == path;
    } else {
      EdgesClosed(g, id);
      RoomShrinks(g, anc, id);
      RecurseEdgesCompletes(g, vis, st1, Edges(g[id]), path, anc + [id]);
      RouteBelowIsEntered(g, vis, st1, Edges(g[id]), path, anc + [id], route[0], route[1..]);
      assert path + route[0].steps + RoutePath(route[1..]) == path + RoutePath(route);
    }
  }

  lemma {:induction false} RouteBelowIsEntered<V(!new)>(
    g: Graph, vis: Visitor<V>, st: V, edges: seq<Edge>, path: Path, anc: seq<Id>, edge: Edge, rest: Route)
    requires Ready(g, anc) && EdgesIn(g, edges) && AlwaysRecurses(vis)
    requires edge in edges && ValidRoute(g, edge.child, rest) && Uncut(edge.child, rest, anc)
    ensures Enter(path + edge.steps + RoutePath(rest), RouteEnd(edge.child, rest)) in
              RunEdges(g, vis, st, edges, path, anc).events
    decreases Room(g, anc), 1 + |edges|
  {
    hide Room, Run, ValidRoute, Uncut, RoutePath, RouteEnd;
    var r := Run(g, vis, st, edges[0].child, path + edges[0].steps, anc);
    RecurseCompletes(g, vis, st, edges[0].child, path + edges[0].steps, anc);
    if edge == edges[0] {
      RouteIsEntered(g, vis, st, edge.child, path + edge.steps, anc, rest);
    } else {
      RouteBelowIsEntered(g, vis, r.state, edges[1..], path, anc, edge, rest);
    }
  }

  /**
    Exactly the uncut part of the unfolding is entered: a path is entered just when
    it is a route whose proper ancestors are pairwise distinct.
   */
  lemma ExactWalk<V(!new)>(g: Graph, vis: Visitor<V>, st: V, root: Id, path: Path, x: Id)
    requires Closed(g) && root in g && AlwaysRecurses(vis)
    ensures Enter(path, x) in Run(g, vis, st, root, [], []).events <==>
            exists route :: ValidRoute(g, root, route) && Distinct(ProperAncestors(root, route))
                            && RoutePath(route) == path && RouteEnd(root, route) == x
  {
    hide Run, ValidRoute, RoutePath, RouteEnd, Distinct;
    if Enter(path, x) in Run(g, vis, st, root, [], []).events {
      var route := EnteredHasRoute(g, vis, st, root, [], [], Enter(path, x));
      FromTheTop(root, route);
      assert [] + RoutePath(route) == RoutePath(route);
    }
    if route :| ValidRoute(g, root, route) && Distinct(ProperAncestors(root, route))
                && RoutePath(route) == path && RouteEnd(root, route) == x
    {
      FromTheTop(root, route);
      RouteIsEntered(g, vis, st, root, [], [], route);
      assert [] + RoutePath(route) == RoutePath(route);
    }
  }

  lemma FromTheTop(root: Id, route: Route)
    ensures Uncut(root, route, []) <==> Distinct(ProperAncestors(root, route))
  {
    UncutIsDistinct(root, route, []);
    assert [] + ProperAncestors(root, route) == ProperAncestors(root, route);
  }

  // ---------------------------------------------------------------- completeness despite the cut

  lemma {:induction false} RouteSplit(g: Graph, from: Id, a: Route, b: Route)
    ensures ValidRoute(g, from, a + b) <==> ValidRoute(g, from, a) && ValidRoute(g, RouteEnd(from, a), b)
    ensures RouteEnd(from, a + b) == RouteEnd(RouteEnd(from, a), b)
    decreases |a|
  {
    if a == [] {
      assert a + b == b;
      if b != [] && from !in g { assert !ValidRoute(g, from, b); }
    } else {
      assert (a + b)[0] == a[0] && (a + b)[1..] == a[1..] + b;
      RouteSplit(g, a[0].child, a[1..], b);
    }
  }

  /** Cutting the loops out of a route leaves a route to the same shape that the walk does not cut. */
  lemma {:induction false} Shortcut(g: Graph, root: Id, route: Route) returns (short: Route)
    requires ValidRoute(g, root, route)
    ensures ValidRoute(g, root, short) && RouteEnd(root, short) == RouteEnd(root, route)
    ensures Distinct(ProperAncestors(root, short))
    decreases |route|
  {
    hide ValidRoute;
    var above := ProperAncestors(root, route);
    if Distinct(above) {
      return route;
    }
    var i, j :| 0 <= i < j < |above| && above[i] == above[j];
    CutLoop(g, root, route, i, j);
    short := Shortcut(g, root, route[..i] + route[j..]);
  }

  lemma CutLoop(g: Graph, root: Id, route: Route, i: nat, j: nat)
    requires ValidRoute(g, root, route) && i < j < |route|
    requires ProperAncestors(root, route)[i] == ProperAncestors(root, route)[j]
    ensures ValidRoute(g, root, route[..i] + route[j..])
    ensures RouteEnd(root, route[..i] + route[j..]) == RouteEnd(root, route)
  {
    hide ValidRoute;
    var a, b := route[..i], route[j..];
    assert route == route[..j] + b && route == a + route[i..];
    RouteSplit(g, root, route[..j], b);
    RouteSplit(g, root, a, route[i..]);
    RouteSplit(g, root, a, b);
  }

  /** Every shape reachable from the root is entered, although revisited ancestors are not expanded. */
  lemma CompleteWalk<V(!new)>(g: Graph, vis: Visitor<V>, st: V, root: Id, route: Route)
    requires Closed(g) && root in g && AlwaysRecurses(vis)
    requires ValidRoute(g, root, route)
    ensures exists path :: Enter(path, RouteEnd(root, route)) in Run(g, vis, st, root, [], []).events
  {
    hide Run, ValidRoute;
    var short := Shortcut(g, root, route);
    ExactWalk(g, vis, st, root, RoutePath(short), RouteEnd(root, short));
    assert Enter(RoutePath(short), RouteEnd(root, route)) in Run(g, vis, st, root, [], []).events;
  }

  // ---------------------------------------------------------------- order

  /** The derived order of `PathStep`: by variant, then by index. */
  function Rank(s: Step): nat {
    match s
    case StepField(_) => 0
    case StepIndex(_) => 1
    case StepVariant(_) => 2
    case StepMapKey(_) => 3
    case StepMapValue(_) => 4
    case StepOptionSome => 5
    case StepDeref => 6
    case StepInner => 7
    case StepProxy => 8
  }

  function Payload(s: Step): nat {
    match s
    case StepField(i) => i
    case StepIndex(i) => i
    case StepVariant(i) => i
    case StepMapKey(i) => i
    case StepMapValue(i) => i
    case _ => 0
  }

  predicate StepLess(a: Step, b: Step) {
    Rank(a) < Rank(b) || (Rank(a) == Rank(b) && Payload(a) < Payload(b))
  }

  /** The lexicographic order of paths with the same root. */
  predicate PathLess(p: Path, q: Path)
    decreases |p|
  {
    q != [] && (p == [] || StepLess(p[0], q[0]) || (p[0] == q[0] && PathLess(p[1..], q[1..])))
  }

  predicate Increasing(ps: seq<Path>) {
    forall i, j :: 0 <= i < j < |ps| ==> PathLess(ps[i], ps[j])
  }

  /** The paths entered, in order. */
  function Entered(events: seq<Event>): seq<Path> {
    if events == [] then []
    else (if events[0].Enter? then [events[0].path] else []) + Entered(events[1..])
  }

  lemma {:induction false} EnteredAppend(a: seq<Event>, b: seq<Event>)
    ensures Entered(a + b) == Entered(a) + Entered(b)
    decreases |a|
  {
    if a == [] {
      assert a + b == b;
    } else {
      assert (a + b)[0] == a[0] && (a + b)[1..] == a[1..] + b;
      EnteredAppend(a[1..], b);
    }
  }

  /** `s` is decided to be less than `t` at a position inside both. */
  ghost predicate Forks(s: Path, t: Path) {
    exists k :: 0 <= k < |s| && k < |t| && s[..k] == t[..k] && StepLess(s[k], t[k])
  }

  lemma {:induction false} ForksLess(p: Path, s: Path, t: Path, u: Path, v: Path)
    requires Forks(s, t)
    ensures PathLess(p + s + u, p + t + v)
  {
    var k :| 0 <= k < |s| && k < |t| && s[..k] == t[..k] && StepLess(s[k], t[k]);
    var x, y := p + s + u, p + t + v;
    assert x[..|p| + k] == p + s[..k] && y[..|p| + k] == p + t[..k];
    assert x[|p| + k] == s[k] && y[|p| + k] == t[k];
    LessAt(x, y, |p| + k);
  }

  lemma {:induction false} LessAt(x: Path, y: Path, k: nat)
    requires k < |x| && k < |y| && x[..k] == y[..k] && StepLess(x[k], y[k])
    ensures PathLess(x, y)
    decreases k
  {
    if k > 0 {
      assert x[0] == x[..k][0] == y[..k][0] == y[0];
      assert x[1..][..k - 1] == x[..k][1..] == y[..k][1..] == y[1..][..k - 1];
      LessAt(x[1..], y[1..], k - 1);
    }
  }

  lemma {:induction false} PrefixLess(p: Path, u: Path)
    requires u != []
    ensures PathLess(p, p + u)
    decreases |p|
  {
    if p == [] {
      assert p + u == u;
    } else {
      assert (p + u)[0] == p[0] && (p + u)[1..] == p[1..] + u;
      PrefixLess(p[1..], u);
    }
  }

  /** Field and variant counts fit in `u32`, so that the casts keep indices apart. */
  predicate CountsFit(shape: Shape) {
    && (shape.ty.TyStruct? ==> |shape.ty.st.fields| <= 0x1_0000_0000)
    && (shape.ty.TyEnum? ==>
          && |shape.ty.variants| <= 0x1_0000_0000
          && forall v :: 0 <= v < |shape.ty.variants| ==> |shape.ty.variants[v].data.fields| <= 0x1_0000_0000)
  }

  ghost predicate AllCountsFit(g: Graph) {
    forall id {:trigger CountsFit(g[id])} :: id in g ==> CountsFit(g[id])
  }

  ghost predicate EdgesForked(edges: seq<Edge>) {
    forall i, j :: 0 <= i < j < |edges| ==> Forks(edges[i].steps, edges[j].steps)
  }

  lemma FieldEdgesForked(prefix: Path, fields: seq<Field>)
    requires |fields| <= 0x1_0000_0000
    ensures EdgesForked(FieldEdges(prefix, fields))
  {
    var edges := FieldEdges(prefix, fields);
    forall i, j | 0 <= i < j < |edges| ensures Forks(edges[i].steps, edges[j].steps) {
      var s, t, k := edges[i].steps, edges[j].steps, |prefix|;
      assert s[..k] == prefix == t[..k] && StepLess(s[k], t[k]);
    }
  }

  lemma FirstStepForks(s: Path, t: Path)
    requires s != [] && t != [] && StepLess(s[0], t[0])
    ensures Forks(s, t)
  {
    assert s[..0] == t[..0];
  }

  /** Every variant of the edges pushes an index below `n` first. */
  ghost predicate VariantBelow(edges: seq<Edge>, n: nat) {
    forall i :: 0 <= i < |edges| ==>
      edges[i].steps != [] && edges[i].steps[0].StepVariant? && edges[i].steps[0].i < n
  }

  lemma {:induction false} VariantEdgesForked(vs: seq<Variant>)
    requires |vs| <= 0x1_0000_0000
    requires forall v :: 0 <= v < |vs| ==> |vs[v].data.fields| <= 0x1_0000_0000
    ensures EdgesForked(VariantEdges(vs)) && VariantBelow(VariantEdges(vs), |vs|)
  {
    hide Forks, StepLess, EdgesForked, VariantBelow;
    if vs == [] {
      NoEdgesForked();
    } else {
      var n := |vs| - 1;
      VariantEdgesForked(vs[..n]);
      FieldEdgesForked([StepVariant(AsU32(n))], vs[n].data.fields);
      LaterVariant(VariantEdges(vs[..n]), FieldEdges([StepVariant(AsU32(n))], vs[n].data.fields), n);
    }
  }

  lemma NoEdgesForked()
    ensures EdgesForked([]) && VariantBelow([], 0)
  {
  }

  lemma LaterVariant(before: seq<Edge>, last: seq<Edge>, n: nat)
    requires EdgesForked(before) && EdgesForked(last) && VariantBelow(before, n)
    requires forall j :: 0 <= j < |last| ==> last[j].steps != [] && last[j].steps[0] == StepVariant(n)
    ensures EdgesForked(before + last) && VariantBelow(before + last, n + 1)
  {
    hide Forks;
    forall i, j | 0 <= i < |before| && 0 <= j < |last| ensures Forks(before[i].steps, last[j].steps) {
      FirstStepForks(before[i].steps, last[j].steps);
    }
  }

  lemma EdgesFork(shape: Shape)
    requires CountsFit(shape)
    ensures EdgesForked(Edges(shape))
  {
    assert forall s: Path, t: Path :: s != [] && t != [] && StepLess(s[0], t[0]) ==> s[..0] == t[..0];
    match shape.ty {
      case TyStruct(st) => FieldEdgesForked([], st.fields);
      case TyEnum(vs) => VariantEdgesForked(vs);
      case _ =>
    }
    if shape.def.DefMap? || shape.def.DefResult? {
      var edges := DefEdges(shape.def);
      var s, t := edges[0].steps, edges[1].steps;
      assert s[..0] == t[..0] && StepLess(s[0], t[0]);
    }
  }

  ghost predicate AllUnder(ps: seq<Path>, prefix: Path) {
    forall i :: 0 <= i < |ps| ==> prefix <= ps[i]
  }

  lemma EnteredBracket(path: Path, id: Id, events: seq<Event>)
    ensures Entered([Enter(path, id)]) == [path] && Entered([Leave(path, id)]) == []
    ensures Entered([Enter(path, id)] + events) == [path] + Entered(events)
    ensures Entered([Enter(path, id)] + events + [Leave(path, id)]) == [path] + Entered(events)
  {
    var e, l := Enter(path, id), Leave(path, id);
    assert [e][1..] == [] && [l][1..] == [];
    EnteredAppend([e], events);
    EnteredAppend([e] + events, [l]);
  }

  lemma IncreasingCons(path: Path, ps: seq<Path>)
    requires Increasing(ps)
    requires forall i :: 0 <= i < |ps| ==> |path| < |ps[i]| && path <= ps[i]
    ensures Increasing([path] + ps) && AllUnder([path] + ps, path)
  {
    hide PathLess;
    forall i | 0 <= i < |ps| ensures PathLess(path, ps[i]) {
      PrefixLess(path, ps[i][|path|..]);
      assert path + ps[i][|path|..] == ps[i];
    }
  }

  lemma {:induction false} RunOrdered<V>(g: Graph, vis: Visitor<V>, st: V, id: Id, path: Path, anc: seq<Id>)
    requires Ready(g, anc) && AllCountsFit(g) && id in g
    ensures var ps := Entered(Run(g, vis, st, id, path, anc).events);
            Increasing(ps) && AllUnder(ps, path)
    decreases Room(g, anc), 0
  {
    hide Room, Edges, RunEdges, CountsFit, PathLess;
    var (st1, decision) := vis.enter(st, path, id);
    EnteredBracket(path, id, []);
    assert [Enter(path, id)] + [] + [Leave(path, id)] == [Enter(path, id), Leave(path, id)];
    if decision.Recurse? && id !in anc {
      EdgesClosed(g, id);
      EdgesShort(g[id]);
      EdgesFork(g[id]);
      RoomShrinks(g, anc, id);
      var r := RunEdges(g, vis, st1, Edges(g[id]), path, anc + [id]);
      RunEdgesOrdered(g, vis, st1, Edges(g[id]), path, anc + [id]);
      EnteredBracket(path, id, r.events);
      IncreasingCons(path, Entered(r.events));
    }
  }

  lemma {:induction false} RunEdgesOrdered<V>(
    g: Graph, vis: Visitor<V>, st: V, edges: seq<Edge>, path: Path, anc: seq<Id>)
    requires Ready(g, anc) && AllCountsFit(g) && EdgesIn(g, edges) && EdgesForked(edges)
    requires forall e :: e in edges ==> e.steps != []
    ensures var ps := Entered(RunEdges(g, vis, st, edges, path, anc).events);
            && Increasing(ps)
            && forall i :: 0 <= i < |ps| ==> UnderEdge(path, edges, ps[i])
    decreases Room(g, anc), 1 + |edges|
  {
    hide Room, Run, Forks, PathLess, CountsFit, StepLess;
    if edges != [] {
      var under := path + edges[0].steps;
      var r := Run(g, vis, st, edges[0].child, under, anc);
      RunOrdered(g, vis, st, edges[0].child, under, anc);
      var ps := Entered(r.events);
      assert edges[0] in edges;
      assert forall i :: 0 <= i < |ps| ==> path + edges[0].steps <= ps[i];
      if !r.stopped {
        RunEdgesOrdered(g, vis, r.state, edges[1..], path, anc);
        var rest := RunEdges(g, vis, r.state, edges[1..], path, anc);
        EnteredAppend(r.events, rest.events);
        SiblingsOrdered(path, edges, ps, Entered(rest.events));
      }
    }
  }

  /** `p` lies below one of the edges. */
  ghost predicate UnderEdge(path: Path, edges: seq<Edge>, p: Path) {
    |path| < |p| && exists k :: 0 <= k < |edges| && path + edges[k].steps <= p
  }

  lemma SiblingsOrdered(path: Path, edges: seq<Edge>, ps: seq<Path>, qs: seq<Path>)
    requires edges != [] && EdgesForked(edges) && Increasing(ps) && Increasing(qs)
    requires forall i :: 0 <= i < |ps| ==> path + edges[0].steps <= ps[i] && |path| < |ps[i]|
    requires forall j :: 0 <= j < |qs| ==> UnderEdge(path, edges[1..], qs[j])
    ensures Increasing(ps + qs)
    ensures forall i :: 0 <= i < |ps + qs| ==> UnderEdge(path, edges, (ps + qs)[i])
  {
    hide Forks, PathLess;
    var rest := edges[1..];
    forall i, j | 0 <= i < |ps| && 0 <= j < |qs| ensures PathLess(ps[i], qs[j]) {
      assert UnderEdge(path, rest, qs[j]);
      var k :| 0 <= k < |rest| && path + rest[k].steps <= qs[j];
      var s, t := edges[0].steps, edges[k + 1].steps;
      assert ps[i] == path + s + ps[i][|path + s|..] && qs[j] == path + t + qs[j][|path + t|..];
      ForksLess(path, s, t, ps[i][|path + s|..], qs[j][|path + t|..]);
    }
    forall j | 0 <= j < |qs| ensures UnderEdge(path, edges, qs[j]) {
      assert UnderEdge(path, rest, qs[j]);
      var k :| 0 <= k < |rest| && path + rest[k].steps <= qs[j];
      assert path + edges[k + 1].steps <= qs[j];
    }
  }

  /** Whatever the visitor does, paths are entered in strictly increasing order, and none twice. */
  lemma WalkOrdered<V>(g: Graph, vis: Visitor<V>, st: V, root: Id)
    requires Closed(g) && AllCountsFit(g) && root in g
    ensures var ps := Entered(Run(g, vis, st, root, [], []).events);
            Increasing(ps) && forall i, j :: 0 <= i < j < |ps| ==> ps[i] != ps[j]
  {
    hide Run, PathLess;
    RunOrdered(g, vis, st, root, [], []);
    var ps := Entered(Run(g, vis, st, root, [], []).events);
    forall i, j | 0 <= i < j < |ps| ensures ps[i] != ps[j] {
      PathLessIrreflexive(ps[i]);
    }
  }

  lemma {:induction false} PathLessIrreflexive(p: Path)
    ensures !PathLess(p, p)
  {
    if p != [] { PathLessIrreflexive(p[1..]); }
  }

  /** The order of paths is total and transitive. */
  lemma {:induction false} PathOrder(p: Path, q: Path, r: Path)
    ensures p == q || PathLess(p, q) || PathLess(q, p)
    ensures PathLess(p, q) && PathLess(q, r) ==> PathLess(p, r)
  {
    if p != [] && q != [] {
      PathOrder(p[1..], q[1..], if r == [] then [] else r[1..]);
      StepOrder(p[0], q[0]);
      if p[0] == q[0] && p[1..] == q[1..] { assert p == [p[0]] + p[1..] == q; }
    }
  }

  lemma StepOrder(a: Step, b: Step)
    ensures a == b || StepLess(a, b) || StepLess(b, a)
  {
  }
}
